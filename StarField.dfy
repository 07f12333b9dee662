/** Stars and the Universe: a list of stars kept inside a box, filled at a fixed
    density and emptied of the stars that leave the box. */
module StarField {
  import opened Numbers
  import opened Geometry
  import opened Host

  const MAX_LUMINOSITY: real := 4.0
  const MIN_TEMP: real := 2000.0
  const MAX_TEMP: real := 30000.0

  datatype Star = Star(temperature: real, luminosity: real, position: Coords3D)

  /** Temperature and luminosity as the Star constructor draws them. */
  predicate HasStarAttributes(s: Star) {
    && MIN_TEMP <= s.temperature < MAX_TEMP
    && 0.0 <= s.luminosity < MAX_LUMINOSITY
  }

  predicate StarIn(range: Range3D, s: Star) {
    HasStarAttributes(s) && range.Contains(s.position)
  }

  /** `new Star(range)` given its five draws of Math.random(), in the order the
      constructor makes them: temperature, luminosity, then the three axes of the point. */
  function StarFromDraws(range: Range3D, u0: real, u1: real, u2: real, u3: real, u4: real): (s: Star)
    ensures range.Valid() && IsDraw(u0) && IsDraw(u1) && IsDraw(u2) && IsDraw(u3) && IsDraw(u4)
            ==> StarIn(range, s)
  {
    Star(RandRange(MIN_TEMP, MAX_TEMP, u0),
         RandRange(0.0, MAX_LUMINOSITY, u1),
         range.RandPoint(u2, u3, u4))
  }

  /** `new Star(range)`: draws five values from Math.random(). */
  method NewStar(range: Range3D, rng: Random) returns (s: Star)
    requires rng.Valid()
    modifies rng
    ensures rng.next == old(rng.next) + 5
    ensures var k := old(rng.next);
      s == StarFromDraws(range, rng.stream(k), rng.stream(k + 1), rng.stream(k + 2),
                         rng.stream(k + 3), rng.stream(k + 4))
    ensures range.Valid() ==> StarIn(range, s)
  {
    var u0 := rng.Next();
    var temperature := RandRange(MIN_TEMP, MAX_TEMP, u0);
    var u1 := rng.Next();
    var luminosity := RandRange(0.0, MAX_LUMINOSITY, u1);
    var u2 := rng.Next();
    var u3 := rng.Next();
    var u4 := rng.Next();
    s := Star(temperature, luminosity, range.RandPoint(u2, u3, u4));
  }

  /** The star counts that stochastic rounding of an expected count `n` can give:
      none when n is not positive, otherwise floor(n) or ceil(n). */
  predicate RoundedCount(n: real, k: nat) {
    if n <= 0.0 then k == 0 else k == n.Floor || k == Ceil(n)
  }

  lemma IterationCountOfWhole(k: int)
    ensures IterationCount(k as real) == if k <= 0 then 0 else k
  {
  }

  /** The `genStars` that populateStars picks (numStars itself when it is whole,
      otherwise its floor or its ceiling) makes the loop run a rounded count. */
  lemma {:induction false} GenStarsIsRounded(numStars: real, genStars: real)
    requires || (genStars == numStars && FracPart(numStars) == 0.0)
             || genStars == numStars.Floor as real
             || genStars == Ceil(numStars) as real
    ensures RoundedCount(numStars, IterationCount(genStars))
    ensures FracPart(numStars) == 0.0 && 0.0 <= numStars ==> IterationCount(genStars) as real == numStars
  {
    var f, c := numStars.Floor, Ceil(numStars);
    IterationCountOfWhole(f);
    IterationCountOfWhole(c);
    if FracPart(numStars) == 0.0 {
      assert c == f;
    }
  }

  /** The stars whose position `box` contains, in their original order: the
      `filter` of `cleanStars`. */
  function KeepContained(box: Range3D, stars: seq<Star>): (kept: seq<Star>)
    ensures |kept| <= |stars|
    ensures forall s :: s in kept ==> s in stars && box.Contains(s.position)
  {
    if stars == [] then []
    else
      var last := stars[|stars| - 1];
      KeepContained(box, stars[..|stars| - 1]) + (if box.Contains(last.position) then [last] else [])
  }

  /** Filtering a concatenation filters each part and keeps their order. */
  lemma {:induction false} KeepContainedConcat(box: Range3D, a: seq<Star>, b: seq<Star>)
    ensures KeepContained(box, a + b) == KeepContained(box, a) + KeepContained(box, b)
  {
    if b == [] {
      assert a + b == a;
    } else {
      var b' := b[..|b| - 1];
      assert (a + b)[..|a + b| - 1] == a + b';
      assert (a + b)[|a + b| - 1] == b[|b| - 1];
      KeepContainedConcat(box, a, b');
    }
  }

  /** No contained star is dropped. */
  lemma {:induction false} KeepContainedComplete(box: Range3D, stars: seq<Star>, s: Star)
    requires s in stars && box.Contains(s.position)
    ensures s in KeepContained(box, stars)
  {
    var rest := stars[..|stars| - 1];
    if s != stars[|stars| - 1] {
      assert stars == rest + [stars[|stars| - 1]];
      assert s in rest;
      KeepContainedComplete(box, rest, s);
    }
  }

  /** When every star is contained, nothing is removed. */
  lemma {:induction false} KeepContainedAllInside(box: Range3D, stars: seq<Star>)
    requires forall s :: s in stars ==> box.Contains(s.position)
    ensures KeepContained(box, stars) == stars
  {
    if stars != [] {
      var rest := stars[..|stars| - 1];
      assert stars == rest + [stars[|stars| - 1]];
      KeepContainedAllInside(box, rest);
    }
  }

  /** Replacing one star by a star with attributes keeps every star's attributes. */
  lemma ReplacedKeepsAttributes(stars: seq<Star>, i: nat, s': Star)
    requires i < |stars| && HasStarAttributes(s')
    requires forall s :: s in stars ==> HasStarAttributes(s)
    ensures forall s :: s in stars[i := s'] ==> HasStarAttributes(s)
  {
    forall s | s in stars[i := s']
      ensures HasStarAttributes(s)
    {
      var j :| 0 <= j < |stars| && stars[i := s'][j] == s;
      if j != i {
        assert stars[j] in stars;
      }
    }
  }

  /** One star moved by `delta`; temperature and luminosity are untouched. */
  function Moved(s: Star, delta: Coords3D): Star {
    s.(position := s.position.Plus(delta))
  }

  /** Every star moved by `delta`, in the same order. */
  function Shifted(stars: seq<Star>, delta: Coords3D): (moved: seq<Star>)
    ensures |moved| == |stars|
  {
    seq(|stars|, j requires 0 <= j < |stars| => Moved(stars[j], delta))
  }

  /** Moving by `delta` and then by its opposite gives back the same stars. */
  lemma ShiftedInverse(stars: seq<Star>, delta: Coords3D)
    ensures Shifted(Shifted(stars, delta), delta.Negated()) == stars
  {
    var back := Shifted(Shifted(stars, delta), delta.Negated());
    forall j | 0 <= j < |stars|
      ensures back[j] == stars[j]
    {
      assert back[j] == Moved(Moved(stars[j], delta), delta.Negated());
    }
  }

  /** Two moves compose into one move by the sum of the offsets. */
  lemma ShiftedTwice(stars: seq<Star>, d1: Coords3D, d2: Coords3D)
    ensures Shifted(Shifted(stars, d1), d2) == Shifted(stars, d1.Plus(d2))
  {
    var twice := Shifted(Shifted(stars, d1), d2);
    forall j | 0 <= j < |stars|
      ensures twice[j] == Shifted(stars, d1.Plus(d2))[j]
    {
      assert twice[j] == Moved(Moved(stars[j], d1), d2);
    }
  }

  /** A move along y alone changes only y, by exactly `deltaY`; x, z, temperature
      and luminosity stay as they were. */
  lemma ShiftedAlongY(stars: seq<Star>, deltaY: real)
    ensures var moved := Shifted(stars, Coords3D(0.0, deltaY, 0.0));
      forall j :: 0 <= j < |stars| ==>
        && moved[j].position.x == stars[j].position.x
        && moved[j].position.y == stars[j].position.y + deltaY
        && moved[j].position.z == stars[j].position.z
        && moved[j].temperature == stars[j].temperature
        && moved[j].luminosity == stars[j].luminosity
  {
    var moved := Shifted(stars, Coords3D(0.0, deltaY, 0.0));
    forall j | 0 <= j < |stars|
      ensures moved[j] == Moved(stars[j], Coords3D(0.0, deltaY, 0.0))
    {
    }
  }

  /** The slab translateY(deltaY) refills: the bottom `deltaY` of `size` along y. */
  function TrailingSlab(size: Range3D, deltaY: real): (slab: Range3D)
    ensures size.Valid() && 0.0 <= deltaY ==> slab.Valid()
    ensures size.Valid() && 0.0 <= deltaY <= size.upperBound.y - size.lowerBound.y
            ==> forall p :: slab.Contains(p) ==> size.Contains(p)
    ensures deltaY == 0.0 ==> slab.Volume() == 0.0
  {
    Range3D(size.lowerBound,
            Coords3D(size.upperBound.x, size.lowerBound.y + deltaY, size.upperBound.z))
  }

  /** After the trailing slab is filled, every star lies within the box's depth, and
      inside the box as long as the slab does not reach past it. */
  lemma FilledSlabPlacement(size: Range3D, deltaY: real, kept: seq<Star>, stars: seq<Star>)
    requires size.Valid() && 0.0 <= deltaY
    requires |kept| <= |stars| && stars[..|kept|] == kept
    requires forall s :: s in kept ==> size.Contains(s.position)
    requires forall s :: s in stars[|kept|..] ==> StarIn(TrailingSlab(size, deltaY), s)
    ensures forall s :: s in stars ==> size.lowerBound.z <= s.position.z <= size.upperBound.z
    ensures deltaY <= size.upperBound.y - size.lowerBound.y ==>
            forall s :: s in stars ==> size.Contains(s.position)
  {
    assert stars == kept + stars[|kept|..];
  }

  /** How many stars a box holds on average at density `density`; none in a box of
      volume zero. */
  function ExpectedStars(density: real, range: Range3D): (n: real)
    ensures range.Volume() == 0.0 ==> n == 0.0
  {
    var volume := range.Volume();
    if volume == 0.0 then
      MulZero(density, volume);
      density * volume
    else
      density * volume
  }

  /** Populating a box where no star is expected leaves the list as it was. */
  lemma FlatBoxAddsNothing(expected: real, before: seq<Star>, after: seq<Star>)
    requires expected == 0.0
    requires |before| <= |after| && after[..|before|] == before
    requires RoundedCount(expected, |after| - |before|)
    ensures after == before
  {
    assert after == after[..|before|];
  }

  /** The six faces of a box, in the order `resize` examines them. */
  datatype Face = XUpper | XLower | YUpper | YLower | ZUpper | ZLower

  /** The faces in the order `resize` examines them. */
  const Faces: seq<Face> := [XUpper, XLower, YUpper, YLower, ZUpper, ZLower]

  /** The corner of `box` that lies on `face`. */
  function CornerOn(box: Range3D, face: Face): Coords3D {
    if face == XUpper || face == YUpper || face == ZUpper then box.upperBound else box.lowerBound
  }

  /** The guard of one face check of `resize`: `face` of `newSize` lies outside the
      same face of `oldSize`. It holds only when the new box has space the old one
      lacks: the new box's corner on that face then lies outside the old box. */
  predicate MovesOut(oldSize: Range3D, newSize: Range3D, face: Face): (out: bool)
    ensures out ==> !oldSize.Contains(CornerOn(newSize, face))
    ensures out && newSize.Valid() ==> newSize.Contains(CornerOn(newSize, face))
  {
    match face
    case XUpper => newSize.upperBound.x > oldSize.upperBound.x
    case XLower => newSize.lowerBound.x < oldSize.lowerBound.x
    case YUpper => newSize.upperBound.y > oldSize.upperBound.y
    case YLower => newSize.lowerBound.y < oldSize.lowerBound.y
    case ZUpper => newSize.upperBound.z > oldSize.upperBound.z
    case ZLower => newSize.lowerBound.z < oldSize.lowerBound.z
  }

  /** Some face check of `resize` fires exactly when the old box does not enclose
      the new one. */
  predicate AnyMovesOut(oldSize: Range3D, newSize: Range3D): (any: bool)
    ensures any <==> !Encloses(oldSize, newSize)
  {
    || MovesOut(oldSize, newSize, XUpper) || MovesOut(oldSize, newSize, XLower)
    || MovesOut(oldSize, newSize, YUpper) || MovesOut(oldSize, newSize, YLower)
    || MovesOut(oldSize, newSize, ZUpper) || MovesOut(oldSize, newSize, ZLower)
  }

  /** The slab `resize` populates when `face` moves out: the box between the old and
      the new face. The x slabs span the old y and z extents, the y slabs the new x
      extent and the old z extent, the z slabs the new x and y extents (the
      z slabs as intended; `AsWrittenSlab` has them as the source writes them).
      Such a slab is always a valid box, so `resize` never fails. */
  function Slab(o: Range3D, n: Range3D, face: Face): (slab: Range3D)
    ensures o.Valid() && n.Valid() && MovesOut(o, n, face) ==> slab.Valid()
  {
    var ol, ou, nl, nu := o.lowerBound, o.upperBound, n.lowerBound, n.upperBound;
    match face
    case XUpper => Range3D(Coords3D(ou.x, ol.y, ol.z), Coords3D(nu.x, ou.y, ou.z))
    case XLower => Range3D(Coords3D(nl.x, ol.y, ol.z), Coords3D(ol.x, ou.y, ou.z))
    case YUpper => Range3D(Coords3D(nl.x, ou.y, ol.z), Coords3D(nu.x, nu.y, ou.z))
    case YLower => Range3D(Coords3D(nl.x, nl.y, ol.z), Coords3D(nu.x, ol.y, ou.z))
    case ZUpper => Range3D(Coords3D(nl.x, nl.y, ou.z), Coords3D(nu.x, nu.y, nu.z))
    case ZLower => Range3D(Coords3D(nl.x, nl.y, nl.z), Coords3D(nu.x, nu.y, ol.z))
  }

  /** The slabs exactly as the source computes them: the two z slabs take their
      upper y from the new LOWER y bound. */
  function AsWrittenSlab(o: Range3D, n: Range3D, face: Face): (slab: Range3D)
    ensures o.Valid() && n.Valid() && MovesOut(o, n, face) ==> slab.Valid()
  {
    var ou, nl, nu := o.upperBound, n.lowerBound, n.upperBound;
    match face
    case ZUpper => Range3D(Coords3D(nl.x, nl.y, ou.z), Coords3D(nu.x, nl.y, nu.z))
    case ZLower => Range3D(Coords3D(nl.x, nl.y, nl.z), Coords3D(nu.x, nl.y, o.lowerBound.z))
    case _ => Slab(o, n, face)
  }

  /** As written, the z slabs have no y extent, hence volume 0: populating them adds
      no star whatever the density. */
  lemma AsWrittenZSlabsAreFlat(o: Range3D, n: Range3D, density: real, k: nat)
    ensures AsWrittenSlab(o, n, ZUpper).Volume() == 0.0
    ensures AsWrittenSlab(o, n, ZLower).Volume() == 0.0
    ensures RoundedCount(ExpectedStars(density, AsWrittenSlab(o, n, ZUpper)), k) <==> k == 0
    ensures RoundedCount(ExpectedStars(density, AsWrittenSlab(o, n, ZLower)), k) <==> k == 0
  {
  }

  /** Growing the unit cube to depth 2 exposes the point (0.5, 0.5, 1.5), yet no
      slab the source populates contains it. */
  lemma AsWrittenSlabsMissExposedPoint()
    ensures var o := Range3D(Coords3D(0.0, 0.0, 0.0), Coords3D(1.0, 1.0, 1.0));
            var n := Range3D(Coords3D(0.0, 0.0, 0.0), Coords3D(1.0, 1.0, 2.0));
            var p := Coords3D(0.5, 0.5, 1.5);
            && o.Valid() && n.Valid() && n.Contains(p) && !o.Contains(p)
            && forall face :: MovesOut(o, n, face) ==> !AsWrittenSlab(o, n, face).Contains(p)
  {
  }

  /** Every point of the new box outside the old box lies in the slab of some face
      that moved out: the slabs cover all the newly exposed space. */
  lemma SlabsCoverExposedRegion(o: Range3D, n: Range3D, p: Coords3D)
    requires o.Valid() && n.Valid() && n.Contains(p) && !o.Contains(p)
    ensures exists face :: MovesOut(o, n, face) && Slab(o, n, face).Contains(p)
  {
    var face :=
      if p.z > o.upperBound.z then ZUpper
      else if p.z < o.lowerBound.z then ZLower
      else if p.y > o.upperBound.y then YUpper
      else if p.y < o.lowerBound.y then YLower
      else if p.x > o.upperBound.x then XUpper
      else XLower;
    assert MovesOut(o, n, face) && Slab(o, n, face).Contains(p);
  }

  /** Each slab the source populates lies within the intended slab of the same
      face; the two differ only on the z faces. */
  lemma AsWrittenSlabWithinSlab(o: Range3D, n: Range3D, face: Face, p: Coords3D)
    requires n.Valid() && AsWrittenSlab(o, n, face).Contains(p)
    ensures Slab(o, n, face).Contains(p)
  {
  }

  /** When the new box encloses the old one, every slab lies inside the new box. */
  lemma SlabWithinEnclosing(o: Range3D, n: Range3D, face: Face, p: Coords3D)
    requires o.Valid() && n.Valid() && Encloses(n, o) && Slab(o, n, face).Contains(p)
    ensures n.Contains(p)
  {
  }

  /** How many stars the face check for `face` may add: a rounded count of the
      stars expected in the slab the source populates when the face moves out,
      and none otherwise. */
  predicate FaceCount(density: real, o: Range3D, n: Range3D, face: Face, k: nat) {
    if MovesOut(o, n, face) then RoundedCount(ExpectedStars(density, AsWrittenSlab(o, n, face)), k) else k == 0
  }

  /** What the face check for `face` appends: its count of stars, each inside the
      slab the source populates for that face. */
  predicate FaceSegment(density: real, o: Range3D, n: Range3D, face: Face, appended: seq<Star>) {
    && FaceCount(density, o, n, face, |appended|)
    && forall s :: s in appended ==> StarIn(AsWrittenSlab(o, n, face), s)
  }

  /** `outer` encloses `inner`. */
  predicate Encloses(outer: Range3D, inner: Range3D) {
    && outer.lowerBound.x <= inner.lowerBound.x && inner.upperBound.x <= outer.upperBound.x
    && outer.lowerBound.y <= inner.lowerBound.y && inner.upperBound.y <= outer.upperBound.y
    && outer.lowerBound.z <= inner.lowerBound.z && inner.upperBound.z <= outer.upperBound.z
  }

  /** The volume `resize` populates through `face`. */
  function SlabVolume(o: Range3D, n: Range3D, face: Face): real {
    if MovesOut(o, n, face) then Slab(o, n, face).Volume() else 0.0
  }

  /** When the box grows, the slabs do not overlap: their volumes add up to exactly
      the volume gained, so the expected number of new stars is the density times
      the volume gained. */
  lemma SlabVolumesSum(o: Range3D, n: Range3D)
    requires o.Valid() && n.Valid() && Encloses(n, o)
    ensures SlabVolume(o, n, XUpper) + SlabVolume(o, n, XLower)
          + SlabVolume(o, n, YUpper) + SlabVolume(o, n, YLower)
          + SlabVolume(o, n, ZUpper) + SlabVolume(o, n, ZLower)
          == n.Volume() - o.Volume()
  {
    var ol, ou, nl, nu := o.lowerBound, o.upperBound, n.lowerBound, n.upperBound;
    SlabVolumeOfFace(o, n, XUpper);
    SlabVolumeOfFace(o, n, XLower);
    SlabVolumeOfFace(o, n, YUpper);
    SlabVolumeOfFace(o, n, YLower);
    SlabVolumeOfFace(o, n, ZUpper);
    SlabVolumeOfFace(o, n, ZLower);
    // n = z-lower slab + middle layer + z-upper slab
    SplitAlongZ(n, ol.z, ou.z);
    var layer := Range3D(Coords3D(nl.x, nl.y, ol.z), Coords3D(nu.x, nu.y, ou.z));
    // middle layer = y-lower slab + column + y-upper slab
    SplitAlongY(layer, ol.y, ou.y);
    var column := Range3D(Coords3D(nl.x, ol.y, ol.z), Coords3D(nu.x, ou.y, ou.z));
    // column = x-lower slab + o + x-upper slab
    SplitAlongX(column, ol.x, ou.x);
  }

  /** A face that does not move out leaves a flat slab, so counting its volume or
      zero is the same. */
  lemma SlabVolumeOfFace(o: Range3D, n: Range3D, face: Face)
    requires o.Valid() && n.Valid() && Encloses(n, o)
    ensures SlabVolume(o, n, face) == Slab(o, n, face).Volume()
  {
    if !MovesOut(o, n, face) {
      var slab := Slab(o, n, face);
      assert || slab.lowerBound.x == slab.upperBound.x
             || slab.lowerBound.y == slab.upperBound.y
             || slab.lowerBound.z == slab.upperBound.z;
    }
  }

  /** Cutting a box at x == a and x == b splits its volume into three parts. */
  lemma SplitAlongX(r: Range3D, a: real, b: real)
    requires r.lowerBound.x <= a <= b <= r.upperBound.x
    ensures var l, u := r.lowerBound, r.upperBound;
      r.Volume() == Range3D(l, Coords3D(a, u.y, u.z)).Volume()
                  + Range3D(Coords3D(a, l.y, l.z), Coords3D(b, u.y, u.z)).Volume()
                  + Range3D(Coords3D(b, l.y, l.z), u).Volume()
  {
    var l, u := r.lowerBound, r.upperBound;
    ThreeParts(l.x, a, b, u.x, u.y - l.y, u.z - l.z);
  }

  lemma SplitAlongY(r: Range3D, a: real, b: real)
    requires r.lowerBound.y <= a <= b <= r.upperBound.y
    ensures var l, u := r.lowerBound, r.upperBound;
      r.Volume() == Range3D(l, Coords3D(u.x, a, u.z)).Volume()
                  + Range3D(Coords3D(l.x, a, l.z), Coords3D(u.x, b, u.z)).Volume()
                  + Range3D(Coords3D(l.x, b, l.z), u).Volume()
  {
    var l, u := r.lowerBound, r.upperBound;
    ThreePartsMiddle(u.x - l.x, l.y, a, b, u.y, u.z - l.z);
  }

  lemma SplitAlongZ(r: Range3D, a: real, b: real)
    requires r.lowerBound.z <= a <= b <= r.upperBound.z
    ensures var l, u := r.lowerBound, r.upperBound;
      r.Volume() == Range3D(l, Coords3D(u.x, u.y, a)).Volume()
                  + Range3D(Coords3D(l.x, l.y, a), Coords3D(u.x, u.y, b)).Volume()
                  + Range3D(Coords3D(l.x, l.y, b), u).Volume()
  {
    var l, u := r.lowerBound, r.upperBound;
    ThreePartsLast(u.x - l.x, u.y - l.y, l.z, a, b, u.z);
  }

  lemma ThreeParts(l: real, a: real, b: real, u: real, p: real, q: real)
    ensures (u - l) * p * q == (a - l) * p * q + (b - a) * p * q + (u - b) * p * q
  {
  }

  lemma ThreePartsMiddle(p: real, l: real, a: real, b: real, u: real, q: real)
    ensures p * (u - l) * q == p * (a - l) * q + p * (b - a) * q + p * (u - b) * q
  {
  }

  lemma ThreePartsLast(p: real, q: real, l: real, a: real, b: real, u: real)
    ensures p * q * (u - l) == p * q * (a - l) + p * q * (b - a) + p * q * (u - b)
  {
  }

  /** A star that populating the exposed slab of some outward-moving face can add. */
  ghost predicate FromExposedSlab(o: Range3D, n: Range3D, s: Star) {
    HasStarAttributes(s) && exists face :: MovesOut(o, n, face) && Slab(o, n, face).Contains(s.position)
  }

  /** `after` is `before` followed by stars from the exposed slabs. */
  ghost predicate ExtendsWith(before: seq<Star>, after: seq<Star>, o: Range3D, n: Range3D) {
    && |before| <= |after| && after[..|before|] == before
    && forall s :: s in after[|before|..] ==> FromExposedSlab(o, n, s)
  }

  lemma ExtendsWithTransitive(a: seq<Star>, b: seq<Star>, c: seq<Star>, o: Range3D, n: Range3D)
    requires ExtendsWith(a, b, o, n) && ExtendsWith(b, c, o, n)
    ensures ExtendsWith(a, c, o, n)
  {
    assert c[|a|..] == b[|a|..] + c[|b|..] by {
      assert c == b + c[|b|..];
    }
  }

  /** Dropping the stars outside the new box keeps `after` an extension of `before`:
      the filtered old stars come first, then filtered stars from exposed slabs. */
  lemma FilteringKeepsExtension(before: seq<Star>, after: seq<Star>, o: Range3D, n: Range3D)
    requires ExtendsWith(before, after, o, n)
    ensures ExtendsWith(KeepContained(n, before), KeepContained(n, after), o, n)
  {
    var added := after[|before|..];
    assert after == before + added;
    KeepContainedConcat(n, before, added);
    var kept := KeepContained(n, before);
    assert KeepContained(n, after)[|kept|..] == KeepContained(n, added);
  }

  /** The stars one face check appends to `before` when its face moves out: a
      rounded count of stars from the slab the source populates. They extend
      `before` with stars from the exposed space, and none when the face is a z face. */
  lemma PopulatedFace(o: Range3D, n: Range3D, face: Face, density: real, before: seq<Star>, after: seq<Star>)
    requires n.Valid() && MovesOut(o, n, face)
    requires |before| <= |after| && after[..|before|] == before
    requires RoundedCount(ExpectedStars(density, AsWrittenSlab(o, n, face)), |after| - |before|)
    requires forall s :: s in after[|before|..] ==> StarIn(AsWrittenSlab(o, n, face), s)
    ensures ExtendsWith(before, after, o, n)
    ensures after == before + after[|before|..]
    ensures FaceSegment(density, o, n, face, after[|before|..])
    ensures face == ZUpper || face == ZLower ==> after == before
  {
    assert after == before + after[|before|..];
    if face == ZUpper || face == ZLower {
      AsWrittenZSlabsAreFlat(o, n, density, |after| - |before|);
      assert after == after[..|before|];
    }
    forall s | s in after[|before|..]
      ensures FromExposedSlab(o, n, s)
    {
      AsWrittenSlabWithinSlab(o, n, face, s.position);
    }
  }

  /** The six face segments, listed in the order of `Faces`. */
  lemma EachFaceSegment(density: real, o: Range3D, n: Range3D, segments: seq<seq<Star>>)
    requires |segments| == 6
    requires && FaceSegment(density, o, n, XUpper, segments[0]) && FaceSegment(density, o, n, XLower, segments[1])
             && FaceSegment(density, o, n, YUpper, segments[2]) && FaceSegment(density, o, n, YLower, segments[3])
             && FaceSegment(density, o, n, ZUpper, segments[4]) && FaceSegment(density, o, n, ZLower, segments[5])
    ensures forall i :: 0 <= i < 6 ==> FaceSegment(density, o, n, Faces[i], segments[i])
  {
    forall i | 0 <= i < 6
      ensures FaceSegment(density, o, n, Faces[i], segments[i])
    {
      assert Faces[i] == [XUpper, XLower, YUpper, YLower, ZUpper, ZLower][i];
    }
  }

  /** When the new box encloses the old one, pruning drops none of the stars added
      from the exposed slabs: the growth survives the pruning whole. */
  lemma EnclosedGrowthIsKept(before: seq<Star>, after: seq<Star>, o: Range3D, n: Range3D)
    requires o.Valid() && n.Valid() && Encloses(n, o)
    requires ExtendsWith(before, after, o, n)
    ensures |KeepContained(n, after)| == |KeepContained(n, before)| + (|after| - |before|)
  {
    var added := after[|before|..];
    assert after == before + added;
    KeepContainedConcat(n, before, added);
    forall s | s in added
      ensures n.Contains(s.position)
    {
      var face :| MovesOut(o, n, face) && Slab(o, n, face).Contains(s.position);
      SlabWithinEnclosing(o, n, face, s.position);
    }
    KeepContainedAllInside(n, added);
  }

  class Universe {
    var size: Range3D
    const stellarDensity: real
    var stars: seq<Star>

    /** The box is valid and every star carries attributes the Star constructor draws. */
    ghost predicate Valid()
      reads this
    {
      size.Valid() && forall s :: s in stars ==> HasStarAttributes(s)
    }

    ghost predicate AllInside()
      reads this
    {
      forall s :: s in stars ==> size.Contains(s.position)
    }

    /** Every star lies within the z extent of the box. */
    ghost predicate WithinDepth()
      reads this
    {
      forall s :: s in stars ==> size.lowerBound.z <= s.position.z <= size.upperBound.z
    }

    constructor (initialSize: Range3D, stellarDensity: real, rng: Random)
      requires initialSize.Valid() && rng.Valid()
      modifies rng
      ensures Valid() && AllInside()
      ensures size == initialSize && this.stellarDensity == stellarDensity
      ensures RoundedCount(ExpectedStars(stellarDensity, initialSize), |stars|)
    {
      size := initialSize;
      this.stellarDensity := stellarDensity;
      stars := [];
      new;
      PopulateStars(size, rng);
      assert stars[0..] == stars;
    }

    /** Appends `stellarDensity * range.volume()` new stars drawn inside `range`,
        rounded stochastically to the floor or the ceiling; earlier stars are kept
        as they are. */
    method PopulateStars(range: Range3D, rng: Random)
      requires Valid() && range.Valid() && rng.Valid()
      modifies this, rng
      ensures Valid() && size == old(size)
      ensures |old(stars)| <= |stars| && stars[..|old(stars)|] == old(stars)
      ensures RoundedCount(ExpectedStars(stellarDensity, range), |stars| - |old(stars)|)
      ensures var n := ExpectedStars(stellarDensity, range);
              FracPart(n) == 0.0 && 0.0 <= n ==> (|stars| - |old(stars)|) as real == n
      ensures forall s :: s in stars[|old(stars)|..] ==> StarIn(range, s)
    {
      var numStars := ExpectedStars(stellarDensity, range);
      var fracPart := FracPart(numStars);
      var genStars: real;
      if fracPart == 0.0 {
        genStars := numStars;
      } else {
        var u := rng.Next();
        genStars := if u < fracPart then numStars.Floor as real else Ceil(numStars) as real;
      }
      ghost var count := IterationCount(genStars);
      GenStarsIsRounded(numStars, genStars);
      var i := 0;
      while (i as real) < genStars
        invariant 0 <= i <= count
        invariant Valid() && size == old(size)
        invariant |stars| == |old(stars)| + i && stars[..|old(stars)|] == old(stars)
        invariant forall s :: s in stars[|old(stars)|..] ==> StarIn(range, s)
        decreases count - i
      {
        var star := NewStar(range, rng);
        assert (stars + [star])[|old(stars)|..] == stars[|old(stars)|..] + [star];
        stars := stars + [star];
        i := i + 1;
      }
    }

    /** Moves every star by `deltaY` along y, drops the stars that left the box and
        refills the slab vacated at the bottom. The slab is built after the move
        and the pruning, so a negative `deltaY` fails only then. */
    method TranslateY(deltaY: real, rng: Random) returns (r: Outcome)
      requires Valid() && rng.Valid()
      modifies this, rng
      ensures Valid() && size == old(size) && WithinDepth()
      ensures r.Pass? <==> 0.0 <= deltaY
      ensures var kept := KeepContained(size, Shifted(old(stars), Coords3D(0.0, deltaY, 0.0)));
        && |kept| <= |stars| && stars[..|kept|] == kept
        && (r.Fail? ==> stars == kept)
        && (r.Pass? ==> RoundedCount(ExpectedStars(stellarDensity, TrailingSlab(size, deltaY)), |stars| - |kept|))
        && (r.Pass? ==> forall s :: s in stars[|kept|..] ==> StarIn(TrailingSlab(size, deltaY), s))
        && (deltaY == 0.0 ==> stars == kept)
      ensures 0.0 <= deltaY <= size.upperBound.y - size.lowerBound.y ==> AllInside()
    {
      for i := 0 to |stars|
        invariant Valid() && size == old(size) && |stars| == |old(stars)|
        invariant forall j :: 0 <= j < i ==> stars[j] == Moved(old(stars)[j], Coords3D(0.0, deltaY, 0.0))
        invariant forall j :: i <= j < |stars| ==> stars[j] == old(stars)[j]
      {
        var moved := stars[i].(position := stars[i].position.(y := stars[i].position.y + deltaY));
        assert stars[i] in stars;
        ReplacedKeepsAttributes(stars, i, moved);
        stars := stars[i := moved];
      }
      assert stars == Shifted(old(stars), Coords3D(0.0, deltaY, 0.0));
      CleanStars();
      ghost var kept := stars;
      assert kept == KeepContained(size, Shifted(old(stars), Coords3D(0.0, deltaY, 0.0)));
      var slab := MakeRange(size.lowerBound,
                            Coords3D(size.upperBound.x, size.lowerBound.y + deltaY, size.upperBound.z));
      if slab.Err? {
        r := Fail(slab.error);
        return;
      }
      ghost var trailing := TrailingSlab(size, deltaY);
      assert slab.value == trailing;
      PopulateStars(slab.value, rng);
      if deltaY == 0.0 {
        FlatBoxAddsNothing(ExpectedStars(stellarDensity, trailing), kept, stars);
      }
      r := Pass;
      FilledSlabPlacement(size, deltaY, kept, stars);
    }

    /** `cleanStars`: keeps exactly the stars the box contains, in order. */
    method CleanStars()
      requires Valid()
      modifies this
      ensures Valid() && size == old(size) && AllInside()
      ensures stars == KeepContained(size, old(stars))
    {
      stars := KeepContained(size, stars);
    }

    /** Moves every star by `delta` on all three axes; no star is dropped or added. */
    method Translate(delta: Coords3D)
      requires Valid()
      modifies this
      ensures Valid() && size == old(size)
      ensures stars == Shifted(old(stars), delta)
    {
      for i := 0 to |stars|
        invariant Valid() && size == old(size) && |stars| == |old(stars)|
        invariant forall j :: 0 <= j < i ==> stars[j] == Moved(old(stars)[j], delta)
        invariant forall j :: i <= j < |stars| ==> stars[j] == old(stars)[j]
      {
        var p := stars[i].position;
        var moved := stars[i].(position := Coords3D(p.x + delta.x, p.y + delta.y, p.z + delta.z));
        assert stars[i] in stars;
        ReplacedKeepsAttributes(stars, i, moved);
        stars := stars[i := moved];
      }
    }

    /** One of the six face checks of `resize`: when `face` moves out, populates the
        slab the source computes for it (`AsWrittenSlab`), against the current (not
        yet replaced) size. `appended` is what it adds: every appended star lies in
        that slab. The two z checks add no star, their slabs being flat. */
    method PopulateFace(newSize: Range3D, face: Face, rng: Random) returns (ghost appended: seq<Star>)
      requires Valid() && newSize.Valid() && rng.Valid()
      modifies this, rng
      ensures Valid() && size == old(size)
      ensures stars == old(stars) + appended
      ensures FaceSegment(stellarDensity, size, newSize, face, appended)
      ensures ExtendsWith(old(stars), stars, size, newSize)
      ensures !MovesOut(size, newSize, face) || face == ZUpper || face == ZLower ==> appended == []
    {
      appended := [];
      if MovesOut(size, newSize, face) {
        PopulateStars(AsWrittenSlab(size, newSize, face), rng);
        PopulatedFace(size, newSize, face, stellarDensity, old(stars), stars);
        appended := stars[|old(stars)|..];
      }
    }

    /** Grows or shrinks the box to `newSize`: runs the six face checks in the order
        x-upper, x-lower, y-upper, y-lower, z-upper, z-lower, then replaces the size
        and drops the stars left outside. `segments` holds, in that order, what each
        face check appends; the new list is the old list followed by the six
        segments, filtered by the new box. When the new box encloses the old one,
        nothing appended is dropped again. */
    method Resize(newSize: Range3D, rng: Random) returns (ghost segments: seq<seq<Star>>)
      requires Valid() && newSize.Valid() && rng.Valid()
      modifies this, rng
      ensures Valid() && size == newSize && AllInside()
      ensures |segments| == 6
      ensures forall i :: 0 <= i < 6 ==> FaceSegment(stellarDensity, old(size), newSize, Faces[i], segments[i])
      ensures segments[4] == [] && segments[5] == []
      ensures stars == KeepContained(newSize, old(stars) + segments[0] + segments[1] + segments[2]
                                                         + segments[3] + segments[4] + segments[5])
      ensures ExtendsWith(KeepContained(newSize, old(stars)), stars, old(size), newSize)
      ensures Encloses(newSize, old(size)) ==>
              |stars| == |KeepContained(newSize, old(stars))|
                         + |segments[0]| + |segments[1]| + |segments[2]| + |segments[3]|
      ensures !AnyMovesOut(old(size), newSize) ==> stars == KeepContained(newSize, old(stars))
    {
      ghost var s0 := stars;
      var a0 := PopulateFace(newSize, XUpper, rng);
      ghost var s1 := stars;
      var a1 := PopulateFace(newSize, XLower, rng);
      ghost var s2 := stars;
      ExtendsWithTransitive(s0, s1, s2, size, newSize);
      var a2 := PopulateFace(newSize, YUpper, rng);
      ghost var s3 := stars;
      ExtendsWithTransitive(s0, s2, s3, size, newSize);
      var a3 := PopulateFace(newSize, YLower, rng);
      ghost var s4 := stars;
      ExtendsWithTransitive(s0, s3, s4, size, newSize);
      var a4 := PopulateFace(newSize, ZUpper, rng);
      ghost var s5 := stars;
      ExtendsWithTransitive(s0, s4, s5, size, newSize);
      var a5 := PopulateFace(newSize, ZLower, rng);
      ghost var grown := stars;
      ExtendsWithTransitive(s0, s5, grown, size, newSize);
      segments := [a0, a1, a2, a3, a4, a5];
      EachFaceSegment(stellarDensity, size, newSize, segments);
      ghost var oldSize := size;
      size := newSize;
      CleanStars();
      FilteringKeepsExtension(s0, grown, oldSize, newSize);
      if Encloses(newSize, oldSize) {
        EnclosedGrowthIsKept(s0, grown, oldSize, newSize);
      }
    }
  }
}
