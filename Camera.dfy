/** The observer: a pinhole camera at distance `distance` behind the window plane
    z == 0, looking into a universe that spans z from 0 to `depth`. */
module Camera {
  import opened Numbers
  import opened Geometry
  import opened Host
  import opened Colour
  import opened StarField

  datatype Option<T> = None | Some(value: T)

  /** One star as it is drawn: a filled disc at a screen position. */
  datatype Circle = Circle(radius: real, position: Coords2D, color: RgbColor, opacity: real)

  /** The window `[-w, -h, 0]..[w, h, 0]` that `setWindow(bound)` builds; it cannot be
      built when a bound is negative. */
  function WindowRange(bound: Coords2D): (r: Result<Range3D>)
    ensures r.Ok? <==> 0.0 <= bound.x && 0.0 <= bound.y
    ensures r.Ok? ==> r.value.Valid()
                      && r.value.lowerBound == Coords3D(-bound.x, -bound.y, 0.0)
                      && r.value.upperBound == Coords3D(bound.x, bound.y, 0.0)
  {
    MakeRange(Coords3D(-bound.x, -bound.y, 0.0), Coords3D(bound.x, bound.y, 0.0))
  }

  /** Where the line of sight from `location` through `corner` reaches the plane
      z == depth (similar triangles), as an offset from the observer's x and y. For
      an observer on the z axis the point (far.x, far.y, depth) lies on that line:
      its x and y grow with the distance from the observer in the same ratio as
      those of `corner`. */
  function CarryBack(location: Coords3D, depth: real, corner: Coords3D): (far: Coords2D)
    requires corner.z != location.z
    ensures location.x == 0.0 && location.y == 0.0 ==>
            && far.x * (corner.z - location.z) == corner.x * (depth - location.z)
            && far.y * (corner.z - location.z) == corner.y * (depth - location.z)
  {
    ScaledBy(corner.x - location.x, corner.z - location.z, depth - location.z);
    ScaledBy(corner.y - location.y, corner.z - location.z, depth - location.z);
    Coords2D((corner.x - location.x) / (corner.z - location.z) * (depth - location.z),
             (corner.y - location.y) / (corner.z - location.z) * (depth - location.z))
  }

  /** `#universeSize`: the box from z == 0 to z == depth whose far face spans the
      window's corners carried back to depth `depth`. */
  function UniverseSize(location: Coords3D, depth: real, window: Range3D): (r: Result<Range3D>)
    requires window.lowerBound.z != location.z && window.upperBound.z != location.z
    ensures r.Ok? ==> r.value.Valid() && r.value.lowerBound.z == 0.0 && r.value.upperBound.z == depth
    ensures depth < 0.0 ==> r.Err?
  {
    var far0 := CarryBack(location, depth, window.lowerBound);
    var far1 := CarryBack(location, depth, window.upperBound);
    MakeRange(Coords3D(far0.x, far0.y, 0.0), Coords3D(far1.x, far1.y, depth))
  }

  /** Where the line from `location` to `p` crosses the plane z == 0, as an offset
      from the observer's x and y. For an observer on the z axis the point
      (q.x, q.y, 0) lies on that line. */
  function Project(location: Coords3D, p: Coords3D): (q: Coords2D)
    requires p.z != location.z
    ensures location.x == 0.0 && location.y == 0.0 ==>
            && q.x * (p.z - location.z) == p.x * -location.z
            && q.y * (p.z - location.z) == p.y * -location.z
  {
    ScaledBy(p.x - location.x, p.z - location.z, -location.z);
    ScaledBy(p.y - location.y, p.z - location.z, -location.z);
    Coords2D((p.x - location.x) / (p.z - location.z) * -location.z,
             (p.y - location.y) / (p.z - location.z) * -location.z)
  }

  /** Scaling `a` by `k / d` and multiplying back by `d` gives `a * k`. */
  lemma ScaledBy(a: real, d: real, k: real)
    requires d != 0.0
    ensures a / d * k * d == a * k
  {
  }

  /** Projection undoes carrying back: for an observer on the z axis, a window point
      carried back to any depth beyond the window projects onto itself. */
  lemma ProjectUndoesCarryBack(location: Coords3D, depth: real, corner: Coords3D)
    requires location.x == 0.0 && location.y == 0.0 && location.z < 0.0
    requires corner.z == 0.0 && 0.0 <= depth
    ensures var far := CarryBack(location, depth, corner);
            Project(location, Coords3D(far.x, far.y, depth)) == Coords2D(corner.x, corner.y)
  {
    ScaledBack(corner.x, -location.z, depth - location.z);
    ScaledBack(corner.y, -location.z, depth - location.z);
  }

  lemma ScaledBack(a: real, d: real, k: real)
    requires 0.0 < d && 0.0 < k
    ensures (a / d * k) / k * d == a
  {
    calc {
      (a / d * k) / k * d;
      (a / d) * d;
      a;
    }
  }

  /** A point already on the window plane projects onto itself. */
  lemma ProjectionFixesWindowPlane(distance: real, p: Coords3D)
    requires 0.0 < distance && p.z == 0.0
    ensures Project(Coords3D(0.0, 0.0, -distance), p) == Coords2D(p.x, p.y)
  {
  }

  /** The frustum's half-widths: the window bound scaled by (depth + distance) / distance. */
  function FrustumBox(distance: real, depth: real, bound: Coords2D): Range3D
    requires 0.0 < distance
  {
    var scale := (depth + distance) / distance;
    Range3D(Coords3D(-bound.x * scale, -bound.y * scale, 0.0),
            Coords3D(bound.x * scale, bound.y * scale, depth))
  }

  /** For an observer on the z axis, `#universeSize` of the window built from a
      non-negative bound never fails and is the box of half-widths
      bound * (depth + distance) / distance over z in [0, depth]. */
  lemma FrustumShape(distance: real, depth: real, bound: Coords2D)
    requires 0.0 < distance && 0.0 <= depth && 0.0 <= bound.x && 0.0 <= bound.y
    ensures WindowRange(bound).Ok?
    ensures UniverseSize(Coords3D(0.0, 0.0, -distance), depth, WindowRange(bound).value)
            == Ok(FrustumBox(distance, depth, bound))
  {
    var location := Coords3D(0.0, 0.0, -distance);
    var window := WindowRange(bound).value;
    var box := FrustumBox(distance, depth, bound);
    var scale := (depth + distance) / distance;
    ScaledCorner(-bound.x, distance, depth);
    ScaledCorner(-bound.y, distance, depth);
    ScaledCorner(bound.x, distance, depth);
    ScaledCorner(bound.y, distance, depth);
    var far0 := CarryBack(location, depth, window.lowerBound);
    var far1 := CarryBack(location, depth, window.upperBound);
    assert far0 == Coords2D(box.lowerBound.x, box.lowerBound.y);
    assert far1 == Coords2D(box.upperBound.x, box.upperBound.y);
    assert 0.0 < scale;
    MulNonNegative(bound.x, scale);
    MulNonNegative(bound.y, scale);
    assert box.Valid();
  }

  /** One corner coordinate of the window carried back to depth `depth`. */
  lemma ScaledCorner(b: real, distance: real, depth: real)
    requires 0.0 < distance
    ensures (b - 0.0) / (0.0 - -distance) * (depth - -distance) == b * ((depth + distance) / distance)
  {
  }

  /** The star lies beyond the observer, so its line of sight crosses the window. */
  predicate InFront(location: Coords3D, s: Star) {
    s.position.z > location.z
  }

  /** Luminosity over the squared depth from the observer. */
  function Flux(location: Coords3D, s: Star): (flux: real)
    requires InFront(location, s)
    ensures 0.0 <= s.luminosity ==> 0.0 <= flux
  {
    var dz := s.position.z - location.z;
    DivideBySquare(s.luminosity, dz);
    s.luminosity / (dz * dz)
  }

  lemma DivideBySquare(a: real, d: real)
    requires 0.0 < d
    ensures 0.0 <= a ==> 0.0 <= a / (d * d)
  {
    MulPositive(d, d);
    DivideByPositiveProduct(a, d, d);
  }

  lemma DivideByPositiveProduct(a: real, x: real, y: real)
    requires 0.0 < x * y
    ensures 0.0 <= a ==> 0.0 <= a / (x * y)
  {
  }

  /** What the square root promises at one point. */
  lemma SqrtAt(math: MathFunctions, x: real)
    ensures math.SqrtSound() && 0.0 <= x ==>
            0.0 <= math.sqrt(x) && math.sqrt(x) * math.sqrt(x) == x
  {
  }

  /** The star is kept: its projection lies within the window widened by its
      apparent radius sqrt(flux) on every side. */
  predicate Visible(location: Coords3D, window: Range3D, s: Star, math: MathFunctions)
    requires InFront(location, s)
  {
    var position := Project(location, s.position);
    var apparentRadius := math.sqrt(Flux(location, s));
    && window.lowerBound.x - apparentRadius <= position.x <= window.upperBound.x + apparentRadius
    && window.lowerBound.y - apparentRadius <= position.y <= window.upperBound.y + apparentRadius
  }

  /** One iteration of `flatten`: no circle for a culled star; otherwise a circle at
      the projection measured from the window's lower corner, drawn at least one
      pixel wide, fully opaque when its apparent radius reaches 1 and with opacity
      `flux` otherwise. */
  function CircleOf(location: Coords3D, window: Range3D, s: Star, math: MathFunctions): (c: Option<Circle>)
    requires InFront(location, s)
    ensures c.Some? <==> Visible(location, window, s, math)
    ensures c.Some? ==> var p := Project(location, s.position);
      && c.value.position == Coords2D(p.x - window.lowerBound.x, p.y - window.lowerBound.y)
      && c.value.color == TempToRgb(s.temperature, math)
      && 1.0 <= c.value.radius
      && (c.value.opacity == 1.0 || c.value.opacity == Flux(location, s))
    ensures c.Some? && math.SqrtSound() && 0.0 <= s.luminosity ==>
      && 0.0 <= c.value.opacity <= 1.0
      && (c.value.opacity < 1.0 ==> c.value.radius == 1.0)
      && (c.value.radius == math.sqrt(Flux(location, s)) || c.value.radius == 1.0)
    ensures c.Some? ==> var a := math.sqrt(Flux(location, s));
      && (a >= 1.0 ==> c.value.radius == a && c.value.opacity == 1.0)
      && (a < 1.0 ==> c.value.radius == 1.0 && c.value.opacity == Flux(location, s))
  {
    var position := Project(location, s.position);
    var flux := Flux(location, s);
    var apparentRadius := math.sqrt(flux);
    if || position.x < window.lowerBound.x - apparentRadius
       || position.x > window.upperBound.x + apparentRadius
       || position.y < window.lowerBound.y - apparentRadius
       || position.y > window.upperBound.y + apparentRadius
    then None
    else
      var screen := Coords2D(position.x - window.lowerBound.x, position.y - window.lowerBound.y);
      if apparentRadius >= 1.0 then
        Some(Circle(apparentRadius, screen, TempToRgb(s.temperature, math), 1.0))
      else
        DimStarIsTranslucent(math, flux);
        Some(Circle(1.0, screen, TempToRgb(s.temperature, math), flux))
  }

  /** A flux whose square root is below 1 is itself below 1. */
  lemma DimStarIsTranslucent(math: MathFunctions, flux: real)
    ensures math.SqrtSound() && 0.0 <= flux && math.sqrt(flux) < 1.0 ==> flux < 1.0
  {
    if math.SqrtSound() && 0.0 <= flux && math.sqrt(flux) < 1.0 {
      var r := math.sqrt(flux);
      SqrtAt(math, flux);
      assert r * r == flux;
      assert 0.0 <= r;
      ProductBelowOne(r, r);
      assert r * r < 1.0;
    }
  }

  lemma ProductBelowOne(x: real, y: real)
    requires 0.0 <= x < 1.0 && 0.0 <= y < 1.0
    ensures x * y < 1.0
  {
    MulNonNegative(x, 1.0 - y);
    assert x * y <= x;
  }

  /** A star whose projection falls inside the window itself is never culled. */
  lemma OnScreenStarIsKept(location: Coords3D, window: Range3D, s: Star, math: MathFunctions)
    requires InFront(location, s) && math.SqrtSound() && 0.0 <= s.luminosity
    requires var p := Project(location, s.position);
             window.lowerBound.x <= p.x <= window.upperBound.x
             && window.lowerBound.y <= p.y <= window.upperBound.y
    ensures CircleOf(location, window, s, math).Some?
  {
    SqrtAt(math, Flux(location, s));
  }

  /** `flatten` over a list of stars: at most one circle per star, in star order. */
  function Flattened(location: Coords3D, window: Range3D, stars: seq<Star>, math: MathFunctions): (circles: seq<Circle>)
    requires forall s :: s in stars ==> InFront(location, s)
    ensures |circles| <= |stars|
    ensures forall c :: c in circles ==> 1.0 <= c.radius
    ensures math.SqrtSound() && (forall s :: s in stars ==> 0.0 <= s.luminosity)
            ==> forall c :: c in circles ==> 0.0 <= c.opacity <= 1.0
  {
    if stars == [] then []
    else
      var last := stars[|stars| - 1];
      Flattened(location, window, stars[..|stars| - 1], math)
      + match CircleOf(location, window, last, math) {
          case Some(c) => [c]
          case None => []
        }
  }

  /** Flattening a concatenation flattens each part, keeping their order. */
  lemma {:induction false} FlattenedConcat(location: Coords3D, window: Range3D, a: seq<Star>, b: seq<Star>, math: MathFunctions)
    requires forall s :: s in a + b ==> InFront(location, s)
    ensures Flattened(location, window, a + b, math)
            == Flattened(location, window, a, math) + Flattened(location, window, b, math)
  {
    if b == [] {
      assert a + b == a;
    } else {
      var b' := b[..|b| - 1];
      assert (a + b)[..|a + b| - 1] == a + b';
      assert (a + b)[|a + b| - 1] == b[|b| - 1];
      FlattenedConcat(location, window, a, b', math);
    }
  }

  /** One more star adds its circle, if it has one, at the end. */
  lemma FlattenedStep(location: Coords3D, window: Range3D, stars: seq<Star>, i: nat, math: MathFunctions)
    requires i < |stars| && forall s :: s in stars ==> InFront(location, s)
    ensures InFront(location, stars[i])
    ensures Flattened(location, window, stars[..i + 1], math)
            == Flattened(location, window, stars[..i], math)
               + match CircleOf(location, window, stars[i], math) {
                   case Some(c) => [c]
                   case None => []
                 }
  {
    assert stars[i] in stars;
    assert stars[..i + 1][..i] == stars[..i];
  }

  /** When every star projects inside the window, none is culled: one circle per star. */
  lemma {:induction false} FlattenedKeepsOnScreenStars(location: Coords3D, window: Range3D, stars: seq<Star>, math: MathFunctions)
    requires math.SqrtSound()
    requires forall s :: s in stars ==>
               && InFront(location, s) && 0.0 <= s.luminosity
               && var p := Project(location, s.position);
                  window.lowerBound.x <= p.x <= window.upperBound.x
                  && window.lowerBound.y <= p.y <= window.upperBound.y
    ensures |Flattened(location, window, stars, math)| == |stars|
  {
    if stars != [] {
      var last := stars[|stars| - 1];
      assert last in stars;
      OnScreenStarIsKept(location, window, last, math);
      FlattenedKeepsOnScreenStars(location, window, stars[..|stars| - 1], math);
    }
  }

  class Observer {
    const location: Coords3D
    const depth: real
    var window: Range3D
    const universe: Universe

    /** The observer sits on the z axis behind the window plane, the window is
        centred on the axis, and the universe is the frustum of the window,
        with every star within its depth. */
    ghost predicate Valid()
      reads this, universe
    {
      && location.x == 0.0 && location.y == 0.0 && location.z < 0.0
      && WindowRange(Coords2D(window.upperBound.x, window.upperBound.y)) == Ok(window)
      && UniverseSize(location, depth, window) == Ok(universe.size)
      && universe.Valid() && universe.WithinDepth()
    }

    /** Every star is in front of the observer, so it can be projected. */
    lemma StarsInFront()
      requires Valid()
      ensures forall s :: s in universe.stars ==> InFront(location, s)
    {
    }

    /** `new Observer(distance, depth, density, bound)`: sets the window, then fills
        the frustum of the window with stars. The constructor throws for a
        negative bound or depth; here those are excluded by its precondition. */
    constructor (distance: real, depth: real, stellarDensity: real, windowBound: Coords2D, rng: Random)
      requires 0.0 < distance && 0.0 <= depth && 0.0 <= windowBound.x && 0.0 <= windowBound.y
      requires rng.Valid()
      modifies rng
      ensures Valid()
      ensures location == Coords3D(0.0, 0.0, -distance) && this.depth == depth
      ensures window == WindowRange(windowBound).value
      ensures universe.size == FrustumBox(distance, depth, windowBound)
      ensures universe.stellarDensity == stellarDensity
      ensures RoundedCount(ExpectedStars(universe.stellarDensity, universe.size), |universe.stars|)
      ensures universe.AllInside()
    {
      var loc := Coords3D(0.0, 0.0, -distance);
      location := loc;
      this.depth := depth;
      var win := WindowRange(windowBound).value;
      window := win;
      FrustumShape(distance, depth, windowBound);
      var size := UniverseSize(loc, depth, win).value;
      universe := new Universe(size, stellarDensity, rng);
    }

    /** `setWindow(bound)`: nothing happens when the bound equals the window's upper
        corner; otherwise the window becomes `[-w, -h, 0]..[w, h, 0]` and the
        universe is resized to the new frustum. A negative bound fails before
        anything changes. */
    method SetWindow(windowBound: Coords2D, rng: Random) returns (r: Outcome, ghost segments: seq<seq<Star>>)
      requires Valid() && rng.Valid()
      modifies this, universe, rng
      ensures Valid()
      ensures var same := windowBound.x == old(window.upperBound.x) && windowBound.y == old(window.upperBound.y);
        && (r.Fail? <==> !same && (windowBound.x < 0.0 || windowBound.y < 0.0))
        && (same || r.Fail? ==>
              window == old(window) && universe.size == old(universe.size)
              && universe.stars == old(universe.stars))
        && (!same && r.Pass? ==>
              && window == WindowRange(windowBound).value
              && universe.size == FrustumBox(-location.z, depth, windowBound)
              && ExtendsWith(KeepContained(universe.size, old(universe.stars)), universe.stars,
                             old(universe.size), universe.size)
              && universe.AllInside()
              && |segments| == 6
              && (forall i :: 0 <= i < 6 ==>
                    FaceSegment(universe.stellarDensity, old(universe.size), universe.size, Faces[i], segments[i]))
              && universe.stars == KeepContained(universe.size, old(universe.stars) + segments[0] + segments[1]
                                                 + segments[2] + segments[3] + segments[4] + segments[5])
              && (Encloses(universe.size, old(universe.size)) ==>
                    |universe.stars| == |KeepContained(universe.size, old(universe.stars))|
                                        + |segments[0]| + |segments[1]| + |segments[2]| + |segments[3]|))
    {
      segments := [];
      if windowBound.x == window.upperBound.x && windowBound.y == window.upperBound.y {
        return Pass, segments;
      }
      var win := WindowRange(windowBound);
      if win.Err? {
        return Fail(win.error), segments;
      }
      window := win.value;
      FrustumShape(-location.z, depth, windowBound);
      assert location == Coords3D(0.0, 0.0, -(-location.z));
      var size := UniverseSize(location, depth, window);
      segments := universe.Resize(size.value, rng);
      r := Pass;
    }

    /** `flatten`: the circles of the stars that survive culling, in star order. */
    method Flatten(math: MathFunctions) returns (circles: seq<Circle>)
      requires Valid()
      ensures forall s :: s in universe.stars ==> InFront(location, s)
      ensures circles == Flattened(location, window, universe.stars, math)
    {
      StarsInFront();
      var stars := universe.stars;
      circles := [];
      for i := 0 to |stars|
        invariant circles == Flattened(location, window, stars[..i], math)
      {
        var star := stars[i];
        FlattenedStep(location, window, stars, i, math);
        ghost var kept := CircleOf(location, window, star, math);
        var position := Project(location, star.position);
        var flux := Flux(location, star);
        var apparentRadius := math.sqrt(flux);
        if || position.x < window.lowerBound.x - apparentRadius
           || position.x > window.upperBound.x + apparentRadius
           || position.y < window.lowerBound.y - apparentRadius
           || position.y > window.upperBound.y + apparentRadius
        {
          assert kept.None?;
          continue;
        }
        var color := TempToRgb(star.temperature, math);
        var screenX := position.x - window.lowerBound.x;
        var screenY := position.y - window.lowerBound.y;
        var renderedRadius, opacity;
        if apparentRadius >= 1.0 {
          renderedRadius, opacity := apparentRadius, 1.0;
        } else {
          renderedRadius, opacity := 1.0, flux;
        }
        assert kept == Some(Circle(renderedRadius, Coords2D(screenX, screenY), color, opacity));
        circles := circles + [Circle(renderedRadius, Coords2D(screenX, screenY), color, opacity)];
      }
      assert stars[..|stars|] == stars;
    }
  }
}
