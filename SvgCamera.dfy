/** The SVG variant of the observer: the same projection and culling as the canvas
    observer, but each kept star becomes a circle whose radius is the apparent
    radius itself, with no opacity, and `setWindow` never resizes the universe. */
module SvgCamera {
  import opened Geometry
  import opened Host
  import opened Colour
  import opened StarField
  import opened Camera

  /** The attributes `render` sets on one `<circle>` element. */
  datatype SvgCircle = SvgCircle(cx: real, cy: real, r: real, fill: RgbColor)

  /** One iteration of `render`: culled exactly as `flatten` culls; a kept star is
      drawn at its projection measured from the window's lower corner, with radius
      sqrt(flux), which may be below 1. */
  function SvgCircleOf(location: Coords3D, window: Range3D, s: Star, math: MathFunctions): (c: Option<SvgCircle>)
    requires InFront(location, s)
    ensures c.Some? <==> Visible(location, window, s, math)
    ensures c.Some? ==> var p := Project(location, s.position);
      && c.value.cx == p.x - window.lowerBound.x && c.value.cy == p.y - window.lowerBound.y
      && c.value.fill == TempToRgb(s.temperature, math)
      && c.value.r == math.sqrt(Flux(location, s))
    ensures c.Some? && math.SqrtSound() && 0.0 <= s.luminosity ==>
      0.0 <= c.value.r && c.value.r * c.value.r == Flux(location, s)
  {
    var flux := Flux(location, s);
    var color := TempToRgb(s.temperature, math);
    var position := Project(location, s.position);
    var apparentRadius := math.sqrt(flux);
    SqrtAt(math, flux);
    if || position.x < window.lowerBound.x - apparentRadius
       || position.x > window.upperBound.x + apparentRadius
       || position.y < window.lowerBound.y - apparentRadius
       || position.y > window.upperBound.y + apparentRadius
    then None
    else Some(SvgCircle(position.x - window.lowerBound.x, position.y - window.lowerBound.y,
                        apparentRadius, color))
  }

  /** `render` over a list of stars: at most one circle per star, in star order. */
  function Rendered(location: Coords3D, window: Range3D, stars: seq<Star>, math: MathFunctions): (circles: seq<SvgCircle>)
    requires forall s :: s in stars ==> InFront(location, s)
    ensures |circles| <= |stars|
  {
    if stars == [] then []
    else
      var last := stars[|stars| - 1];
      Rendered(location, window, stars[..|stars| - 1], math)
      + match SvgCircleOf(location, window, last, math) {
          case Some(c) => [c]
          case None => []
        }
  }

  /** One more star adds its circle, if it has one, at the end. */
  lemma RenderedStep(location: Coords3D, window: Range3D, stars: seq<Star>, i: nat, math: MathFunctions)
    requires i < |stars| && forall s :: s in stars ==> InFront(location, s)
    ensures InFront(location, stars[i])
    ensures Rendered(location, window, stars[..i + 1], math)
            == Rendered(location, window, stars[..i], math)
               + match SvgCircleOf(location, window, stars[i], math) {
                   case Some(c) => [c]
                   case None => []
                 }
  {
    assert stars[i] in stars;
    assert stars[..i + 1][..i] == stars[..i];
  }

  /** The SVG and the canvas observers keep the same stars, in the same order, at the
      same screen positions and colours; the canvas one only raises radii below 1
      to 1. */
  lemma {:induction false} RenderedMatchesFlattened(location: Coords3D, window: Range3D, stars: seq<Star>, math: MathFunctions)
    requires forall s :: s in stars ==> InFront(location, s)
    ensures var svg, canvas := Rendered(location, window, stars, math), Flattened(location, window, stars, math);
      && |svg| == |canvas|
      && forall i :: 0 <= i < |svg| ==>
           && canvas[i].position == Coords2D(svg[i].cx, svg[i].cy)
           && canvas[i].color == svg[i].fill
           && canvas[i].radius == (if svg[i].r >= 1.0 then svg[i].r else 1.0)
  {
    if stars != [] {
      var last := stars[|stars| - 1];
      assert last in stars;
      RenderedMatchesFlattened(location, window, stars[..|stars| - 1], math);
    }
  }

  /** Rendering a concatenation renders each part, keeping their order. */
  lemma {:induction false} RenderedConcat(location: Coords3D, window: Range3D, a: seq<Star>, b: seq<Star>, math: MathFunctions)
    requires forall s :: s in a + b ==> InFront(location, s)
    ensures Rendered(location, window, a + b, math)
            == Rendered(location, window, a, math) + Rendered(location, window, b, math)
  {
    if b == [] {
      assert a + b == a;
    } else {
      var b' := b[..|b| - 1];
      assert (a + b)[..|a + b| - 1] == a + b';
      assert (a + b)[|a + b| - 1] == b[|b| - 1];
      RenderedConcat(location, window, a, b', math);
    }
  }

  class SvgObserver {
    const location: Coords3D
    const depth: real
    var window: Range3D
    const universe: Universe

    /** The observer sits on the z axis behind the window plane and the window is
        centred on the axis. Nothing ties the universe to the window: `setWindow`
        does not resize it. */
    ghost predicate Valid()
      reads this, universe
    {
      && location.x == 0.0 && location.y == 0.0 && location.z < 0.0
      && WindowRange(Coords2D(window.upperBound.x, window.upperBound.y)) == Ok(window)
      && universe.Valid()
    }

    /** `new Observer(distance, depth, density, bound)` of the SVG variant: the
        universe starts as the frustum of the first window. */
    constructor (distance: real, depth: real, stellarDensity: real, windowBound: Coords2D, rng: Random)
      requires 0.0 < distance && 0.0 <= depth && 0.0 <= windowBound.x && 0.0 <= windowBound.y
      requires rng.Valid()
      modifies rng
      ensures Valid()
      ensures location == Coords3D(0.0, 0.0, -distance) && this.depth == depth
      ensures window == WindowRange(windowBound).value
      ensures universe.size == FrustumBox(distance, depth, windowBound)
      ensures universe.stellarDensity == stellarDensity && universe.AllInside()
      ensures RoundedCount(ExpectedStars(universe.stellarDensity, universe.size), |universe.stars|)
    {
      var loc := Coords3D(0.0, 0.0, -distance);
      location := loc;
      this.depth := depth;
      var win := WindowRange(windowBound).value;
      window := win;
      FrustumShape(distance, depth, windowBound);
      var size := UniverseSize(loc, depth, win).value;
      universe := new Universe(size, stellarDensity, rng);
    }

    /** `setWindow(bound)`: always overwrites the window, with no equality guard, and
        leaves the universe alone. A negative bound fails and changes nothing. */
    method SetWindow(windowBound: Coords2D) returns (r: Outcome)
      requires Valid()
      modifies this
      ensures Valid()
      ensures r.Pass? <==> 0.0 <= windowBound.x && 0.0 <= windowBound.y
      ensures r.Pass? ==> window == Range3D(Coords3D(-windowBound.x, -windowBound.y, 0.0),
                                            Coords3D(windowBound.x, windowBound.y, 0.0))
      ensures r.Fail? ==> window == old(window)
      ensures universe.size == old(universe.size) && universe.stars == old(universe.stars)
    {
      var win := WindowRange(windowBound);
      if win.Err? {
        return Fail(win.error);
      }
      window := win.value;
      r := Pass;
    }

    /** `render`: the circles of the stars that survive culling, in star order. The
        division by each star's depth needs every star in front of the observer,
        which `translate` alone does not guarantee; the caller states it. */
    method Render(math: MathFunctions) returns (rendered: seq<SvgCircle>)
      requires forall s :: s in universe.stars ==> InFront(location, s)
      ensures rendered == Rendered(location, window, universe.stars, math)
    {
      var stars := universe.stars;
      rendered := [];
      for i := 0 to |stars|
        invariant rendered == Rendered(location, window, stars[..i], math)
      {
        var star := stars[i];
        RenderedStep(location, window, stars, i, math);
        ghost var kept := SvgCircleOf(location, window, star, math);
        var flux := Flux(location, star);
        var color := TempToRgb(star.temperature, math);
        var position := Project(location, star.position);
        var apparentRadius := math.sqrt(flux);
        if || position.x < window.lowerBound.x - apparentRadius
           || position.x > window.upperBound.x + apparentRadius
           || position.y < window.lowerBound.y - apparentRadius
           || position.y > window.upperBound.y + apparentRadius
        {
          assert kept.None?;
          continue;
        }
        var screenX := position.x - window.lowerBound.x;
        var screenY := position.y - window.lowerBound.y;
        assert kept == Some(SvgCircle(screenX, screenY, apparentRadius, color));
        rendered := rendered + [SvgCircle(screenX, screenY, apparentRadius, color)];
      }
      assert stars[..|stars|] == stars;
    }
  }
}
