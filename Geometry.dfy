/** Points and the axis-aligned box `Range3D` the star field lives in. */
module Geometry {
  import opened Numbers

  datatype Coords2D = Coords2D(x: real, y: real)

  datatype Coords3D = Coords3D(x: real, y: real, z: real) {
    function Plus(d: Coords3D): Coords3D {
      Coords3D(x + d.x, y + d.y, z + d.z)
    }
    function Negated(): Coords3D {
      Coords3D(-x, -y, -z)
    }
  }

  /** The one error the core raises: a box whose lower corner exceeds its upper
      corner on some axis ("Invalid range"). */
  datatype RangeError = InvalidRange

  datatype Result<T> = Ok(value: T) | Err(error: RangeError)

  /** The outcome of an operation that returns nothing but may throw. */
  datatype Outcome = Pass | Fail(error: RangeError)

  /** `randRange(min, max)`, given the draw `u` of Math.random() it makes. */
  function RandRange(min: real, max: real, u: real): (r: real)
    ensures 0.0 <= u < 1.0 && min <= max ==> min <= r <= max
    ensures 0.0 <= u < 1.0 && min < max ==> r < max
  {
    var r := u * (max - min) + min;
    RandRangeBounds(min, max, u, r);
    r
  }

  lemma RandRangeBounds(min: real, max: real, u: real, r: real)
    requires r == u * (max - min) + min
    ensures 0.0 <= u < 1.0 && min <= max ==> min <= r <= max
    ensures 0.0 <= u < 1.0 && min < max ==> r < max
  {
    if 0.0 <= u < 1.0 && min <= max {
      var d := max - min;
      assert (1.0 - u) * d == d - u * d;
      MulNonNegative(u, d);
      MulNonNegative(1.0 - u, d);
      assert r == u * d + min;
      if min < max {
        MulPositive(1.0 - u, d);
        assert u * d < d;
      }
    }
  }

  /** An axis-aligned box with closed bounds. */
  datatype Range3D = Range3D(lowerBound: Coords3D, upperBound: Coords3D) {

    /** The condition the constructor checks before it accepts the corners. */
    predicate Valid() {
      && lowerBound.x <= upperBound.x
      && lowerBound.y <= upperBound.y
      && lowerBound.z <= upperBound.z
    }

    /** Product of the three extents: never negative for a valid box, and zero as
        soon as one axis is flat. */
    function Volume(): (v: real)
      ensures Valid() ==> 0.0 <= v
      ensures (|| lowerBound.x == upperBound.x
               || lowerBound.y == upperBound.y
               || lowerBound.z == upperBound.z) ==> v == 0.0
    {
      var dx, dy, dz := upperBound.x - lowerBound.x, upperBound.y - lowerBound.y,
                        upperBound.z - lowerBound.z;
      if Valid() then
        MulNonNegative(dx, dy);
        MulNonNegative(dx * dy, dz);
        dx * dy * dz
      else
        dx * dy * dz
    }

    /** Closed-interval containment on every axis. Only a valid box contains anything. */
    predicate Contains(p: Coords3D)
      ensures Contains(p) ==> Valid()
    {
      && lowerBound.x <= p.x <= upperBound.x
      && lowerBound.y <= p.y <= upperBound.y
      && lowerBound.z <= p.z <= upperBound.z
    }

    /** `randPoint()`, given its three draws of Math.random(), one per axis. */
    function RandPoint(u0: real, u1: real, u2: real): (p: Coords3D)
      ensures Valid() && 0.0 <= u0 < 1.0 && 0.0 <= u1 < 1.0 && 0.0 <= u2 < 1.0
              ==> Contains(p)
    {
      Coords3D(RandRange(lowerBound.x, upperBound.x, u0),
               RandRange(lowerBound.y, upperBound.y, u1),
               RandRange(lowerBound.z, upperBound.z, u2))
    }
  }

  /** `new Range3D(lower, upper)`: fails exactly when some axis has lower > upper;
      equal bounds are accepted. */
  function MakeRange(lower: Coords3D, upper: Coords3D): (r: Result<Range3D>)
    ensures r.Ok? <==> lower.x <= upper.x && lower.y <= upper.y && lower.z <= upper.z
    ensures r.Ok? ==> r.value.Valid() && r.value.lowerBound == lower && r.value.upperBound == upper
  {
    if lower.x > upper.x || lower.y > upper.y || lower.z > upper.z then Err(InvalidRange)
    else Ok(Range3D(lower, upper))
  }

  /** A box whose corners coincide is accepted and has volume zero. */
  lemma DegenerateRange(p: Coords3D)
    ensures MakeRange(p, p).Ok? && MakeRange(p, p).value.Volume() == 0.0
  {
  }
}
