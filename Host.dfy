/** What the star field takes from its JavaScript host and does not define itself:
    the pseudo-random generator behind Math.random() and the floating-point library
    functions `**`, Math.log and Math.sqrt. */
module Host {

  /** The host's floating-point functions, left uninterpreted. Only the square root
      is constrained, and only where a property needs it (SqrtSound). */
  datatype MathFunctions = MathFunctions(
    pow: (real, real) -> real,  // the `**` operator
    log: real -> real,          // Math.log
    sqrt: real -> real)         // Math.sqrt
  {
    /** Math.sqrt returns the non-negative square root of a non-negative argument. */
    ghost predicate SqrtSound() {
      forall x :: 0.0 <= x ==> 0.0 <= sqrt(x) && sqrt(x) * sqrt(x) == x
    }
  }

  /** A value Math.random() can return. */
  predicate IsDraw(u: real) {
    0.0 <= u < 1.0
  }

  /** Math.random(): the values it will return are fixed in advance by `stream`;
      `next` counts how many have been drawn. */
  class Random {
    const stream: nat -> real
    var next: nat

    /** Every value Math.random() returns lies in [0, 1). */
    ghost predicate Valid() {
      forall i: nat :: IsDraw(stream(i))
    }

    constructor (stream: nat -> real)
      requires forall i: nat :: IsDraw(stream(i))
      ensures Valid() && this.stream == stream && next == 0
    {
      this.stream := stream;
      next := 0;
    }

    /** One call of Math.random(). */
    method Next() returns (u: real)
      requires Valid()
      modifies this
      ensures u == stream(old(next)) && next == old(next) + 1
      ensures IsDraw(u)
    {
      u := stream(next);
      next := next + 1;
    }
  }
}
