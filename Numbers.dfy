/** Arithmetic of the host language that the model needs spelled out: Math.ceil,
    the `% 1` remainder, how often a `for` loop with a real bound runs, and
    sign facts about products. */
module Numbers {

  lemma MulZero(a: real, b: real)
    requires b == 0.0
    ensures a * b == 0.0
  {
  }

  lemma MulNonNegative(a: real, b: real)
    requires 0.0 <= a && 0.0 <= b
    ensures 0.0 <= a * b
  {
  }

  lemma MulPositive(a: real, b: real)
    requires 0.0 < a && 0.0 < b
    ensures 0.0 < a * b
  {
  }

  /** Math.ceil. */
  function Ceil(x: real): int {
    -((-x).Floor)
  }

  lemma FloorBounds(x: real)
    ensures x.Floor as real <= x < x.Floor as real + 1.0
  {
  }

  /** The ceiling is the least integer not below x; it equals x exactly when the
      floor does. */
  lemma CeilBounds(x: real)
    ensures Ceil(x) as real - 1.0 < x <= Ceil(x) as real
    ensures x == x.Floor as real <==> x == Ceil(x) as real
  {
    FloorBounds(-x);
    FloorBounds(x);
    if x == Ceil(x) as real {
      var c := Ceil(x);
      assert (c as real).Floor == c;
    }
    if x == x.Floor as real {
      var f := x.Floor;
      assert -x == (-f) as real;
      assert (-x).Floor == -f;
    }
  }

  /** `x % 1` in JavaScript: the fractional part, which keeps the sign of x. It is
      zero exactly when x is a whole number. */
  function FracPart(x: real): (f: real)
    ensures f == 0.0 <==> x == x.Floor as real
    ensures 0.0 <= x ==> 0.0 <= f < 1.0
    ensures x < 0.0 ==> -1.0 < f <= 0.0
  {
    FloorBounds(x);
    CeilBounds(x);
    if 0.0 <= x then x - x.Floor as real else x - Ceil(x) as real
  }

  /** How many times `for (let i = 0; i < bound; i++)` runs: the least natural
      number that is not below `bound`. */
  function IterationCount(bound: real): (k: nat)
    ensures bound <= k as real
    ensures k == 0 || (k - 1) as real < bound
  {
    if bound <= 0.0 then 0 else Ceil(bound)
  }

  /** The loop `for (i = 0; i < bound; i++)` is still running at `i` exactly when
      `i` is below its iteration count. */
  lemma IterationCountIsLeast(bound: real, i: nat)
    ensures i as real < bound <==> i < IterationCount(bound)
  {
    var k := IterationCount(bound);
    if i < k {
      assert (k - 1) as real < bound;
      assert i as real <= (k - 1) as real;
    }
  }
}
