/** The older flat generator: stars scattered uniformly over a rectangle, each with
    a flux and a colour, and no depth. */
module FlatStarfield {
  import opened Numbers
  import opened Host
  import opened Colour
  import opened Geometry

  const MAX_FLUX: real := 4.0

  datatype FlatStar = FlatStar(flux: real, position: Coords2D, color: RgbColor)

  /** A draw of Math.random() scaled to [0, m) for a positive m. */
  lemma ScaledDraw(u: real, m: real)
    ensures IsDraw(u) && 0.0 < m ==> 0.0 <= u * m < m
  {
    if IsDraw(u) && 0.0 < m {
      MulNonNegative(u, m);
      MulPositive(1.0 - u, m);
      assert m - u * m == (1.0 - u) * m;
    }
  }

  /** One star of `generateStars`, given its four draws of Math.random() in the order
      the object literal makes them: flux, x, y, then temperature. */
  function FlatStarFromDraws(xMax: real, yMax: real, math: MathFunctions,
                             u0: real, u1: real, u2: real, u3: real): (s: FlatStar)
    ensures IsDraw(u0) ==> 0.0 <= s.flux < MAX_FLUX
    ensures InPixelRange(s.color.r) && InPixelRange(s.color.g) && InPixelRange(s.color.b)
    ensures IsDraw(u3) ==> s.color == TempToRgb(u3 * 29000.0 + 1000.0, math)
                           && 1000.0 <= u3 * 29000.0 + 1000.0 < 30000.0
  {
    ScaledDraw(u0, MAX_FLUX);
    ScaledDraw(u3, 29000.0);
    FlatStar(u0 * MAX_FLUX, Coords2D(u1 * xMax, u2 * yMax), TempToRgb(u3 * 29000.0 + 1000.0, math))
  }

  /** The star made from the four consecutive draws starting at `start + 4 * j`. */
  function NthStar(xMax: real, yMax: real, math: MathFunctions, stream: nat -> real, start: nat, j: nat): FlatStar {
    var k := start + 4 * j;
    FlatStarFromDraws(xMax, yMax, math, stream(k), stream(k + 1), stream(k + 2), stream(k + 3))
  }

  /** Draws taken at the cursor `start + 4 * j` make star j. */
  lemma DrawsMakeNthStar(xMax: real, yMax: real, math: MathFunctions, stream: nat -> real, start: nat, j: nat,
                         k: nat, u0: real, u1: real, u2: real, u3: real)
    requires k == start + 4 * j
    requires u0 == stream(k) && u1 == stream(k + 1) && u2 == stream(k + 2) && u3 == stream(k + 3)
    ensures FlatStarFromDraws(xMax, yMax, math, u0, u1, u2, u3) == NthStar(xMax, yMax, math, stream, start, j)
  {
  }

  /** Every star made from draws of Math.random() has its flux and position in range. */
  lemma NthStarBounds(xMax: real, yMax: real, math: MathFunctions, stream: nat -> real, start: nat, j: nat)
    requires forall i: nat :: IsDraw(stream(i))
    ensures var s := NthStar(xMax, yMax, math, stream, start, j);
      && 0.0 <= s.flux < MAX_FLUX
      && (0.0 < xMax ==> 0.0 <= s.position.x < xMax)
      && (0.0 < yMax ==> 0.0 <= s.position.y < yMax)
  {
    var k := start + 4 * j;
    assert IsDraw(stream(k)) && IsDraw(stream(k + 1)) && IsDraw(stream(k + 2));
    ScaledDraw(stream(k + 1), xMax);
    ScaledDraw(stream(k + 2), yMax);
  }

  /** The first `n` stars the stream makes from `start` on, four draws each. */
  function Generated(xMax: real, yMax: real, math: MathFunctions, stream: nat -> real, start: nat, n: nat): (stars: seq<FlatStar>)
    ensures |stars| == n
  {
    if n == 0 then []
    else Generated(xMax, yMax, math, stream, start, n - 1) + [NthStar(xMax, yMax, math, stream, start, n - 1)]
  }

  /** Star j of the generated list is made from draws 4j to 4j + 3 after `start`. */
  lemma {:induction false} GeneratedAt(xMax: real, yMax: real, math: MathFunctions, stream: nat -> real, start: nat, n: nat, j: nat)
    requires j < n
    ensures Generated(xMax, yMax, math, stream, start, n)[j] == NthStar(xMax, yMax, math, stream, start, j)
  {
    if j < n - 1 {
      GeneratedAt(xMax, yMax, math, stream, start, n - 1, j);
    }
  }

  /** Every generated star has flux in [0, MAX_FLUX) and lies in [0, xMax) x [0, yMax). */
  lemma GeneratedInBounds(xMax: real, yMax: real, math: MathFunctions, stream: nat -> real, start: nat, n: nat)
    requires forall i: nat :: IsDraw(stream(i))
    ensures forall s :: s in Generated(xMax, yMax, math, stream, start, n) ==>
      && 0.0 <= s.flux < MAX_FLUX
      && (0.0 < xMax ==> 0.0 <= s.position.x < xMax)
      && (0.0 < yMax ==> 0.0 <= s.position.y < yMax)
  {
    var stars := Generated(xMax, yMax, math, stream, start, n);
    forall s | s in stars
      ensures && 0.0 <= s.flux < MAX_FLUX
              && (0.0 < xMax ==> 0.0 <= s.position.x < xMax)
              && (0.0 < yMax ==> 0.0 <= s.position.y < yMax)
    {
      var j :| 0 <= j < n && stars[j] == s;
      GeneratedAt(xMax, yMax, math, stream, start, n, j);
      NthStarBounds(xMax, yMax, math, stream, start, j);
    }
  }

  /** The object literal in the loop body of `generateStars`: four calls of
      Math.random(), for flux, x, y and temperature. Drawn at the cursor
      `start + 4 * j`, it is star j of the stream. */
  method MakeFlatStar(xMax: real, yMax: real, rng: Random, math: MathFunctions, ghost start: nat, ghost j: nat)
    returns (star: FlatStar)
    requires rng.Valid() && rng.next == start + 4 * j
    modifies rng
    ensures rng.next == old(rng.next) + 4
    ensures star == NthStar(xMax, yMax, math, rng.stream, start, j)
  {
    ghost var k := rng.next;
    var u0 := rng.Next();
    var u1 := rng.Next();
    var u2 := rng.Next();
    var u3 := rng.Next();
    star := FlatStarFromDraws(xMax, yMax, math, u0, u1, u2, u3);
    DrawsMakeNthStar(xMax, yMax, math, rng.stream, start, j, k, u0, u1, u2, u3);
  }

  /** `generateStars(numStars, xMax, yMax)`: the loop runs while `i < numStars`, so it
      makes IterationCount(numStars) stars (the ceiling of a positive count), each
      from the next four draws. */
  method GenerateStars(numStars: real, xMax: real, yMax: real, rng: Random, math: MathFunctions)
    returns (stars: seq<FlatStar>)
    requires rng.Valid()
    modifies rng
    ensures |stars| == IterationCount(numStars)
    ensures rng.next == old(rng.next) + 4 * |stars|
    ensures stars == Generated(xMax, yMax, math, rng.stream, old(rng.next), |stars|)
  {
    ghost var count := IterationCount(numStars);
    ghost var start := rng.next;
    stars := [];
    var i := 0;
    while (i as real) < numStars
      invariant 0 <= i <= count && |stars| == i
      invariant rng.Valid()
      invariant rng.next == old(rng.next) + 4 * i
      invariant stars == Generated(xMax, yMax, math, rng.stream, start, i)
      decreases count - i
    {
      IterationCountIsLeast(numStars, i);
      var star := MakeFlatStar(xMax, yMax, rng, math, start, i);
      stars := stars + [star];
      i := i + 1;
    }
    IterationCountIsLeast(numStars, i);
  }
}
