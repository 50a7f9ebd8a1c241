/** Cosine similarity (embeddings/index.ts, cosineSimilarity), over the reals with the square root
    as a parameter, and why it lies between -1 and 1. */
module Cosine {
  import opened Options
  import opened Arithmetic

  function Dot(a: seq<real>, b: seq<real>): real
    requires |a| == |b|
  {
    if a == [] then 0.0 else Dot(a[..|a| - 1], b[..|b| - 1]) + a[|a| - 1] * b[|b| - 1]
  }

  function Norm(a: seq<real>): real { Dot(a, a) }

  /** What the function needs of Math.sqrt at one argument. */
  predicate RootAt(sqrt: real -> real, x: real) { Root(sqrt, x) >= 0.0 && Root(sqrt, x) * Root(sqrt, x) == x }

  function Root(sqrt: real -> real, x: real): real { sqrt(x) }

  function Cosine(sqrt: real -> real, a: seq<real>, b: seq<real>): real
    requires |a| == |b|
  {
    Over(Dot(a, b), RootsOf(sqrt, Norm(a), Norm(b)))
  }

  function RootsOf(sqrt: real -> real, x: real, y: real): real { Root(sqrt, x) * Root(sqrt, y) }

  function Over(dot: real, denom: real): real { if denom == 0.0 then 0.0 else dot / denom }

  /** The accumulator loop; None is the thrown length mismatch. Each prefix of the accumulators
      satisfies the Cauchy-Schwarz inequality. */
  method CosineSimilarity(sqrt: real -> real, a: seq<real>, b: seq<real>) returns (r: Option<real>)
    ensures r == if |a| == |b| then Some(Cosine(sqrt, a, b)) else None
  {
    hide Over, Dot, RootsOf;
    DotEmpty();
    if |a| != |b| {
      return None;
    }
    var dot, magA, magB := 0.0, 0.0, 0.0;
    for i := 0 to |a|
      invariant dot == Dot(a[..i], b[..i]) && magA == Norm(a[..i]) && magB == Norm(b[..i])
      invariant dot * dot <= magA * magB && magA >= 0.0 && magB >= 0.0
    {
      DotSnoc(a, b, i);
      DotSnoc(a, a, i);
      DotSnoc(b, b, i);
      dot := dot + a[i] * b[i];
      magA := magA + a[i] * a[i];
      magB := magB + b[i] * b[i];
      CauchySchwarz(a[..i + 1], b[..i + 1]);
    }
    assert a[..|a|] == a && b[..|b|] == b;
    assert dot == Dot(a, b) && magA == Norm(a) && magB == Norm(b);
    r := Some(Over(dot, RootsOf(sqrt, magA, magB)));
  }

  lemma DotEmpty()
    ensures Dot([], []) == 0.0
  {
  }

  lemma DotSnoc(a: seq<real>, b: seq<real>, i: nat)
    requires |a| == |b| && i < |a|
    ensures Dot(a[..i + 1], b[..i + 1]) == Dot(a[..i], b[..i]) + a[i] * b[i]
  {
    assert a[..i + 1][..i] == a[..i] && b[..i + 1][..i] == b[..i];
  }

  // ---------------------------------------------------------------- Cauchy-Schwarz

  lemma Square(x: real)
    ensures x * x >= 0.0
  {
  }

  lemma Expand(s: real, t: real, x: real, y: real)
    ensures (s * x + t * y) * (s * x + t * y) == s * s * (x * x) + 2.0 * (s * t) * (x * y) + t * t * (y * y)
  {
  }

  lemma Distribute(k: real, x: real, y: real)
    ensures k * (x + y) == k * x + k * y
  {
  }

  /** The squared length of s a + t b, so never negative. */
  lemma {:induction false} QuadraticNonNegative(a: seq<real>, b: seq<real>, s: real, t: real)
    requires |a| == |b|
    ensures s * s * Norm(a) + 2.0 * (s * t) * Dot(a, b) + t * t * Norm(b) >= 0.0
  {
    if a != [] {
      var n := |a| - 1;
      var x, y := a[n], b[n];
      QuadraticNonNegative(a[..n], b[..n], s, t);
      Square(s * x + t * y);
      Expand(s, t, x, y);
      Distribute(s * s, Norm(a[..n]), x * x);
      Distribute(2.0 * (s * t), Dot(a[..n], b[..n]), x * y);
      Distribute(t * t, Norm(b[..n]), y * y);
    }
  }

  lemma ExpandProduct(A: real, B: real, D: real, x: real, y: real)
    ensures (A + x * x) * (B + y * y) - (D + x * y) * (D + x * y)
            == A * B - D * D + (y * y * A + 2.0 * (y * -x) * D + -x * -x * B)
  {
    assert (A + x * x) * (B + y * y) == A * B + A * (y * y) + x * x * B + x * x * (y * y);
    assert (D + x * y) * (D + x * y) == D * D + 2.0 * (D * (x * y)) + x * y * (x * y);
    assert x * x * (y * y) == x * y * (x * y);
    assert 2.0 * (y * -x) * D == -2.0 * (D * (x * y));
    assert -x * -x * B == x * x * B;
  }

  lemma {:induction false} CauchySchwarz(a: seq<real>, b: seq<real>)
    requires |a| == |b|
    ensures Dot(a, b) * Dot(a, b) <= Norm(a) * Norm(b)
    ensures Norm(a) >= 0.0 && Norm(b) >= 0.0
  {
    if a != [] {
      var n := |a| - 1;
      CauchySchwarz(a[..n], b[..n]);
      QuadraticNonNegative(a[..n], b[..n], b[n], -a[n]);
      ExpandProduct(Norm(a[..n]), Norm(b[..n]), Dot(a[..n], b[..n]), a[n], b[n]);
      Square(a[n]);
      Square(b[n]);
    }
  }

  // ---------------------------------------------------------------- the result

  lemma {:induction false} DotSymmetric(a: seq<real>, b: seq<real>)
    requires |a| == |b|
    ensures Dot(a, b) == Dot(b, a)
  {
    if a != [] { DotSymmetric(a[..|a| - 1], b[..|b| - 1]); }
  }

  /** The order of the arguments does not matter. */
  lemma CosineSymmetric(sqrt: real -> real, a: seq<real>, b: seq<real>)
    requires |a| == |b|
    ensures Cosine(sqrt, a, b) == Cosine(sqrt, b, a)
  {
    DotSymmetric(a, b);
    assert RootsOf(sqrt, Norm(a), Norm(b)) == RootsOf(sqrt, Norm(b), Norm(a));
  }

  lemma SquaresOrder(x: real, y: real)
    requires y >= 0.0 && x * x <= y * y
    ensures -y <= x <= y
  {
    if x > 0.0 { Below(x, y); }
    if x < 0.0 { Below(-x, y); }
  }

  lemma Below(x: real, y: real)
    requires x > 0.0 && y >= 0.0 && x * x <= y * y
    ensures x <= y
  {
    if y < x {
      Product(x - y, x + y);
      DifferenceOfSquares(x, y);
    }
  }

  lemma DifferenceOfSquares(x: real, y: real)
    ensures (x - y) * (x + y) == x * x - y * y
  {
  }

  lemma Product(k: real, d: real)
    requires k > 0.0 && d > 0.0
    ensures k * d > 0.0
  {
  }

  lemma ProductOfRoots(r: real, s: real)
    ensures r * s * (r * s) == r * r * (s * s)
  {
  }

  lemma OverInUnit(x: real, y: real)
    requires y >= 0.0 && -y <= x <= y
    ensures -1.0 <= Over(x, y) <= 1.0
  {
    if y > 0.0 {
      var q := x / y;
      assert q * y == x;
      CancelFactor(q, 1.0, y);
      CancelFactor(-1.0, q, y);
    }
  }

  /** Between -1 and 1, for all vectors. */
  lemma CosineInUnit(sqrt: real -> real, a: seq<real>, b: seq<real>)
    requires |a| == |b| && RootAt(sqrt, Norm(a)) && RootAt(sqrt, Norm(b))
    ensures -1.0 <= Cosine(sqrt, a, b) <= 1.0
  {
    hide Over, Dot;
    CauchySchwarz(a, b);
    var r, s := Root(sqrt, Norm(a)), Root(sqrt, Norm(b));
    QuotientOfRoots(Dot(a, b), Norm(a), Norm(b), r, s);
    assert RootsOf(sqrt, Norm(a), Norm(b)) == r * s;
    assert Cosine(sqrt, a, b) == Over(Dot(a, b), r * s);
  }

  lemma QuotientOfRoots(d: real, x: real, y: real, r: real, s: real)
    requires d * d <= x * y && r >= 0.0 && s >= 0.0 && r * r == x && s * s == y
    ensures -1.0 <= Over(d, r * s) <= 1.0
  {
    hide Over;
    ProductOfRoots(r, s);
    NonNegative(r, s);
    SquaresOrder(d, r * s);
    OverInUnit(d, r * s);
  }

  lemma NonNegative(r: real, s: real)
    requires r >= 0.0 && s >= 0.0
    ensures r * s >= 0.0
  {
  }

  /** A non-zero vector is perfectly similar to itself. */
  lemma CosineOfSelf(sqrt: real -> real, a: seq<real>)
    requires RootAt(sqrt, Norm(a)) && Norm(a) != 0.0
    ensures Cosine(sqrt, a, a) == 1.0
  {
    var n := Norm(a);
    assert n / n == 1.0;
  }

  lemma ProductIs(x: real, y: real, p: real)
    requires x > 0.0 && y > 0.0 && p == x * y
    ensures p > 0.0
  {
  }

  lemma SquareIfNonZero(x: real, square: real)
    requires x != 0.0 && square == x * x
    ensures square > 0.0
  {
    var y := if x > 0.0 then x else -x;
    ProductIs(y, y, square);
  }

  /** Only the zero vector has norm zero. */
  lemma {:induction false} NormZeroIff(a: seq<real>)
    ensures Norm(a) >= 0.0 && (Norm(a) == 0.0 <==> forall i :: 0 <= i < |a| ==> a[i] == 0.0)
  {
    if a != [] {
      var n := |a| - 1;
      var x := a[n];
      NormZeroIff(a[..n]);
      var square := x * x;
      assert Norm(a) == Norm(a[..n]) + square;
      if x != 0.0 {
        SquareIfNonZero(x, square);
      } else {
        assert Norm(a) == Norm(a[..n]);
        assert forall i :: 0 <= i < n ==> a[..n][i] == a[i];
        if Norm(a) == 0.0 {
          forall i | 0 <= i < n ensures a[i] == 0.0 {
            assert a[..n][i] == 0.0;
          }
        }
      }
    }
  }

  /** The dot product adds up the products place by place. */
  lemma {:induction false} DotOfJoin(a: seq<real>, b: seq<real>, c: seq<real>, d: seq<real>)
    requires |a| == |c| && |b| == |d|
    ensures Dot(a + b, c + d) == Dot(a, c) + Dot(b, d)
    ensures |b| == 1 ==> Dot(b, d) == b[0] * d[0]
  {
    if b == [] {
      assert a + b == a && c + d == c;
    } else {
      var n := |b| - 1;
      assert (a + b)[..|a| + n] == a + b[..n] && (c + d)[..|c| + n] == c + d[..n];
      DotOfJoin(a, b[..n], c, d[..n]);
    }
  }

  /** The cosine times the two lengths is the dot product; it is 0 where a length is. */
  lemma CosineTimesLengths(sqrt: real -> real, a: seq<real>, b: seq<real>)
    requires |a| == |b| && RootAt(sqrt, Norm(a)) && RootAt(sqrt, Norm(b))
    ensures Norm(a) == 0.0 || Norm(b) == 0.0 ==> Cosine(sqrt, a, b) == 0.0
    ensures Norm(a) != 0.0 && Norm(b) != 0.0 ==>
              Cosine(sqrt, a, b) * (Root(sqrt, Norm(a)) * Root(sqrt, Norm(b))) == Dot(a, b)
  {
    var r, s := Root(sqrt, Norm(a)), Root(sqrt, Norm(b));
    hide Over, Dot;
    OverRoots(Dot(a, b), Norm(a), Norm(b), r, s);
    assert RootsOf(sqrt, Norm(a), Norm(b)) == r * s;
    assert Cosine(sqrt, a, b) == Over(Dot(a, b), r * s);
  }

  lemma OverRoots(d: real, x: real, y: real, r: real, s: real)
    requires r >= 0.0 && s >= 0.0 && r * r == x && s * s == y
    ensures x == 0.0 || y == 0.0 ==> Over(d, r * s) == 0.0
    ensures x != 0.0 && y != 0.0 ==> Over(d, r * s) * (r * s) == d
  {
    ZeroRoot(r, x);
    ZeroRoot(s, y);
    if x != 0.0 && y != 0.0 {
      ProductIs(r, s, r * s);
      OverTimes(d, r * s);
    } else {
      assert r * s == 0.0;
    }
  }

  lemma ZeroRoot(r: real, x: real)
    requires r * r == x
    ensures r == 0.0 <==> x == 0.0
  {
    if r != 0.0 { SquareIfNonZero(r, x); }
  }

  lemma OverTimes(d: real, p: real)
    requires p > 0.0
    ensures Over(d, p) * p == d
  {
  }
}
