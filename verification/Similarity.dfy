/** Token-set similarity (context/optimizer.ts, semanticSimilarity). */
module Similarity {
  import opened Ranking
  import opened Arithmetic

  /** The better of Jaccard and overlap coefficient, to four places; zero below three shared tokens. */
  function Score(left: set<string>, right: set<string>): real {
    var shared := |left * right|;
    if left == {} || right == {} || shared < 3 then 0.0
    else
      SharedBounds(left, right);
      var union := |left| + |right| - shared;
      var jaccard := if union == 0 then 0.0 else shared as real / union as real;
      var overlap := shared as real / Min(|left|, |right|) as real;
      Round4(MaxReal(jaccard, overlap))
  }

  lemma Subset(a: set<string>, b: set<string>)
    requires a <= b
    ensures |a| <= |b|
  {
    assert b == a + (b - a);
  }

  lemma SharedBounds(left: set<string>, right: set<string>)
    ensures |left * right| <= |left| && |left * right| <= |right|
  {
    Subset(left * right, left);
    Subset(left * right, right);
  }

  /** The counting loop, over the left set in whatever order it iterates. */
  method CountShared(left: set<string>, right: set<string>) returns (count: nat)
    ensures count == |left * right|
  {
    count := 0;
    var rest := left;
    ghost var seen: set<string> := {};
    while rest != {}
      invariant seen + rest == left && seen !! rest
      invariant count == |seen * right|
      decreases |rest|
    {
      var token :| token in rest;
      rest := rest - {token};
      if token in right {
        assert (seen + {token}) * right == seen * right + {token};
        count := count + 1;
      } else {
        assert (seen + {token}) * right == seen * right;
      }
      seen := seen + {token};
    }
    assert seen == left;
  }

  method SemanticSimilarity(left: set<string>, right: set<string>) returns (score: real)
    ensures score == Score(left, right)
  {
    if left == {} || right == {} {
      return 0.0;
    }
    var shared := CountShared(left, right);
    if shared < 3 {
      return 0.0;
    }
    SharedBounds(left, right);
    var union := |left| + |right| - shared;
    var jaccard := if union == 0 then 0.0 else shared as real / union as real;
    var overlap := shared as real / Min(|left|, |right|) as real;
    score := Round4(MaxReal(jaccard, overlap));
  }

  lemma DivisionShrinks(a: real, b: real, c: real)
    requires 0.0 <= a && 0.0 < b <= c
    ensures 0.0 <= a / c <= a / b
  {
    var q := a / b;
    assert q * b == a && a / c * c == a;
    CancelFactor(0.0, q, b);
    CancelFactor(0.0, a / c, c);
    assert q * b <= q * c;
    CancelFactor(a / c, q, c);
  }

  lemma SelfDivision(x: real)
    requires x > 0.0
    ensures x / x == 1.0
  {
    var q := x / x;
    assert q * x == 1.0 * x;
    CancelFactor(q, 1.0, x);
    CancelFactor(1.0, q, x);
  }

  /** The overlap coefficient is never below Jaccard, so it alone decides. */
  lemma OverlapDecides(left: set<string>, right: set<string>)
    ensures var shared := |left * right|;
            Score(left, right)
            == if shared < 3 then 0.0 else Round4(shared as real / Min(|left|, |right|) as real)
  {
    SharedBounds(left, right);
    var shared := |left * right|;
    if shared >= 3 {
      DivisionShrinks(shared as real, Min(|left|, |right|) as real, (|left| + |right| - shared) as real);
    } else if left == {} || right == {} {
      assert left * right == {};
    }
  }

  lemma ScoreSymmetric(left: set<string>, right: set<string>)
    ensures Score(left, right) == Score(right, left)
  {
    assert left * right == right * left;
    OverlapDecides(left, right);
    OverlapDecides(right, left);
  }

  lemma ScoreInUnit(left: set<string>, right: set<string>)
    ensures 0.0 <= Score(left, right) <= 1.0
  {
    OverlapDecides(left, right);
    SharedBounds(left, right);
    Round4Fixed();
    var shared, least := |left * right| as real, Min(|left|, |right|) as real;
    if shared >= 3.0 {
      hide Round4;
      DivisionShrinks(shared, shared, least);
      SelfDivision(shared);
      Round4Monotone(0.0, shared / least);
      Round4Monotone(shared / least, 1.0);
    }
  }

  /** A chunk whose tokens all occur in another, at least three of them, is a perfect match. */
  lemma ContainedScoresOne(left: set<string>, right: set<string>)
    requires left <= right && |left| >= 3
    ensures Score(left, right) == 1.0
  {
    assert left * right == left;
    Subset(left, right);
    OverlapDecides(left, right);
    Round4Fixed();
    SelfDivision(|left| as real);
  }
}
