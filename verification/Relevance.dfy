/** Relevance ranking of chunks (context/optimizer.ts, lexicalRelevanceScore, applyLexicalRanking,
    applyScoredRanking). */
module Relevance {
  import opened Options
  import opened Arithmetic
  import opened Ranking
  import opened Dedupe
  import Similarity
  import Cosine

  // ---------------------------------------------------------------- specification

  /** lexicalRelevanceScore: coverage of the query and density in the chunk. */
  function LexicalScore(query: set<string>, tokens: set<string>): real {
    if query == {} || tokens == {} then 0.0
    else
      var matches := |query * tokens| as real;
      Round4(matches / |query| as real * 0.75 + matches / Min(|tokens|, 4 * |query|) as real * 0.25)
  }

  function WithRelevance(kept: seq<Kept>, scores: seq<real>): seq<Kept>
    requires |scores| == |kept|
  {
    seq(|kept|, i requires 0 <= i < |kept| => kept[i].(relevance := Some(scores[i])))
  }

  /** Scores attached, then best first. */
  function RankBy(kept: seq<Kept>, scores: seq<real>): seq<Kept>
    requires |scores| == |kept|
  {
    Rearrange(WithRelevance(kept, scores), Ranked(scores))
  }

  function LexicalScores(text: Text, query: set<string>, kept: seq<Kept>): (r: seq<real>)
    ensures |r| == |kept|
  {
    seq(|kept|, i requires 0 <= i < |kept| => LexicalScore(query, text.tokens(kept[i].content)))
  }

  function RankStage(text: Text, query: set<string>, kept: seq<Kept>): seq<Kept> {
    if query == {} || kept == [] then kept else RankBy(kept, LexicalScores(text, query, kept))
  }

  function SumOf(scores: seq<real>): real {
    if scores == [] then 0.0 else SumOf(scores[..|scores| - 1]) + scores[|scores| - 1]
  }

  function Below(scores: seq<real>, least: real): nat {
    if scores == [] then 0
    else Below(scores[..|scores| - 1], least) + if scores[|scores| - 1] < least then 1 else 0
  }

  /** What is reported beside the ranked list. */
  datatype RankMetrics = RankMetrics(average: Option<real>, lowRelevance: nat, reranked: nat)

  const NoRanking := RankMetrics(None, 0, 0)

  function MetricsOf(scores: seq<real>, least: real): RankMetrics {
    if scores == [] then NoRanking
    else RankMetrics(Some(Round4(SumOf(scores) / |scores| as real)), Below(scores, least), Displaced(Ranked(scores)))
  }

  function RankStageMetrics(text: Text, query: set<string>, kept: seq<Kept>, least: real): RankMetrics {
    if query == {} then NoRanking else MetricsOf(LexicalScores(text, query, kept), least)
  }

  // ---------------------------------------------------------------- the ranking as written

  /** The common part of applyLexicalRanking and applyScoredRanking, with its running sums. */
  method ApplyRanking(kept: seq<Kept>, scores: seq<real>, least: real) returns (ranked: seq<Kept>, metrics: RankMetrics)
    requires |scores| == |kept|
    ensures ranked == (if kept == [] then kept else RankBy(kept, scores)) && metrics == MetricsOf(scores, least)
  {
    if kept == [] {
      return kept, NoRanking;
    }
    hide Ranked, Round4, WithRelevance, Rearrange;
    var total, lowRelevance := 0.0, 0;
    for i := 0 to |scores|
      invariant total == SumOf(scores[..i]) && lowRelevance == Below(scores[..i], least)
    {
      assert scores[..i + 1][..i] == scores[..i];
      total := total + scores[i];
      if scores[i] < least { lowRelevance := lowRelevance + 1; }
    }
    assert scores[..|scores|] == scores;
    RankedFacts(scores);
    var order := Ranked(scores);
    var reranked := 0;
    for newIndex := 0 to |order|
      invariant reranked + DisplacedFrom(order[newIndex..], newIndex) == Displaced(order)
    {
      assert order[newIndex..][1..] == order[newIndex + 1..];
      if order[newIndex] != newIndex { reranked := reranked + 1; }
    }
    ranked := Rearrange(WithRelevance(kept, scores), order);
    assert reranked == Displaced(order) by { assert order[|order|..] == []; }
    metrics := RankMetrics(Some(Round4(total / |kept| as real)), lowRelevance, reranked);
  }

  method ApplyLexicalRanking(text: Text, query: set<string>, kept: seq<Kept>, least: real)
      returns (ranked: seq<Kept>, metrics: RankMetrics)
    ensures ranked == RankStage(text, query, kept) && metrics == RankStageMetrics(text, query, kept, least)
  {
    if query == {} || kept == [] {
      return kept, NoRanking;
    }
    ranked, metrics := ApplyRanking(kept, LexicalScores(text, query, kept), least);
  }

  // ---------------------------------------------------------------- scores

  /** A cosine turned into a relevance score, as before embedding ranking. */
  function EmbeddingScore(cosine: real): real { Round4(MaxReal(0.0, MinReal(1.0, cosine))) }

  /** The upper bound never acts: a cosine of real vectors does not exceed 1. */
  lemma EmbeddingScoreUnclipped(sqrt: real -> real, a: seq<real>, b: seq<real>)
    requires |a| == |b| && Cosine.RootAt(sqrt, Cosine.Norm(a)) && Cosine.RootAt(sqrt, Cosine.Norm(b))
    ensures EmbeddingScore(Cosine.Cosine(sqrt, a, b)) == Round4(MaxReal(0.0, Cosine.Cosine(sqrt, a, b)))
    ensures 0.0 <= EmbeddingScore(Cosine.Cosine(sqrt, a, b)) <= 1.0
  {
    hide Cosine.Cosine, Round4;
    Cosine.CosineInUnit(sqrt, a, b);
    var x := MaxReal(0.0, Cosine.Cosine(sqrt, a, b));
    Round4Monotone(0.0, x);
    Round4Monotone(x, 1.0);
    Round4Fixed();
  }

  lemma LexicalInUnit(query: set<string>, tokens: set<string>)
    ensures 0.0 <= LexicalScore(query, tokens) <= 1.0
  {
    if query != {} && tokens != {} {
      hide Round4;
      Similarity.SharedBounds(query, tokens);
      var matches, q, t := |query * tokens| as real, |query| as real, Min(|tokens|, 4 * |query|) as real;
      Fraction(matches, q);
      Fraction(matches, t);
      var x := matches / q * 0.75 + matches / t * 0.25;
      Round4Monotone(0.0, x);
      Round4Monotone(x, 1.0);
      Round4Fixed();
    }
  }

  lemma Fraction(a: real, b: real)
    requires 0.0 <= a <= b && 0.0 < b
    ensures 0.0 <= a / b <= 1.0
  {
    var f := a / b;
    assert f * b == a;
    CancelFactor(0.0, f, b);
    CancelFactor(f, 1.0, b);
  }

  // ---------------------------------------------------------------- what the lexical score means

  /** Four times the score, over the common denominator and within rounding: three parts coverage of
      the query, one part density in the chunk. */
  predicate ScoredBy(score: real, shared: real, query: real, counted: real) {
    var low, high := 4.0 * score - 0.0002, 4.0 * score + 0.0002;
    low * (query * counted) <= 3.0 * shared * counted + shared * query <= high * (query * counted)
  }

  /** Density is counted against at most four query lengths. */
  lemma LexicalIsCoverageAndDensity(query: set<string>, tokens: set<string>)
    requires query != {} && tokens != {}
    ensures ScoredBy(LexicalScore(query, tokens), |query * tokens| as real, |query| as real,
                     (if |tokens| < 4 * |query| then |tokens| else 4 * |query|) as real)
  {
    LexicalIsRaw(query, tokens);
    hide LexicalScore, Round4, Raw, ScoredBy;
    var d := Min(|tokens|, 4 * |query|);
    Round4Near(Raw(|query * tokens|, |query|, d));
    RawAcross(|query * tokens|, |query|, d, LexicalScore(query, tokens));
  }

  lemma RawAcross(m: nat, q: nat, d: int, score: real)
    requires q > 0 && d > 0 && Raw(m, q, d) - 0.00005 <= score <= Raw(m, q, d) + 0.00005
    ensures ScoredBy(score, m as real, q as real, d as real)
  {
    hide ScoredBy;
    var x, y, z := m as real, q as real, d as real;
    Divided(x, y);
    Divided(x, z);
    CrossMultiply(x / y, x / z, y, z, x, Raw(m, q, d), score);
  }

  lemma CrossMultiply(c: real, e: real, q: real, d: real, m: real, x: real, score: real)
    requires c * q == m && e * d == m && x == c * 0.75 + e * 0.25 && q > 0.0 && d > 0.0
    requires x - 0.00005 <= score <= x + 0.00005
    ensures ScoredBy(score, m, q, d)
  {
    Regroup(c, e, q, d, m);
    assert q * d > 0.0 by { Positive(q, d); }
    ScaleBetween(4.0 * score - 0.0002, 3.0 * c + e, 4.0 * score + 0.0002, q * d, 3.0 * m * d + m * q);
  }

  lemma Regroup(c: real, e: real, q: real, d: real, m: real)
    requires c * q == m && e * d == m
    ensures (3.0 * c + e) * (q * d) == 3.0 * m * d + m * q
  {
    assert c * (q * d) == m * d;
    assert e * (q * d) == m * q;
  }

  lemma Positive(q: real, d: real)
    requires q > 0.0 && d > 0.0
    ensures q * d > 0.0
  {
  }

  function Raw(m: nat, q: nat, d: int): real
    requires q > 0 && d > 0
  {
    m as real / q as real * 0.75 + m as real / d as real * 0.25
  }

  lemma LexicalIsRaw(query: set<string>, tokens: set<string>)
    requires query != {} && tokens != {}
    ensures LexicalScore(query, tokens) == Round4(Raw(|query * tokens|, |query|, Min(|tokens|, 4 * |query|)))
  {
  }

  lemma RawGrows(m: nat, n: nat, q: nat, d: int)
    requires q > 0 && d > 0 && m <= n
    ensures Raw(m, q, d) <= Raw(n, q, d)
  {
    Quotients(m as real, n as real, q as real);
    Quotients(m as real, n as real, d as real);
  }

  lemma Quotients(a: real, b: real, c: real)
    requires c > 0.0 && a <= b
    ensures a / c <= b / c
  {
    var x, y := a / c, b / c;
    assert x * c == a && y * c == b;
    CancelFactor(x, y, c);
  }

  /** Among chunks with equally many tokens, sharing more query tokens never scores lower. */
  lemma MoreSharedNeverLower(query: set<string>, a: set<string>, b: set<string>)
    requires |a| == |b| && |query * a| <= |query * b|
    ensures LexicalScore(query, a) <= LexicalScore(query, b)
  {
    if query != {} && a != {} {
      LexicalIsRaw(query, a);
      LexicalIsRaw(query, b);
      RawGrows(|query * a|, |query * b|, |query|, Min(|a|, 4 * |query|));
      Round4Monotone(Raw(|query * a|, |query|, Min(|a|, 4 * |query|)), Raw(|query * b|, |query|, Min(|b|, 4 * |query|)));
    }
  }

  lemma AtLeastPart(m: nat, q: nat, d: int)
    requires 1 <= m && 1 <= q <= 32 && d > 0
    ensures Raw(m, q, d) >= 0.0234
  {
    QuotientAtLeast(m as real, d as real, 0.0);
    QuotientAtLeast(m as real, q as real, 0.0312);
  }

  /** For queries of at most 32 tokens, the most a query is read as: nothing shared is exactly a score
      of 0, and only a chunk whose tokens are the query scores 1. */
  lemma LexicalExtremes(query: set<string>, tokens: set<string>)
    requires |query| <= 32
    ensures LexicalScore(query, tokens) == 0.0 <==> query * tokens == {}
    ensures LexicalScore(query, tokens) == 1.0 <==> query == tokens && query != {}
  {
    if query != {} && tokens != {} {
      Similarity.SharedBounds(query, tokens);
      var m, q, d := |query * tokens|, |query|, Min(|tokens|, 4 * |query|);
      LexicalIsRaw(query, tokens);
      hide LexicalScore, Round4, Raw;
      Round4Fixed();
      if m == 0 {
        assert Raw(0, q, d) == 0.0 by { RawOfNone(q, d); }
      } else {
        AtLeastPart(m, q, d);
        Round4Near(Raw(m, q, d));
        AtMostWhole(m, q, d);
        if m == q && m == d {
          Similarity.Subset(query * tokens, query);
          Same(query, tokens);
          RawOfWhole(q);
        } else {
          Round4Near(Raw(m, q, d));
          NotSame(query, tokens);
        }
      }
    }
  }

  lemma RawOfNone(q: nat, d: int)
    requires q > 0 && d > 0
    ensures Raw(0, q, d) == 0.0
  {
  }

  lemma RawOfWhole(q: nat)
    requires q > 0
    ensures Raw(q, q, q) == 1.0
  {
    assert q as real / q as real == 1.0 by { Similarity.SelfDivision(q as real); }
  }

  /** Short of a perfect match the unrounded score stays clear of 1. */
  lemma AtMostWhole(m: nat, q: nat, d: int)
    requires 1 <= m <= q <= 32 && m <= d
    ensures m < q || m < d ==> Raw(m, q, d) <= 0.9925
  {
    QuotientAtMost(m as real, q as real, if m < q then 0.97 else 1.0);
    QuotientAtMost(m as real, d as real, if m == q && m < d then 0.97 else 1.0);
  }

  lemma Same(query: set<string>, tokens: set<string>)
    requires |query * tokens| == |query| && |query * tokens| == Min(|tokens|, 4 * |query|) && query != {}
    ensures query == tokens
  {
    FullSubset(query * tokens, query);
    FullSubset(query * tokens, tokens);
  }

  lemma NotSame(query: set<string>, tokens: set<string>)
    requires |query * tokens| < |query| || |query * tokens| < Min(|tokens|, 4 * |query|)
    ensures query != tokens
  {
    assert query * query == query;
  }

  lemma FullSubset(a: set<string>, b: set<string>)
    requires a <= b && |a| == |b|
    ensures a == b
  {
    assert |b - a| == |b| - |a|;
  }

  /** What ranking does with the scores: each chunk carries its own, they fall along the list, and of
      two chunks with equally many tokens the one sharing strictly more of the query never comes
      after the other unless their rounded scores tie. */
  lemma RankStageByRelevance(text: Text, query: set<string>, kept: seq<Kept>, i: nat, j: nat)
    requires query != {} && i < j < |RankStage(text, query, kept)|
    ensures var a, b := RankStage(text, query, kept)[i], RankStage(text, query, kept)[j];
            var s, t := text.tokens(a.content), text.tokens(b.content);
            a.relevance == Some(LexicalScore(query, s)) && b.relevance == Some(LexicalScore(query, t))
            && a.relevance.value >= b.relevance.value
            && (|s| == |t| && |query * t| > |query * s| ==> a.relevance == b.relevance)
  {
    hide LexicalScore, Ranked;
    var scores := LexicalScores(text, query, kept);
    RankedFacts(scores);
    RankedInOrder(scores, i, j);
    var a, b := RankStage(text, query, kept)[i], RankStage(text, query, kept)[j];
    var s, t := text.tokens(a.content), text.tokens(b.content);
    if |s| == |t| && |query * t| > |query * s| { MoreSharedNeverLower(query, s, t); }
  }

  // ---------------------------------------------------------------- metrics

  lemma {:induction false} BelowCounts(scores: seq<real>, least: real)
    ensures Below(scores, least) == |set i | 0 <= i < |scores| && scores[i] < least|
  {
    var low := set i | 0 <= i < |scores| && scores[i] < least;
    if scores == [] {
      assert low == {};
    } else {
      var n := |scores| - 1;
      var before := set i | 0 <= i < n && scores[..n][i] < least;
      BelowCounts(scores[..n], least);
      assert low == before + if scores[n] < least then {n} else {};
    }
  }

  /** Displacement is counted place by place. */
  lemma {:induction false} DisplacedOfJoin(a: seq<nat>, b: seq<nat>, from: nat)
    ensures DisplacedFrom(a + b, from) == DisplacedFrom(a, from) + DisplacedFrom(b, from + |a|)
    ensures |b| == 1 ==> DisplacedFrom(b, from) == if b[0] == from then 0 else 1
  {
    if a == [] {
      assert a + b == b;
    } else {
      assert (a + b)[1..] == a[1..] + b;
      DisplacedOfJoin(a[1..], b, from + 1);
    }
    if |b| == 1 { assert b[1..] == []; }
  }

  /** What ranking reports: the average score to four places, the number of scores below the asked
      minimum, and the number of places where another chunk than before now stands. */
  lemma MetricsAre(scores: seq<real>, least: real)
    requires scores != []
    ensures var m, n := MetricsOf(scores, least), |scores| as real;
            m.average.Some?
            && (m.average.value - 0.00005) * n <= SumOf(scores) <= (m.average.value + 0.00005) * n
            && m.lowRelevance == |set i | 0 <= i < |scores| && scores[i] < least|
            && m.reranked == DisplacedFrom(Ranked(scores), 0)
  {
    hide Round4, Ranked, Below, SumOf, DisplacedFrom;
    AverageIs(SumOf(scores), |scores| as real);
    BelowCounts(scores, least);
  }

  lemma {:induction false} SumOfJoin(a: seq<real>, b: seq<real>)
    ensures SumOf(a + b) == SumOf(a) + SumOf(b) && (|a| == 1 ==> SumOf(a) == a[0])
  {
    if b == [] {
      assert a + b == a;
    } else {
      var n := |b| - 1;
      assert (a + b)[..|a| + n] == a + b[..n];
      SumOfJoin(a, b[..n]);
    }
    if |a| == 1 { assert a[..0] == []; }
  }
}
