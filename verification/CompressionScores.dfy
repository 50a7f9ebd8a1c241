/** What a sentence's score means, and by what the kept sentences beat the others
    (context/optimizer.ts, sentenceScore). */
module CompressionScores {
  import opened Options
  import opened Arithmetic
  import opened Ranking
  import opened Sentences
  import opened Dedupe
  import opened Compression
  import Similarity
  import Relevance

  /** Four fifths the share of the query, one fifth the share of the sentence, over the common
      denominator. */
  lemma MatchScoreIs(query: set<string>, tokens: set<string>)
    requires query != {} && tokens != {}
    ensures var m, q, t := |query * tokens| as real, |query| as real, |tokens| as real;
            5.0 * MatchScore(query, tokens) * (q * t) == 4.0 * (m * t) + m * q
  {
    var m, q, t := |query * tokens| as real, |query| as real, |tokens| as real;
    Divided(m, q);
    Divided(m, t);
    Across(m / q, m / t, q, t, m, MatchScore(query, tokens));
  }

  lemma Across(c: real, e: real, q: real, t: real, m: real, score: real)
    requires c * q == m && e * t == m && score == c * 0.8 + e * 0.2
    ensures 5.0 * score * (q * t) == 4.0 * (m * t) + m * q
  {
    assert 5.0 * score == 4.0 * c + e;
    assert c * (q * t) == m * t;
    assert e * (q * t) == m * q;
    Spread(c, e, q * t);
  }

  lemma Spread(c: real, e: real, k: real)
    ensures (4.0 * c + e) * k == 4.0 * (c * k) + e * k
  {
  }

  /** A sentence scores 0 exactly when it shares nothing with the query, and 1 exactly when its tokens
      are the query. */
  lemma MatchScoreExtremes(query: set<string>, tokens: set<string>)
    ensures 0.0 <= MatchScore(query, tokens) <= 1.0
    ensures MatchScore(query, tokens) == 0.0 <==> query * tokens == {}
    ensures MatchScore(query, tokens) == 1.0 <==> query == tokens && query != {}
  {
    Similarity.SharedBounds(query, tokens);
    var m, q, t := |query * tokens|, |query|, |tokens|;
    if q > 0 && t > 0 {
      Share(m as real, q as real);
      Share(m as real, t as real);
      if m == q && m == t { Relevance.FullSubset(query * tokens, query); Relevance.FullSubset(query * tokens, tokens); }
      if query == tokens { assert query * tokens == query; }
    }
  }

  lemma Share(a: real, b: real)
    requires 0.0 <= a <= b && b > 0.0
    ensures 0.0 <= a / b <= 1.0 && (a / b == 0.0 <==> a == 0.0) && (a / b == 1.0 <==> a == b)
  {
    Relevance.Fraction(a, b);
    var f := a / b;
    assert f * b == a;
  }

  /** Of two sentences with equally many tokens, the one sharing more of the query never scores lower. */
  lemma MoreMatchesNeverLower(query: set<string>, a: set<string>, b: set<string>)
    requires |a| == |b| && |query * a| <= |query * b|
    ensures MatchScore(query, a) <= MatchScore(query, b)
  {
    if query != {} { Relevance.Quotients(|query * a| as real, |query * b| as real, |query| as real); }
    if a != {} { Relevance.Quotients(|query * a| as real, |query * b| as real, |a| as real); }
  }

  /** With a query, one sentence outranks another exactly when it matches better, the first sentence
      of the chunk with 0.03 to its credit, or as well and comes earlier. */
  lemma OutranksIff(text: Text, query: set<string>, chunk: Kept, i: nat, j: nat)
    requires query != {} && i < |Split(chunk.content)| && j < |Split(chunk.content)|
    ensures var sentences := Split(chunk.content);
            var x := MatchScore(query, text.tokens(sentences[i])) + if i == 0 then 0.03 else 0.0;
            var y := MatchScore(query, text.tokens(sentences[j])) + if j == 0 then 0.03 else 0.0;
            Before(Scores(text, query, chunk), i, j) <==> x > y || (x == y && i < j)
  {
    hide MatchScore, Split;
  }
}
