/** Extractive compression (context/optimizer.ts, sentenceScore, compressChunkExtractively,
    applyExtractiveCompression): a chunk keeps its best sentences, in order. */
module Compression {
  import opened Options
  import Arithmetic
  import opened Ranking
  import opened Sentences
  import opened Dedupe
  import DedupeProofs

  // ---------------------------------------------------------------- scoring

  /** The share of the query's tokens and of the sentence's tokens that match. */
  function MatchScore(query: set<string>, tokens: set<string>): real {
    var matches := |query * tokens| as real;
    var queryScore := if query == {} then 0.0 else matches / |query| as real;
    var density := if tokens == {} then 0.0 else matches / |tokens| as real;
    queryScore * 0.8 + density * 0.2
  }

  function SentenceScore(query: set<string>, tokens: set<string>, index: nat, chunk: Kept): real {
    var relevanceBonus := if chunk.relevance.Some? then chunk.relevance.value * 0.08 else 0.0;
    var freshnessPenalty := if chunk.stale then 0.08 else 0.0;
    var conflictPenalty := if chunk.conflict then 0.04 else 0.0;
    var leadBonus := if index == 0 then 0.03 else 0.0;
    if query == {} then leadBonus - freshnessPenalty - conflictPenalty
    else MatchScore(query, tokens) + relevanceBonus + leadBonus - freshnessPenalty - conflictPenalty
  }

  function Scores(text: Text, query: set<string>, chunk: Kept): (r: seq<real>)
    ensures |r| == |Split(chunk.content)|
  {
    var sentences := Split(chunk.content);
    seq(|sentences|, i requires 0 <= i < |sentences| => SentenceScore(query, text.tokens(sentences[i]), i, chunk))
  }

  // ---------------------------------------------------------------- one chunk

  /** The indices of the sentences a chunk keeps. */
  function Chosen(text: Text, query: set<string>, limit: nat, chunk: Kept): seq<nat>
    requires limit <= |Split(chunk.content)|
  {
    TopK(Scores(text, query, chunk), limit)
  }

  /** The chosen sentences, joined; the choice is in range by TopKFacts. */
  function Extract(text: Text, query: set<string>, limit: nat, chunk: Kept): string
    requires limit <= |Split(chunk.content)|
  {
    TopKFacts(Scores(text, query, chunk), limit);
    Join(Select(Split(chunk.content), Chosen(text, query, limit, chunk)))
  }

  function CompressChunk(text: Text, query: set<string>, limit: nat, chunk: Kept): Kept {
    if |Split(chunk.content)| <= limit then chunk
    else
      var content := Extract(text, query, limit, chunk);
      var tokens := EstimateTokens(content);
      if tokens >= chunk.outputTokens then chunk
      else chunk.(content := content, outputTokens := tokens, compressed := true)
  }

  predicate Estimated(chunk: Kept) { chunk.outputTokens == EstimateTokens(chunk.content) }

  // ---------------------------------------------------------------- it always shrinks

  lemma {:induction false} TotalSnoc(s: seq<string>, last: string)
    ensures TotalLength(s + [last]) == TotalLength(s) + |last|
  {
    if s != [] {
      assert (s + [last])[1..] == s[1..] + [last];
      TotalSnoc(s[1..], last);
    } else {
      assert [last][1..] == [];
    }
  }

  /** Each sentence left out takes at least twelve characters with it. */
  lemma {:induction false} SelectionSheds(s: seq<string>, indices: seq<nat>)
    requires Increasing(indices, |s|) && forall i :: 0 <= i < |s| ==> |s[i]| >= MIN_SENTENCE
    ensures |indices| <= |s|
    ensures TotalLength(Select(s, indices)) + MIN_SENTENCE * (|s| - |indices|) <= TotalLength(s)
  {
    if s != [] {
      var n, m := |s| - 1, |indices| - 1;
      assert s == s[..n] + [s[n]];
      TotalSnoc(s[..n], s[n]);
      if indices != [] && indices[m] == n {
        SelectionSheds(s[..n], indices[..m]);
        assert Select(s, indices) == Select(s[..n], indices[..m]) + [s[n]];
        TotalSnoc(Select(s[..n], indices[..m]), s[n]);
      } else {
        assert Increasing(indices, n);
        SelectionSheds(s[..n], indices);
        assert Select(s, indices) == Select(s[..n], indices);
      }
    }
  }

  lemma JoinLength(s: seq<string>)
    requires s != []
    ensures |Join(s)| == TotalLength(s) + |s| - 1
  {
    TailLength(s[1..]);
  }

  /** The room an extract leaves: twelve characters a sentence dropped, less the joining spaces. */
  lemma ExtractLength(text: Text, query: set<string>, limit: nat, chunk: Kept)
    requires 1 <= limit <= |Split(chunk.content)|
    ensures |Extract(text, query, limit, chunk)| + MIN_SENTENCE * (|Split(chunk.content)| - limit)
            <= |chunk.content| + limit - 1
  {
    hide TopK, Split, Join, Scores, TotalLength, Before;
    var s := Split(chunk.content);
    var indices := Chosen(text, query, limit, chunk);
    TopKFacts(Scores(text, query, chunk), limit);
    SplitShape(chunk.content);
    SplitLength(chunk.content);
    SelectionSheds(s, indices);
    JoinLength(Select(s, indices));
  }

  /** Whenever a chunk has more sentences than the limit, compression takes effect: what remains is
      the extract, strictly cheaper; the guard against growth never fires. */
  lemma CompressionAlwaysShrinks(text: Text, query: set<string>, limit: nat, chunk: Kept)
    requires 1 <= limit <= 8 && Estimated(chunk)
    ensures var r := CompressChunk(text, query, limit, chunk);
            if |Split(chunk.content)| > limit then
              r.compressed && r.outputTokens < chunk.outputTokens && Estimated(r)
              && r == chunk.(content := Extract(text, query, limit, chunk), outputTokens := r.outputTokens,
                             compressed := true)
            else r == chunk
  {
    hide Split, Extract;
    if |Split(chunk.content)| > limit { ExtractLength(text, query, limit, chunk); }
  }

  /** Compressing again with at least the same limit changes nothing, whatever the second query. */
  lemma CompressionIsIdempotent(text: Text, query: set<string>, again: set<string>, limit: nat, limit': nat, chunk: Kept)
    requires 1 <= limit <= limit' && limit <= 8 && Estimated(chunk)
    ensures var r := CompressChunk(text, query, limit, chunk);
            |Split(r.content)| <= limit && CompressChunk(text, again, limit', r) == r
  {
    hide Split, TopK, Scores, Join, Before;
    CompressionAlwaysShrinks(text, query, limit, chunk);
    if |Split(chunk.content)| > limit {
      TopKFacts(Scores(text, query, chunk), limit);
      ResplitSelection(chunk.content, Chosen(text, query, limit, chunk));
    }
  }

  /** What is kept: the chunk's sentences, in their order, as many as the limit allows, each
      scoring above (or tied with and before) every one left out; and they split out again. */
  lemma KeepsBestSentences(text: Text, query: set<string>, limit: nat, chunk: Kept)
    requires 1 <= limit <= 8 && Estimated(chunk) && |Split(chunk.content)| > limit
    ensures var scores, indices := Scores(text, query, chunk), Chosen(text, query, limit, chunk);
            Increasing(indices, |Split(chunk.content)|) && |indices| == limit
            && Split(CompressChunk(text, query, limit, chunk).content) == Select(Split(chunk.content), indices)
            && forall i: nat, j: nat :: i in indices && j < |scores| && j !in indices ==>
                 i < |scores| && Before(scores, i, j)
  {
    hide Split, TopK, Scores, Join, Before;
    CompressionAlwaysShrinks(text, query, limit, chunk);
    TopKFacts(Scores(text, query, chunk), limit);
    ResplitSelection(chunk.content, Chosen(text, query, limit, chunk));
  }

  // ---------------------------------------------------------------- what decides the choice

  lemma ShiftedRanking(a: seq<real>, b: seq<real>, shift: real)
    requires |a| == |b| && forall i :: 0 <= i < |a| ==> b[i] == a[i] + shift
    ensures Ranked(a) == Ranked(b)
  {
    RankedFacts(a);
    RankedFacts(b);
    assert InOrder(a, Ranked(b)) by {
      forall i, j | 0 <= i < j < |Ranked(b)| ensures Before(a, Ranked(b)[i], Ranked(b)[j]) {
        assert Before(b, Ranked(b)[i], Ranked(b)[j]);
      }
    }
    RankingIsUnique(a, Ranked(a), Ranked(b));
  }

  /** Relevance, staleness and conflicts weigh on every sentence alike: they never change which
      sentences are kept. */
  lemma ChunkFlagsNeverMatter(text: Text, query: set<string>, limit: nat, a: Kept, b: Kept)
    requires a.content == b.content && limit <= |Split(a.content)|
    ensures Chosen(text, query, limit, a) == Chosen(text, query, limit, b)
  {
    hide Split, Ranked, MatchScore;
    var x, y := Scores(text, query, a), Scores(text, query, b);
    if |x| > 0 { ShiftedRanking(x, y, y[0] - x[0]); }
  }

  /** Without query tokens the leading sentences are kept. */
  lemma NoQueryKeepsTheLead(text: Text, limit: nat, chunk: Kept)
    requires limit <= |Split(chunk.content)|
    ensures Chosen(text, {}, limit, chunk) == Upto(limit)
  {
    hide Split, Ranked, SortUp;
    var scores := Scores(text, {}, chunk);
    RankedFacts(scores);
    assert InOrder(scores, Upto(|scores|));
    RankingIsUnique(scores, Ranked(scores), Upto(|scores|));
    assert Upto(|scores|)[..limit] == Upto(limit);
    SortedFixed(Upto(limit), limit);
  }

  lemma {:induction false} SortedFixed(s: seq<nat>, bound: nat)
    requires Increasing(s, bound)
    ensures SortUp(s) == s
  {
    if s != [] { SortedFixed(s[1..], bound); }
  }

  // ---------------------------------------------------------------- all chunks

  function CompressAll(text: Text, query: set<string>, limit: nat, chunks: seq<Kept>): (r: seq<Kept>)
    ensures |r| == |chunks|
    ensures forall i :: 0 <= i < |chunks| ==> r[i] == CompressChunk(text, query, limit, chunks[i])
  {
    seq(|chunks|, i requires 0 <= i < |chunks| => CompressChunk(text, query, limit, chunks[i]))
  }

  function Compressed(chunks: seq<Kept>): nat {
    if chunks == [] then 0
    else Compressed(chunks[..|chunks| - 1]) + if chunks[|chunks| - 1].compressed then 1 else 0
  }

  datatype Savings = Savings(compressedChunks: nat, savedTokens: nat, ratePct: real)

  const NoSavings := Savings(0, 0, 0.0)

  /** A share in per cent, to two places. */
  function Percent(part: nat, whole: nat): real {
    if whole == 0 then 0.0 else (part as real / whole as real * 100.0 * 100.0 + 0.5).Floor as real / 100.0
  }

  /** A hundred times the part over the whole, within rounding; nothing of nothing. */
  lemma PercentIs(part: nat, whole: nat)
    ensures if whole == 0 then Percent(part, whole) == 0.0
            else var p, n := Percent(part, whole), whole as real;
                 (p - 0.005) * n <= 100.0 * part as real <= (p + 0.005) * n
  {
    if whole > 0 {
      var share := part as real / whole as real;
      NearestHundredth(share * 100.0 * 100.0, Percent(part, whole));
      HundredTimes(part as real, whole as real, share, Percent(part, whole));
    }
  }

  lemma NearestHundredth(x: real, p: real)
    requires p == (x + 0.5).Floor as real / 100.0
    ensures p - 0.005 <= x / 100.0 <= p + 0.005
  {
  }

  lemma HundredTimes(part: real, whole: real, share: real, p: real)
    requires whole > 0.0 && share == part / whole && p - 0.005 <= share * 100.0 <= p + 0.005
    ensures (p - 0.005) * whole <= 100.0 * part <= (p + 0.005) * whole
  {
    assert share * whole == part;
    Arithmetic.ScaleBetween(p - 0.005, share * 100.0, p + 0.005, whole, 100.0 * part);
  }

  /** The map with its running sums; the floor at zero on the savings never acts. */
  method ApplyExtractiveCompression(text: Text, query: set<string>, limit: nat, chunks: seq<Kept>)
      returns (compressed: seq<Kept>, savings: Savings)
    ensures compressed == CompressAll(text, query, limit, chunks)
    ensures savings.compressedChunks == Compressed(compressed)
    ensures savings.savedTokens == DedupeProofs.OutputTokens(chunks) - DedupeProofs.OutputTokens(compressed)
    ensures savings.ratePct == Percent(savings.savedTokens, DedupeProofs.OutputTokens(chunks))
  {
    hide CompressChunk, Percent;
    var preCompressionTokens, i := 0, 0;
    while i < |chunks|
      invariant 0 <= i <= |chunks| && preCompressionTokens == DedupeProofs.OutputTokens(chunks[..i])
    {
      assert chunks[..i + 1][..i] == chunks[..i];
      preCompressionTokens := preCompressionTokens + chunks[i].outputTokens;
      i := i + 1;
    }
    assert chunks[..i] == chunks;
    compressed := [];
    var compressedChunks, outputTokens := 0, 0;
    i := 0;
    while i < |chunks|
      invariant 0 <= i <= |chunks| && |compressed| == i
      invariant forall k :: 0 <= k < i ==> compressed[k] == CompressChunk(text, query, limit, chunks[k])
      invariant compressedChunks == Compressed(compressed) && outputTokens == DedupeProofs.OutputTokens(compressed)
    {
      var next := CompressChunk(text, query, limit, chunks[i]);
      assert (compressed + [next])[..i] == compressed;
      if next.compressed {
        compressedChunks := compressedChunks + 1;
      }
      outputTokens := outputTokens + next.outputTokens;
      compressed := compressed + [next];
      i := i + 1;
    }
    NeverGrows(text, query, limit, chunks);
    var saved := if preCompressionTokens > outputTokens then preCompressionTokens - outputTokens else 0;
    savings := Savings(compressedChunks, saved, Percent(saved, preCompressionTokens));
  }

  lemma {:induction false} NeverGrows(text: Text, query: set<string>, limit: nat, chunks: seq<Kept>)
    ensures DedupeProofs.OutputTokens(CompressAll(text, query, limit, chunks)) <= DedupeProofs.OutputTokens(chunks)
  {
    if chunks != [] {
      var n := |chunks| - 1;
      hide Split, Extract;
      NeverGrows(text, query, limit, chunks[..n]);
      assert CompressAll(text, query, limit, chunks)[..n] == CompressAll(text, query, limit, chunks[..n]);
    }
  }
}
