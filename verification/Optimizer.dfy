/** The whole optimization pipeline (context/optimizer.ts, optimizeContextChunks and
    compressContextOptimizationResult): dedupe, rank, mark stale, detect conflicts, compress. */
module Optimizer {
  import opened Options
  import opened Ranking
  import opened Arithmetic
  import Sentences
  import opened Dedupe
  import opened DedupeProofs
  import opened Conflicts
  import opened ConflictDetection
  import opened Compression
  import opened Relevance
  import opened Freshness
  import Similarity

  // ---------------------------------------------------------------- stages

  function ConflictStage(rules: Option<Rules>, kept: seq<Kept>): (seq<Kept>, seq<Conflict>) {
    if rules.None? || |kept| < 2 then (kept, [])
    else (MarkAll(kept, Reported(rules.value, kept)), Reported(rules.value, kept))
  }

  /** Math.max(1, Math.min(8, Math.floor(n ?? 3))) */
  function SentenceLimit(n: Option<real>): (limit: nat)
    ensures 1 <= limit <= 8
  {
    var asked := if n.Some? then n.value.Floor else 3;
    if asked < 1 then 1 else if asked > 8 then 8 else asked
  }

  // ---------------------------------------------------------------- the pipeline

  /** The options that steer the stages; a stage that is off is None (or an empty query). */
  datatype Settings = Settings(
    text: Text, semantic: bool, threshold: real, lexical: bool, query: set<string>, minRelevance: real,
    dates: Option<FreshOptions>, rules: Option<Rules>, compress: bool, maxSentences: Option<real>)

  /** The result with its metrics. */
  datatype Outcome = Outcome(
    optimized: seq<Kept>, dropped: seq<Dropped>, conflicts: seq<Conflict>, inputChunks: nat, outputChunks: nat,
    nearDuplicates: nat, ranking: RankMetrics, freshness: FreshMetrics, conflictChunks: nat, inputTokens: nat,
    outputTokens: nat, savedTokens: nat, reductionPct: real, savings: Savings)

  function AtLeastZero(n: int): nat { if n > 0 then n else 0 }

  function Unit(asked: real): real { MaxReal(0.0, MinReal(1.0, asked)) }

  function RankedChunks(s: Settings, kept: seq<Kept>): seq<Kept> {
    if s.lexical then RankStage(s.text, s.query, kept) else kept
  }

  function RankingMetrics(s: Settings, kept: seq<Kept>): RankMetrics {
    if s.lexical then RankStageMetrics(s.text, s.query, kept, Unit(s.minRelevance)) else NoRanking
  }

  function BeforeConflicts(s: Settings, kept: seq<Kept>): seq<Kept> {
    if s.dates.Some? then FreshStage(s.dates.value, RankedChunks(s, kept)) else RankedChunks(s, kept)
  }

  function FreshnessMetrics(s: Settings, ranked: seq<Kept>): FreshMetrics {
    if s.dates.Some? then Freshness.MetricsOf(DatedScores(s.dates.value, ranked)) else FreshMetrics(None, 0)
  }

  function BeforeCompression(s: Settings, kept: seq<Kept>): (seq<Kept>, seq<Conflict>) {
    ConflictStage(s.rules, BeforeConflicts(s, kept))
  }

  function Threshold(asked: real): real { MaxReal(0.5, MinReal(1.0, asked)) }

  function NearDuplicates(dropped: seq<Dropped>): nat {
    if dropped == [] then 0
    else NearDuplicates(dropped[..|dropped| - 1]) + if dropped[|dropped| - 1].reason.NearDuplicate? then 1 else 0
  }

  function Uncompressed(s: Settings, chunks: seq<Chunk>): Outcome {
    var st := Run(s.text, s.semantic, Threshold(s.threshold), chunks);
    var (kept, conflicts) := BeforeCompression(s, st.kept);
    var outputTokens := OutputTokens(kept);
    var saved := AtLeastZero(st.inputTokens - outputTokens);
    Outcome(kept, st.dropped, conflicts, |chunks|, |st.kept|, NearDuplicates(st.dropped), RankingMetrics(s, st.kept),
            FreshnessMetrics(s, RankedChunks(s, st.kept)), |Named(conflicts)|, st.inputTokens, outputTokens, saved,
            Percent(saved, st.inputTokens), NoSavings)
  }

  /** compressContextOptimizationResult: metrics are recomputed from the compressed chunks. */
  function Recompress(text: Text, query: set<string>, limit: nat, r: Outcome): Outcome {
    var compressed := CompressAll(text, query, limit, r.optimized);
    var before, after := OutputTokens(r.optimized), OutputTokens(compressed);
    var saved, removed := AtLeastZero(r.inputTokens - after), AtLeastZero(before - after);
    r.(optimized := compressed, outputTokens := after, savedTokens := saved,
       reductionPct := Percent(saved, r.inputTokens),
       savings := Savings(Compressed(compressed), removed, Percent(removed, before)))
  }

  function Optimized(s: Settings, chunks: seq<Chunk>): Outcome {
    if s.compress then Recompress(s.text, s.query, SentenceLimit(s.maxSentences), Uncompressed(s, chunks))
    else Uncompressed(s, chunks)
  }

  method SumOutput(kept: seq<Kept>) returns (sum: nat)
    ensures sum == OutputTokens(kept)
  {
    sum := 0;
    for i := 0 to |kept|
      invariant sum == OutputTokens(kept[..i])
    {
      assert kept[..i + 1][..i] == kept[..i];
      sum := sum + kept[i].outputTokens;
    }
    assert kept[..|kept|] == kept;
  }

  method CountNearDuplicates(dropped: seq<Dropped>) returns (count: nat)
    ensures count == NearDuplicates(dropped)
  {
    count := 0;
    for i := 0 to |dropped|
      invariant count == NearDuplicates(dropped[..i])
    {
      assert dropped[..i + 1][..i] == dropped[..i];
      if dropped[i].reason.NearDuplicate? { count := count + 1; }
    }
    assert dropped[..|dropped|] == dropped;
  }

  method CompressOutcome(text: Text, query: set<string>, limit: nat, result: Outcome) returns (r: Outcome)
    ensures r == Recompress(text, query, limit, result)
  {
    hide CompressAll, Percent, OutputTokens, Compressed;
    var chunks, savings := ApplyExtractiveCompression(text, query, limit, result.optimized);
    var outputTokens := SumOutput(chunks);
    var saved := if result.inputTokens > outputTokens then result.inputTokens - outputTokens else 0;
    r := result.(optimized := chunks, outputTokens := outputTokens, savedTokens := saved,
                 reductionPct := Percent(saved, result.inputTokens), savings := savings);
  }

  /** Ranking, then freshness, each with its metrics. */
  method RankAndDate(s: Settings, kept: seq<Kept>) returns (dated: seq<Kept>, ranking: RankMetrics, freshness: FreshMetrics)
    ensures dated == BeforeConflicts(s, kept) && ranking == RankingMetrics(s, kept)
    ensures freshness == FreshnessMetrics(s, RankedChunks(s, kept))
  {
    hide RankStage, RankStageMetrics, FreshStage, DatedScores, Freshness.MetricsOf;
    dated, ranking, freshness := kept, NoRanking, FreshMetrics(None, 0);
    if s.lexical { dated, ranking := ApplyLexicalRanking(s.text, s.query, kept, Unit(s.minRelevance)); }
    if s.dates.Some? { dated, freshness := ApplyFreshness(s.dates.value, dated); }
  }

  method OptimizeContextChunks(s: Settings, chunks: seq<Chunk>) returns (r: Outcome)
    ensures r == Optimized(s, chunks)
  {
    hide Run, RankedChunks, RankingMetrics, BeforeConflicts, FreshnessMetrics, MarkAll, Reported, Named, Recompress,
         Percent, NearDuplicates, OutputTokens;
    var objects, dropped, inputTokens := DedupeChunks(s.text, s.semantic, Threshold(s.threshold), chunks);
    var unique := Views(objects);
    var kept, ranking, freshness := RankAndDate(s, unique);
    var conflicts: seq<Conflict>, conflictChunks := [], 0;
    NoneNamedAtAll();
    if s.rules.Some? && |kept| >= 2 {
      kept, conflicts, conflictChunks := ApplyConflictDetection(s.rules.value, kept);
    }
    var outputTokens := SumOutput(kept);
    var saved := if inputTokens > outputTokens then inputTokens - outputTokens else 0;
    var nearDuplicates := CountNearDuplicates(dropped);
    r := Outcome(kept, dropped, conflicts, |chunks|, |unique|, nearDuplicates, ranking, freshness, conflictChunks,
                 inputTokens, outputTokens, saved, Percent(saved, inputTokens), NoSavings);
    if s.compress { r := CompressOutcome(s.text, s.query, SentenceLimit(s.maxSentences), r); }
  }

  lemma NoneNamedAtAll()
    ensures Named([]) == {}
  {
  }

  // ---------------------------------------------------------------- rearranging

  lemma {:induction false} RemoveAt(kept: seq<Kept>, at: nat)
    requires at < |kept|
    ensures var rest := kept[..at] + kept[at + 1..];
            Sources(kept) == Sources(rest) + multiset(kept[at].sourceIds)
            && OutputTokens(kept) == OutputTokens(rest) + kept[at].outputTokens
  {
    hide Sources, OutputTokens;
    var n := |kept| - 1;
    var front, rest := kept[..n], kept[..at] + kept[at + 1..];
    assert kept == front + [kept[n]];
    SourcesSnoc(front, kept[n]);
    if at < n {
      var rest' := front[..at] + front[at + 1..];
      RemoveAt(front, at);
      assert rest == rest' + [kept[n]];
      SourcesSnoc(rest', kept[n]);
    } else {
      assert rest == front;
    }
  }

  /** Sources and tokens do not depend on the order of the list. */
  lemma {:induction false} OrderIrrelevant(a: seq<Kept>, b: seq<Kept>)
    requires multiset(a) == multiset(b)
    ensures Sources(a) == Sources(b) && OutputTokens(a) == OutputTokens(b)
  {
    if a == [] {
      assert |multiset(b)| == 0;
    } else {
      var at := TakeOne(a, b);
      RemoveAt(b, at);
      OrderIrrelevant(a[..|a| - 1], b[..at] + b[at + 1..]);
    }
  }

  lemma {:induction false} RearrangeByMultiset(items: seq<Kept>, a: seq<nat>, b: seq<nat>)
    requires Indices(a, |items|) && Indices(b, |items|) && multiset(a) == multiset(b)
    ensures multiset(Rearrange(items, a)) == multiset(Rearrange(items, b))
  {
    if a == [] {
      assert |multiset(b)| == 0;
    } else {
      var n := |a| - 1;
      var at := TakeOne(a, b);
      var rest := b[..at] + b[at + 1..];
      RearrangeByMultiset(items, a[..n], rest);
      WithoutAt(Rearrange(items, a), n);
      WithoutAt(Rearrange(items, b), at);
      var x, y := Rearrange(items, a), Rearrange(items, b);
      assert x[..n] + x[n + 1..] == Rearrange(items, a[..n]);
      assert y[..at] + y[at + 1..] == Rearrange(items, rest);
    }
  }

  /** Ranking loses nothing and adds nothing. */
  lemma RankedIsRearranged(kept: seq<Kept>, scores: seq<real>)
    requires |scores| == |kept|
    ensures multiset(RankBy(kept, scores)) == multiset(WithRelevance(kept, scores))
    ensures |RankBy(kept, scores)| == |kept|
  {
    hide Ranked;
    RankedFacts(scores);
    var items := WithRelevance(kept, scores);
    RearrangeByMultiset(items, Ranked(scores), Upto(|scores|));
    assert Rearrange(items, Upto(|scores|)) == items;
  }

  /** Lists that agree on sources and tokens, entry by entry. */
  ghost predicate SameLoad(a: seq<Kept>, b: seq<Kept>) {
    |a| == |b| && forall i :: 0 <= i < |a| ==> a[i].sourceIds == b[i].sourceIds && a[i].outputTokens == b[i].outputTokens
  }

  lemma {:induction false} SameLoadSums(a: seq<Kept>, b: seq<Kept>)
    requires SameLoad(a, b)
    ensures Sources(a) == Sources(b) && OutputTokens(a) == OutputTokens(b)
  {
    if a != [] { SameLoadSums(a[..|a| - 1], b[..|b| - 1]); }
  }

  lemma RankKeepsLoad(text: Text, query: set<string>, kept: seq<Kept>)
    ensures var out := RankStage(text, query, kept);
            |out| == |kept| && Sources(out) == Sources(kept) && OutputTokens(out) == OutputTokens(kept)
  {
    hide RankBy, LexicalScore;
    if query != {} && kept != [] {
      var scores := LexicalScores(text, query, kept);
      RankedIsRearranged(kept, scores);
      OrderIrrelevant(RankBy(kept, scores), WithRelevance(kept, scores));
      SameLoadSums(WithRelevance(kept, scores), kept);
    }
  }

  lemma ConflictKeepsLoad(rules: Option<Rules>, kept: seq<Kept>)
    ensures SameLoad(ConflictStage(rules, kept).0, kept)
  {
    hide Reported, Naming, MaxScore;
  }

  lemma BeforeCompressionKeepsLoad(s: Settings, kept: seq<Kept>)
    ensures var out := BeforeCompression(s, kept).0;
            |out| == |kept| && Sources(out) == Sources(kept) && OutputTokens(out) == OutputTokens(kept)
  {
    hide RankStage, ConflictStage, Sources, OutputTokens;
    RankKeepsLoad(s.text, s.query, kept);
    var ranked, dated := RankedChunks(s, kept), BeforeConflicts(s, kept);
    SameLoadSums(dated, ranked);
    ConflictKeepsLoad(s.rules, dated);
    SameLoadSums(BeforeCompression(s, kept).0, dated);
  }

  // ---------------------------------------------------------------- main results

  lemma {:induction false} CompressAllKeepsSources(text: Text, query: set<string>, limit: nat, kept: seq<Kept>)
    ensures Sources(CompressAll(text, query, limit, kept)) == Sources(kept)
  {
    if kept != [] {
      var n := |kept| - 1;
      hide Sentences.Split, Extract;
      CompressAllKeepsSources(text, query, limit, kept[..n]);
      assert CompressAll(text, query, limit, kept)[..n] == CompressAll(text, query, limit, kept[..n]);
    }
  }

  /** With distinct ids every input chunk is accounted for, once, under exactly one chunk of the
      final result, whatever stages are on. */
  lemma NothingIsLost(s: Settings, chunks: seq<Chunk>)
    requires DistinctIds(chunks)
    ensures var r := Optimized(s, chunks);
            (forall id :: Sources(r.optimized)[id] == if Listed(chunks, id) then 1 else 0)
            && r.inputChunks == r.outputChunks + |r.dropped| && |r.optimized| == r.outputChunks
  {
    hide Run, BeforeCompression, CompressAll, Listed, Compressed;
    var st := Run(s.text, s.semantic, Threshold(s.threshold), chunks);
    SourcesPartitionInput(s.text, s.semantic, Threshold(s.threshold), chunks);
    BeforeCompressionKeepsLoad(s, st.kept);
    CompressAllKeepsSources(s.text, s.query, SentenceLimit(s.maxSentences), BeforeCompression(s, st.kept).0);
  }

  /** Three sentences unless asked for another number, of which the whole part counts between 1 and 8. */
  lemma SentenceLimitIs(n: Option<real>)
    ensures match n
            case None => SentenceLimit(n) == 3
            case Some(asked) =>
              SentenceLimit(n) == if asked < 2.0 then 1 else if asked < 3.0 then 2 else if asked < 4.0 then 3
                                  else if asked < 5.0 then 4 else if asked < 6.0 then 5 else if asked < 7.0 then 6
                                  else if asked < 8.0 then 7 else 8
  {
  }

  /** With lexical ranking, lowRelevanceChunks counts the chunks scoring below the minimum asked for, held
      between 0 and 1. */
  lemma LowRelevanceIs(s: Settings, chunks: seq<Chunk>)
    requires s.lexical && s.query != {}
    ensures var scores := LexicalScores(s.text, s.query, Run(s.text, s.semantic, Threshold(s.threshold), chunks).kept);
            var least := if s.minRelevance < 0.0 then 0.0 else if s.minRelevance > 1.0 then 1.0 else s.minRelevance;
            Optimized(s, chunks).ranking.lowRelevance == |set i | 0 <= i < |scores| && scores[i] < least|
  {
    hide Run, LexicalScores, Below, Optimized;
    var scores := LexicalScores(s.text, s.query, Run(s.text, s.semantic, Threshold(s.threshold), chunks).kept);
    RankingReported(s, chunks);
    BelowCounts(scores, Unit(s.minRelevance));
    assert scores == [] ==> Below(scores, Unit(s.minRelevance)) == 0 by { NoneBelow(Unit(s.minRelevance)); }
  }

  lemma RankingReported(s: Settings, chunks: seq<Chunk>)
    ensures Optimized(s, chunks).ranking
            == RankingMetrics(s, Run(s.text, s.semantic, Threshold(s.threshold), chunks).kept)
  {
    hide Run, RankingMetrics, BeforeCompression;
  }

  lemma NoneBelow(least: real)
    ensures Below([], least) == 0
  {
  }

  /** The counts of a result: the chunks that came in and those that went out, each of the others
      dropped once; the near duplicates among these; and the share of the tokens saved. */
  lemma CountsAddUp(s: Settings, chunks: seq<Chunk>)
    ensures var r := Optimized(s, chunks);
            r.inputChunks == |chunks| && r.outputChunks == |r.optimized|
            && r.inputChunks == r.outputChunks + |r.dropped|
            && r.nearDuplicates == |set k | 0 <= k < |r.dropped| && r.dropped[k].reason.NearDuplicate?|
            && if r.inputTokens == 0 then r.reductionPct == 0.0
               else
                 (r.reductionPct - 0.005) * r.inputTokens as real <= 100.0 * r.savedTokens as real
                 <= (r.reductionPct + 0.005) * r.inputTokens as real
  {
    hide Run, BeforeCompression, CompressAll, Compressed, NearDuplicates, OutputTokens, Percent;
    var st := Run(s.text, s.semantic, Threshold(s.threshold), chunks);
    var r := Optimized(s, chunks);
    StagesKeepSize(s, st.kept);
    EachKeptOrDropped(s.text, s.semantic, Threshold(s.threshold), chunks);
    NearAreCounted(st.dropped);
    PercentIs(r.savedTokens, r.inputTokens);
  }

  lemma StagesKeepSize(s: Settings, kept: seq<Kept>)
    ensures |BeforeCompression(s, kept).0| == |kept|
  {
    var from := StageOrigins(s, kept);
  }

  lemma {:induction false} EachKeptOrDropped(text: Text, semantic: bool, threshold: real, chunks: seq<Chunk>)
    ensures var st := Run(text, semantic, threshold, chunks); |chunks| == |st.kept| + |st.dropped|
  {
    if chunks != [] { EachKeptOrDropped(text, semantic, threshold, chunks[..|chunks| - 1]); }
  }

  lemma {:induction false} NearAreCounted(dropped: seq<Dropped>)
    ensures NearDuplicates(dropped) == |set k | 0 <= k < |dropped| && dropped[k].reason.NearDuplicate?|
  {
    var near := set k | 0 <= k < |dropped| && dropped[k].reason.NearDuplicate?;
    if dropped == [] {
      assert near == {};
    } else {
      var n := |dropped| - 1;
      var before := set k | 0 <= k < n && dropped[..n][k].reason.NearDuplicate?;
      NearAreCounted(dropped[..n]);
      assert near == before + if dropped[n].reason.NearDuplicate? then {n} else {};
    }
  }

  /** The tokens saved are those of the dropped chunks plus those compression cut; the floors at
      zero never act. */
  lemma SavingsAddUp(s: Settings, chunks: seq<Chunk>)
    ensures var r := Optimized(s, chunks);
            r.inputTokens == InputTokens(chunks)
            && r.outputTokens == OutputTokens(r.optimized)
            && r.inputTokens == r.outputTokens + r.savedTokens
            && r.savedTokens == DroppedTokens(r.dropped) + r.savings.savedTokens
            && r.savings.savedTokens == OutputTokens(Uncompressed(s, chunks).optimized) - r.outputTokens
  {
    hide Run, BeforeCompression, CompressAll, Compressed;
    var st := Run(s.text, s.semantic, Threshold(s.threshold), chunks);
    TokensConserved(s.text, s.semantic, Threshold(s.threshold), chunks);
    BeforeCompressionKeepsLoad(s, st.kept);
    NeverGrows(s.text, s.query, SentenceLimit(s.maxSentences), BeforeCompression(s, st.kept).0);
  }

  // ---------------------------------------------------------------- what each result chunk is

  /** The same chunk of text as one the dedupe loop kept. */
  predicate SameText(a: Kept, b: Kept) { a.id == b.id && a.content == b.content && a.outputTokens == b.outputTokens }

  ghost predicate Origins(from: seq<nat>, out: seq<Kept>, kept: seq<Kept>) {
    |from| == |out| == |kept| && Indices(from, |kept|)
    && (forall i, j :: 0 <= i < j < |from| ==> from[i] != from[j])
    && forall i :: 0 <= i < |out| ==> SameText(out[i], kept[from[i]])
  }

  lemma RankOrigins(text: Text, query: set<string>, kept: seq<Kept>) returns (from: seq<nat>)
    ensures Origins(from, RankStage(text, query, kept), kept)
    ensures forall i :: 0 <= i < |from| ==> RankStage(text, query, kept)[i].conflict == kept[from[i]].conflict
  {
    hide Ranked, LexicalScore;
    if query == {} || kept == [] {
      from := Upto(|kept|);
    } else {
      var scores := LexicalScores(text, query, kept);
      RankedFacts(scores);
      from := Ranked(scores);
      forall i, j | 0 <= i < j < |from| ensures from[i] != from[j] {
        assert Before(scores, from[i], from[j]);
      }
    }
  }

  lemma StageOrigins(s: Settings, kept: seq<Kept>) returns (from: seq<nat>)
    ensures Origins(from, BeforeCompression(s, kept).0, kept)
  {
    hide RankStage, Reported, Naming, MaxScore;
    if s.lexical { from := RankOrigins(s.text, s.query, kept); } else { from := Upto(|kept|); }
  }

  /** Ranking, staleness and conflicts cannot bring duplicates back: in semantic mode the result
      before compression has no two chunks reaching the threshold, in either order. */
  lemma ResultHasNoNearDuplicates(s: Settings, chunks: seq<Chunk>, i: nat, j: nat)
    requires DistinctIds(chunks) && s.semantic
    requires i < |Uncompressed(s, chunks).optimized| && j < |Uncompressed(s, chunks).optimized| && i != j
    ensures var a, b := Uncompressed(s, chunks).optimized[i], Uncompressed(s, chunks).optimized[j];
            Similarity.Score(s.text.tokens(a.content), s.text.tokens(b.content))
            < if s.threshold < 0.5 then 0.5 else if s.threshold > 1.0 then 1.0 else s.threshold
  {
    hide Run, BeforeCompression, Similarity.Score;
    var from := StageOrigins(s, Run(s.text, s.semantic, Threshold(s.threshold), chunks).kept);
    assert from[i] != from[j];
    KeptChunksAreDissimilar(s.text, Threshold(s.threshold), chunks, from[i], from[j]);
  }

  /** What semantic mode does with the threshold asked for: used as it is from 0.5 to 1, taken as 0.5
      below and as 1 above. No two chunks of the result before compression reach it in either order;
      every near-duplicate drop records the similarity of the dropped text to the kept one it names,
      and that reaches it. */
  lemma RequestedThresholdHolds(s: Settings, chunks: seq<Chunk>)
    requires DistinctIds(chunks) && s.semantic
    ensures var t := (if s.threshold < 0.5 then 0.5 else if s.threshold > 1.0 then 1.0 else s.threshold);
            var r := Uncompressed(s, chunks);
            (forall i, j :: 0 <= i < |r.optimized| && 0 <= j < |r.optimized| && i != j ==>
               Similarity.Score(s.text.tokens(r.optimized[i].content), s.text.tokens(r.optimized[j].content)) < t)
            && (forall d :: d in r.dropped && d.reason.NearDuplicate? ==> d.reason.similarity >= t)
            && (forall d :: d in r.dropped ==>
                  Recorded(s.text, t, chunks, Run(s.text, true, t, chunks).kept, d))
  {
    var t := if s.threshold < 0.5 then 0.5 else if s.threshold > 1.0 then 1.0 else s.threshold;
    assert t == Threshold(s.threshold);
    var r := Uncompressed(s, chunks);
    DropsRecorded(s.text, true, t, chunks);
    var st := Run(s.text, true, t, chunks);
    assert r.dropped == st.dropped;
    forall i: nat, j: nat | i < |r.optimized| && j < |r.optimized| && i != j
      ensures Similarity.Score(s.text.tokens(r.optimized[i].content), s.text.tokens(r.optimized[j].content)) < t
    {
      ResultHasNoNearDuplicates(s, chunks, i, j);
    }
    hide Run, Similarity.Score, BeforeCompression;
    forall d | d in r.dropped ensures Recorded(s.text, t, chunks, st.kept, d) {
      var k :| 0 <= k < |st.dropped| && st.dropped[k] == d;
    }
  }

  /** Of two chunks in semantic mode, with different exact keys, the second is kept exactly when the
      two stay below the threshold asked for. */
  lemma SecondKeptIff(s: Settings, c: Chunk, d: Chunk)
    requires s.semantic && 0.5 <= s.threshold <= 1.0 && c.id != d.id && s.text.key(c.content) != s.text.key(d.content)
    ensures |Uncompressed(s, [c, d]).optimized| == 2
            <==> Similarity.Score(s.text.tokens(d.content), s.text.tokens(c.content)) < s.threshold
  {
    hide Run, Similarity.Score, BeforeCompression;
    SecondKept(s.text, Threshold(s.threshold), c, d);
    BeforeCompressionKeepsLoad(s, Run(s.text, true, Threshold(s.threshold), [c, d]).kept);
  }

  lemma ResultIsPriced(s: Settings, chunks: seq<Chunk>)
    ensures forall c :: c in Uncompressed(s, chunks).optimized ==> Estimated(c)
  {
    hide Run, BeforeCompression, EstimateTokens;
    var kept := Run(s.text, s.semantic, Threshold(s.threshold), chunks).kept;
    RunBooks(s.text, s.semantic, Threshold(s.threshold), chunks);
    var from := StageOrigins(s, kept);
    var out := Uncompressed(s, chunks).optimized;
    forall c | c in out ensures Estimated(c) {
      var i :| 0 <= i < |out| && out[i] == c;
      assert SameText(out[i], kept[from[i]]);
    }
  }

  /** A chunk of the final result is shorter than what was kept exactly when it had more sentences
      than the limit. */
  lemma CompressionActsExactlyWhenLong(s: Settings, chunks: seq<Chunk>, i: nat)
    requires s.compress && i < |Optimized(s, chunks).optimized|
    ensures |Uncompressed(s, chunks).optimized| == |Optimized(s, chunks).optimized|
    ensures var before, after := Uncompressed(s, chunks).optimized[i], Optimized(s, chunks).optimized[i];
            if |Sentences.Split(before.content)| > SentenceLimit(s.maxSentences) then
              after.outputTokens < before.outputTokens
            else after == before
  {
    hide Uncompressed, CompressChunk;
    ResultIsPriced(s, chunks);
    var before := Uncompressed(s, chunks).optimized[i];
    assert Estimated(before);
    CompressionAlwaysShrinks(s.text, s.query, SentenceLimit(s.maxSentences), before);
  }

  /** Compressing a compressed result again, with any query and at least the same limit, changes no
      chunk and saves nothing more. */
  lemma RecompressingSavesNothing(s: Settings, chunks: seq<Chunk>, again: set<string>, limit: nat)
    requires s.compress && SentenceLimit(s.maxSentences) <= limit
    ensures var r := Optimized(s, chunks);
            var r' := Recompress(s.text, again, limit, r);
            r'.optimized == r.optimized && r'.savings.savedTokens == 0 && r'.savedTokens == r.savedTokens
  {
    hide Uncompressed, CompressChunk;
    ResultIsPriced(s, chunks);
    var first := SentenceLimit(s.maxSentences);
    var before := Uncompressed(s, chunks).optimized;
    var r := Optimized(s, chunks);
    var r' := Recompress(s.text, again, limit, r);
    forall i | 0 <= i < |before| ensures r'.optimized[i] == r.optimized[i] {
      assert Estimated(before[i]);
      CompressionIsIdempotent(s.text, s.query, again, first, limit, before[i]);
    }
    assert r'.optimized == r.optimized;
  }

  // ---------------------------------------------------------------- conflicts in the pipeline

  lemma {:induction false} Unmarked(text: Text, semantic: bool, threshold: real, chunks: seq<Chunk>)
    ensures forall k :: k in Run(text, semantic, threshold, chunks).kept ==> !k.conflict
  {
    if chunks != [] {
      hide NearMatch, EstimateTokens, Similarities;
      Unmarked(text, semantic, threshold, chunks[..|chunks| - 1]);
    }
  }

  lemma StagesKeepFlags(s: Settings, kept: seq<Kept>) returns (from: seq<nat>)
    ensures Origins(from, BeforeConflicts(s, kept), kept)
    ensures forall i :: 0 <= i < |from| ==> BeforeConflicts(s, kept)[i].conflict == kept[from[i]].conflict
  {
    hide RankStage;
    if s.lexical { from := RankOrigins(s.text, s.query, kept); } else { from := Upto(|kept|); }
  }

  /** With distinct input ids conflict detection runs on distinct, unmarked chunks, so its exactness
      results hold of every optimization. */
  lemma ConflictsRunOnDistinctChunks(s: Settings, chunks: seq<Chunk>)
    requires DistinctIds(chunks)
    ensures var input := BeforeConflicts(s, Run(s.text, s.semantic, Threshold(s.threshold), chunks).kept);
            DistinctChunks(input) && (forall i :: 0 <= i < |input| ==> !input[i].conflict)
            && (s.rules.Some? && |input| >= 2 ==> Optimized(s, chunks).conflicts == Reported(s.rules.value, input))
  {
    hide BeforeConflicts, Reported, CompressAll, MarkAll;
    var kept := Run(s.text, s.semantic, Threshold(s.threshold), chunks).kept;
    RunShape(s.text, s.semantic, Threshold(s.threshold), chunks);
    Unmarked(s.text, s.semantic, Threshold(s.threshold), chunks);
    hide Run;
    var from := StagesKeepFlags(s, kept);
    var input := BeforeConflicts(s, kept);
    forall i, j | 0 <= i < j < |input| ensures input[i].id != input[j].id {
      assert from[i] != from[j];
      assert SameText(input[i], kept[from[i]]) && SameText(input[j], kept[from[j]]);
    }
    forall i | 0 <= i < |input| ensures !input[i].conflict {
      assert kept[from[i]] in kept;
    }
  }
}
