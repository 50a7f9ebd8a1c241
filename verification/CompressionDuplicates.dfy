/** When compression makes chunks alike that deduplication had kept apart (context/optimizer.ts,
    compressChunkExtractively after optimizeContextChunks): the exact condition, and an input. */
module CompressionDuplicates {
  import opened Options
  import opened Arithmetic
  import opened Ranking
  import opened Sentences
  import Similarity
  import Tokens
  import opened Dedupe
  import opened DedupeProofs
  import opened Compression
  import opened Optimizer

  // ---------------------------------------------------------------- what is left of a chunk

  predicate Long(limit: nat, chunk: Dedupe.Kept) { |Split(chunk.content)| > limit }

  /** The sentences a long chunk keeps, in order. */
  function KeptSentences(text: Text, query: set<string>, limit: nat, chunk: Dedupe.Kept): seq<string>
    requires Long(limit, chunk)
  {
    TopKFacts(Scores(text, query, chunk), limit);
    Select(Split(chunk.content), Chosen(text, query, limit, chunk))
  }

  lemma LongChunkLeaves(text: Text, query: set<string>, limit: nat, chunk: Dedupe.Kept)
    requires 1 <= limit <= 8 && Estimated(chunk) && Long(limit, chunk)
    ensures var left := KeptSentences(text, query, limit, chunk);
            CompressChunk(text, query, limit, chunk).content == Join(left) && Split(Join(left)) == left && ProperList(left)
  {
    hide Split, TopK, Scores, Join, Before, ProperList, Proper, IsSpace;
    CompressionAlwaysShrinks(text, query, limit, chunk);
    TopKFacts(Scores(text, query, chunk), limit);
    ResplitSelection(chunk.content, Chosen(text, query, limit, chunk));
    SplitShape(chunk.content);
    assert ProperList(Split(chunk.content));
    SelectProper(Split(chunk.content), Chosen(text, query, limit, chunk));
  }

  lemma ShortChunkStays(text: Text, query: set<string>, limit: nat, chunk: Dedupe.Kept)
    requires !Long(limit, chunk)
    ensures CompressChunk(text, query, limit, chunk) == chunk
  {
  }

  // ---------------------------------------------------------------- equal texts

  /** A text that is nothing but its own sentences, joined, and these are `sentences`. */
  predicate IsJust(content: string, sentences: seq<string>) {
    Split(content) == sentences && content == Join(Split(content))
  }

  /** Two chunks come out of compression with equal text exactly when both are long and keep the same
      sentences, or one is short and consists of just the sentences the other keeps, or both are
      short and were equal already. */
  lemma CompressedEqualIff(text: Text, query: set<string>, limit: nat, x: Dedupe.Kept, y: Dedupe.Kept)
    requires 1 <= limit <= 8 && Estimated(x) && Estimated(y)
    ensures CompressChunk(text, query, limit, x).content == CompressChunk(text, query, limit, y).content
            <==> if Long(limit, x) && Long(limit, y) then
                   KeptSentences(text, query, limit, x) == KeptSentences(text, query, limit, y)
                 else if Long(limit, x) then IsJust(y.content, KeptSentences(text, query, limit, x))
                 else if Long(limit, y) then IsJust(x.content, KeptSentences(text, query, limit, y))
                 else x.content == y.content
  {
    hide Split, Join, CompressChunk, KeptSentences, ProperList;
    if Long(limit, x) { LongChunkLeaves(text, query, limit, x); } else { ShortChunkStays(text, query, limit, x); }
    if Long(limit, y) { LongChunkLeaves(text, query, limit, y); } else { ShortChunkStays(text, query, limit, y); }
  }

  // ---------------------------------------------------------------- similar texts

  function TokensOf(text: Text, sentences: seq<string>): set<string> {
    if sentences == [] then {} else text.tokens(sentences[0]) + TokensOf(text, sentences[1..])
  }

  /** Tokens never span the space between two sentences. */
  ghost predicate TokenLaw(text: Text) {
    forall s :: ProperList(s) ==> text.tokens(Join(s)) == TokensOf(text, s)
  }

  /** The source's tokens obey the law, however letters are lowered. */
  lemma TokenSetObeysLaw(key: string -> string, lower: char -> string)
    requires lower(' ') == " "
    ensures TokenLaw(Text(key, (content: string) => Tokens.TokenSet(lower, content)))
  {
    hide Join, ProperList, Tokens.TokenSet;
    var text := Text(key, (content: string) => Tokens.TokenSet(lower, content));
    forall s | ProperList(s) ensures text.tokens(Join(s)) == TokensOf(text, s) {
      Tokens.TokensOfJoin(lower, s);
      SameTokens(text, lower, s);
    }
  }

  lemma {:induction false} SameTokens(text: Text, lower: char -> string, s: seq<string>)
    requires forall content :: text.tokens(content) == Tokens.TokenSet(lower, content)
    ensures TokensOf(text, s) == Tokens.TokensOfAll(lower, s)
  {
    hide Tokens.TokenSet;
    if s != [] { SameTokens(text, lower, s[1..]); }
  }

  /** The tokens left: those of the chosen sentences, or all of them for a short chunk. */
  function TokensAfter(text: Text, query: set<string>, limit: nat, chunk: Dedupe.Kept): set<string> {
    if Long(limit, chunk) then TokensOf(text, KeptSentences(text, query, limit, chunk)) else text.tokens(chunk.content)
  }

  lemma TokensAreTokensAfter(text: Text, query: set<string>, limit: nat, chunk: Dedupe.Kept)
    requires 1 <= limit <= 8 && Estimated(chunk) && TokenLaw(text)
    ensures text.tokens(CompressChunk(text, query, limit, chunk).content) == TokensAfter(text, query, limit, chunk)
  {
    hide Split, Join, CompressChunk, KeptSentences, ProperList, TokensOf;
    if Long(limit, chunk) { LongChunkLeaves(text, query, limit, chunk); } else { ShortChunkStays(text, query, limit, chunk); }
  }

  /** Enough in common, by count and by overlap coefficient, to be near duplicates. */
  predicate Overlapping(threshold: real, a: set<string>, b: set<string>) {
    |a * b| >= 3 && Min(|a|, |b|) > 0 && Round4(|a * b| as real / Min(|a|, |b|) as real) >= threshold
  }

  lemma ScoreReachesIff(threshold: real, a: set<string>, b: set<string>)
    requires threshold > 0.0
    ensures Similarity.Score(a, b) >= threshold <==> Overlapping(threshold, a, b)
  {
    hide Round4;
    Similarity.OverlapDecides(a, b);
    Similarity.SharedBounds(a, b);
  }

  /** A pair of the final result is a near duplicate exactly when the tokens of the sentences left
      overlap enough; for a pair deduplication had kept apart, only if one of the two was long. */
  lemma ResultPairNearIff(s: Settings, chunks: seq<Chunk>, i: nat, j: nat)
    requires s.compress && s.semantic && DistinctIds(chunks) && TokenLaw(s.text)
    requires i < |Uncompressed(s, chunks).optimized| && j < |Uncompressed(s, chunks).optimized| && i != j
    ensures |Optimized(s, chunks).optimized| == |Uncompressed(s, chunks).optimized|
    ensures var before, after := Uncompressed(s, chunks).optimized, Optimized(s, chunks).optimized;
            var limit := SentenceLimit(s.maxSentences);
            var t := if s.threshold < 0.5 then 0.5 else if s.threshold > 1.0 then 1.0 else s.threshold;
            var near := Similarity.Score(s.text.tokens(after[i].content), s.text.tokens(after[j].content)) >= t;
            (near <==> Overlapping(t, TokensAfter(s.text, s.query, limit, before[i]),
                                   TokensAfter(s.text, s.query, limit, before[j])))
            && (near ==> Long(limit, before[i]) || Long(limit, before[j]))
  {
    hide Uncompressed, CompressChunk, TokensAfter, Overlapping, Similarity.Score, Long, TokenLaw, Compressed;
    var before := Uncompressed(s, chunks).optimized;
    var limit := SentenceLimit(s.maxSentences);
    ResultIsPriced(s, chunks);
    assert Estimated(before[i]) && Estimated(before[j]);
    ResultHasNoNearDuplicates(s, chunks, i, j);
    TokensAreTokensAfter(s.text, s.query, limit, before[i]);
    TokensAreTokensAfter(s.text, s.query, limit, before[j]);
    ScoreReachesIff(Threshold(s.threshold), TokensAfter(s.text, s.query, limit, before[i]),
                    TokensAfter(s.text, s.query, limit, before[j]));
    if !Long(limit, before[i]) { ShortChunkStays(s.text, s.query, limit, before[i]); }
    if !Long(limit, before[j]) { ShortChunkStays(s.text, s.query, limit, before[j]); }
  }

  // ---------------------------------------------------------------- it happens

  lemma SplitsBack(s: seq<string>)
    requires ProperList(s) && s != [] && |s| <= MAX_SENTENCES
    ensures Split(Join(s)) == s
  {
    hide IsSpace, Matches, Sentences.Kept, Stop;
    JoinTidy(s);
    TidyFixed(Join(s));
    SplitJoin(s);
  }

  /** Two sentences, the second holding the whole query and the first nothing of it: limited to one
      sentence, the chunk is compressed to the second. */
  lemma ReducedToMatch(text: Text, query: set<string>, lead: string, answer: string, chunk: Dedupe.Kept)
    requires ProperList([lead, answer]) && chunk.content == Join([lead, answer]) && Estimated(chunk)
    requires query != {} && text.tokens(answer) == query && text.tokens(lead) !! query
    ensures CompressChunk(text, query, 1, chunk).content == answer
  {
    hide Split, Join, TopK, Extract, IsSpace;
    SplitsBack([lead, answer]);
    CompressionAlwaysShrinks(text, query, 1, chunk);
    var scores := Scores(text, query, chunk);
    assert query * text.tokens(answer) == query && query * text.tokens(lead) == {};
    Whole(|query| as real);
    assert MatchScore(query, text.tokens(answer)) == 1.0 && MatchScore(query, text.tokens(lead)) == 0.0;
    assert scores[1] > scores[0];
    TopKFacts(scores, 1);
    var best := Chosen(text, query, 1, chunk);
    assert best == [best[0]] && best[0] < 2;
    assert 0 in best && 1 !in best ==> Before(scores, 0, 1);
    assert best == [1];
    ExtractOne(text, query, chunk, 1);
  }

  lemma Whole(n: real)
    requires n > 0.0
    ensures n / n == 1.0 && 0.0 / n == 0.0
  {
  }

  lemma ExtractOne(text: Text, query: set<string>, chunk: Dedupe.Kept, i: nat)
    requires 1 <= |Split(chunk.content)| && i < |Split(chunk.content)| && Chosen(text, query, 1, chunk) == [i]
    ensures Extract(text, query, 1, chunk) == Split(chunk.content)[i]
  {
    hide Split, TopK;
    var s := Split(chunk.content);
    assert Select(s, [i]) == [s[i]];
    assert Join([s[i]]) == s[i] + Tail([s[i]][1..]) == s[i];
  }

  /** Two leads with nothing in common and at least seven tokens each, and an answer of three tokens
      that is the query. */
  ghost predicate Apart(text: Text, query: set<string>, p: string, q: string, answer: string) {
    ProperList([p, answer]) && ProperList([q, answer]) && TokenLaw(text)
    && text.tokens(answer) == query && |query| == 3
    && text.tokens(p) !! query && text.tokens(q) !! query && text.tokens(p) !! text.tokens(q)
    && |text.tokens(p)| >= 7 && |text.tokens(q)| >= 7
  }

  lemma TokensOfTwo(text: Text, a: string, b: string)
    ensures TokensOf(text, [a, b]) == text.tokens(a) + text.tokens(b)
  {
    assert [a, b][1..] == [b] && [b][1..] == [];
    assert TokensOf(text, [b]) == text.tokens(b) + TokensOf(text, []);
  }

  /** Three tokens in ten: below every threshold. */
  lemma FarApart(text: Text, query: set<string>, p: string, q: string, answer: string)
    requires Apart(text, query, p, q, answer)
    ensures Similarity.Score(text.tokens(Join([p, answer])), text.tokens(Join([q, answer]))) < 0.5
  {
    hide Join, ProperList, Similarity.Score;
    var a, b := text.tokens(Join([p, answer])), text.tokens(Join([q, answer]));
    TokensOfTwo(text, p, answer);
    TokensOfTwo(text, q, answer);
    assert a == text.tokens(p) + query && b == text.tokens(q) + query;
    assert a * b == query;
    Similarity.OverlapDecides(a, b);
    var least := Min(|a|, |b|);
    assert least >= 10;
    Tenth(least);
  }

  lemma Tenth(n: int)
    requires n >= 10
    ensures Round4(3.0 / n as real) < 0.5
  {
    var f := 3.0 / n as real;
    assert f * n as real == 3.0;
    CancelFactor(f, 0.3, n as real);
    Round4Monotone(f, 0.3);
    assert (0.3 * 10000.0 + 0.5).Floor == 3000;
  }

  /** Only deduplication, by meaning, and compression to one sentence are on. */
  predicate Plain(s: Settings) {
    s.semantic && s.compress && !s.lexical && s.dates.None? && s.rules.None? && s.maxSentences == Some(1.0)
  }

  lemma BothKept(s: Settings, c: Chunk, d: Chunk)
    requires Plain(s) && c.id != d.id && s.text.key(c.content) != s.text.key(d.content)
    requires Similarity.Score(s.text.tokens(d.content), s.text.tokens(c.content)) < 0.5
    ensures Uncompressed(s, [c, d]).optimized == [NewKept(c), NewKept(d)]
  {
    hide Similarity.Score, EstimateTokens, Dedupe.Run, NearMatch;
    var t := Threshold(s.threshold);
    var all := [c, d];
    assert DistinctIds(all);
    assert all[..0] == [] && all[..1] == [c] && all[..2] == all;
    assert Dedupe.Run(s.text, true, t, []) == Start by { RunNone(s.text, true, t, all); }
    EachChunkDecided(s.text, true, t, all, 0);
    var one := Dedupe.Run(s.text, true, t, [c]);
    assert one == Keep(s.text, true, Start, c);
    EachChunkDecided(s.text, true, t, all, 1);
    assert Dedupe.Run(s.text, true, t, all) == Keep(s.text, true, one, d);
  }

  /** Compression can make duplicates: two chunks that deduplication keeps apart at every threshold
      leave the pipeline with one and the same text, similarity 1. Such are "Alpha bravo charlie
      delta echo golf hotel." and "India juliet kilo lima mike november oscar.", each followed by
      "Refund within thirty days.", for the query "refund within thirty days". */
  lemma CompressionCanMakeDuplicates(s: Settings, c: Chunk, d: Chunk, p: string, q: string, answer: string)
    requires Plain(s) && Apart(s.text, s.query, p, q, answer)
    requires c.id != d.id && s.text.key(c.content) != s.text.key(d.content)
    requires c.content == Join([p, answer]) && d.content == Join([q, answer])
    ensures var before, after := Uncompressed(s, [c, d]).optimized, Optimized(s, [c, d]).optimized;
            |before| == |after| == 2
            && Similarity.Score(s.text.tokens(before[0].content), s.text.tokens(before[1].content)) < 0.5
            && after[0].content == after[1].content == answer
            && Similarity.Score(s.text.tokens(after[0].content), s.text.tokens(after[1].content)) == 1.0
  {
    FarApart(s.text, s.query, p, q, answer);
    hide Similarity.Score, EstimateTokens, CompressChunk, Uncompressed, Join, ProperList, TokenLaw;
    Similarity.ScoreSymmetric(s.text.tokens(c.content), s.text.tokens(d.content));
    BothKept(s, c, d);
    ReducedToMatch(s.text, s.query, p, answer, NewKept(c));
    ReducedToMatch(s.text, s.query, q, answer, NewKept(d));
    assert SentenceLimit(Some(1.0)) == 1 by { assert 1.0.Floor == 1; }
    Similarity.ContainedScoresOne(s.query, s.query);
  }
}
