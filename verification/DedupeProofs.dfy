/** What deduplication guarantees (context/optimizer.ts, optimizeContextChunks): every input chunk
    ends up under exactly one kept chunk, tokens are conserved, and in semantic mode no two kept
    chunks are near duplicates. */
module DedupeProofs {
  import opened Options
  import opened BestMatch
  import opened Dedupe
  import Similarity

  predicate DistinctIds(chunks: seq<Chunk>) {
    forall i, j :: 0 <= i < j < |chunks| ==> chunks[i].id != chunks[j].id
  }

  // ---------------------------------------------------------------- sums and sources

  function Ids(chunks: seq<Chunk>): multiset<string> {
    if chunks == [] then multiset{} else Ids(chunks[..|chunks| - 1]) + multiset{chunks[|chunks| - 1].id}
  }

  /** Every id recorded under some kept chunk, with multiplicity. */
  function Sources(kept: seq<Kept>): multiset<string> {
    if kept == [] then multiset{} else Sources(kept[..|kept| - 1]) + multiset(kept[|kept| - 1].sourceIds)
  }

  function KeptTokens(kept: seq<Kept>): nat {
    if kept == [] then 0 else KeptTokens(kept[..|kept| - 1]) + kept[|kept| - 1].inputTokens
  }

  function OutputTokens(kept: seq<Kept>): nat {
    if kept == [] then 0 else OutputTokens(kept[..|kept| - 1]) + kept[|kept| - 1].outputTokens
  }

  function DroppedTokens(dropped: seq<Dropped>): nat {
    if dropped == [] then 0 else DroppedTokens(dropped[..|dropped| - 1]) + dropped[|dropped| - 1].inputTokens
  }

  function InputTokens(chunks: seq<Chunk>): nat {
    if chunks == [] then 0 else InputTokens(chunks[..|chunks| - 1]) + EstimateTokens(chunks[|chunks| - 1].content)
  }

  lemma {:induction false} AddSource(kept: seq<Kept>, at: nat, id: string)
    requires at < |kept|
    ensures var grown := kept[at := kept[at].(sourceIds := kept[at].sourceIds + [id])];
            Sources(grown) == Sources(kept) + multiset{id}
            && KeptTokens(grown) == KeptTokens(kept) && OutputTokens(grown) == OutputTokens(kept)
  {
    var n := |kept| - 1;
    var grown := kept[at := kept[at].(sourceIds := kept[at].sourceIds + [id])];
    if at < n {
      AddSource(kept[..n], at, id);
      assert grown[..n] == kept[..n][at := kept[at].(sourceIds := kept[at].sourceIds + [id])];
    } else {
      assert grown[..n] == kept[..n];
    }
  }

  lemma SourcesSnoc(kept: seq<Kept>, k: Kept)
    ensures Sources(kept + [k]) == Sources(kept) + multiset(k.sourceIds)
    ensures KeptTokens(kept + [k]) == KeptTokens(kept) + k.inputTokens
    ensures OutputTokens(kept + [k]) == OutputTokens(kept) + k.outputTokens
  {
    assert (kept + [k])[..|kept|] == kept;
  }

  // ---------------------------------------------------------------- bookkeeping, any mode

  /** A dropped chunk is on the source list of the kept chunk it is said to duplicate. */
  ghost predicate Filed(d: Dropped, kept: seq<Kept>) {
    exists i :: 0 <= i < |kept| && kept[i].id == d.duplicateOf && d.id in kept[i].sourceIds
  }

  ghost predicate Tally(chunks: seq<Chunk>, st: State) {
    Sources(st.kept) == Ids(chunks)
    && st.inputTokens == InputTokens(chunks)
    && st.inputTokens == KeptTokens(st.kept) + DroppedTokens(st.dropped)
    && OutputTokens(st.kept) == KeptTokens(st.kept)
  }

  ghost predicate Books(chunks: seq<Chunk>, st: State) {
    Tally(chunks, st)
    && |st.kept| + |st.dropped| == |chunks|
    && (forall i :: 0 <= i < |st.kept| ==>
          st.kept[i].sourceIds != [] && st.kept[i].sourceIds[0] == st.kept[i].id
          && st.kept[i].outputTokens == EstimateTokens(st.kept[i].content))
    && (forall d :: 0 <= d < |st.dropped| ==> Filed(st.dropped[d], st.kept))
  }

  lemma ChunksSnoc(chunks: seq<Chunk>, chunk: Chunk)
    ensures Ids(chunks + [chunk]) == Ids(chunks) + multiset{chunk.id}
    ensures InputTokens(chunks + [chunk]) == InputTokens(chunks) + EstimateTokens(chunk.content)
  {
    assert (chunks + [chunk])[..|chunks|] == chunks;
  }

  lemma DroppedSnoc(dropped: seq<Dropped>, d: Dropped)
    ensures DroppedTokens(dropped + [d]) == DroppedTokens(dropped) + d.inputTokens
  {
    assert (dropped + [d])[..|dropped|] == dropped;
  }

  lemma FoldKeepsTally(chunks: seq<Chunk>, st: State, chunk: Chunk, at: nat, reason: Reason)
    requires Tally(chunks, st) && at < |st.kept|
    ensures Tally(chunks + [chunk], Fold(st, chunk, at, reason))
  {
    hide EstimateTokens, Sources, Ids, InputTokens, OutputTokens, KeptTokens, DroppedTokens;
    AddSource(st.kept, at, chunk.id);
    ChunksSnoc(chunks, chunk);
    DroppedSnoc(st.dropped, Dropped(chunk.id, reason, st.kept[at].id, EstimateTokens(chunk.content)));
  }

  lemma KeepKeepsTally(text: Text, semantic: bool, chunks: seq<Chunk>, st: State, chunk: Chunk)
    requires Tally(chunks, st)
    ensures Tally(chunks + [chunk], Keep(text, semantic, st, chunk))
  {
    hide EstimateTokens, Sources, Ids, InputTokens, OutputTokens, KeptTokens, DroppedTokens;
    SourcesSnoc(st.kept, NewKept(chunk));
    ChunksSnoc(chunks, chunk);
  }

  lemma FoldKeepsFiled(st: State, chunk: Chunk, at: nat, reason: Reason)
    requires at < |st.kept|
    requires forall d :: 0 <= d < |st.dropped| ==> Filed(st.dropped[d], st.kept)
    ensures var st' := Fold(st, chunk, at, reason);
            forall d :: 0 <= d < |st'.dropped| ==> Filed(st'.dropped[d], st'.kept)
  {
    hide EstimateTokens;
    var st' := Fold(st, chunk, at, reason);
    forall d | 0 <= d < |st'.dropped| ensures Filed(st'.dropped[d], st'.kept) {
      if d < |st.dropped| {
        var j :| 0 <= j < |st.kept| && st.kept[j].id == st.dropped[d].duplicateOf
              && st.dropped[d].id in st.kept[j].sourceIds;
        assert st'.kept[j].id == st.kept[j].id && st'.dropped[d].id in st'.kept[j].sourceIds;
      } else {
        assert st'.kept[at].id == st'.dropped[d].duplicateOf && st'.dropped[d].id in st'.kept[at].sourceIds;
      }
    }
  }

  lemma FoldKeepsBooks(chunks: seq<Chunk>, st: State, chunk: Chunk, at: nat, reason: Reason)
    requires Books(chunks, st) && at < |st.kept|
    ensures Books(chunks + [chunk], Fold(st, chunk, at, reason))
  {
    hide EstimateTokens, Filed, Tally;
    FoldKeepsTally(chunks, st, chunk, at, reason);
    FoldKeepsFiled(st, chunk, at, reason);
  }

  lemma KeepKeepsBooks(text: Text, semantic: bool, chunks: seq<Chunk>, st: State, chunk: Chunk)
    requires Books(chunks, st)
    ensures Books(chunks + [chunk], Keep(text, semantic, st, chunk))
  {
    hide EstimateTokens, Tally;
    var st' := Keep(text, semantic, st, chunk);
    KeepKeepsTally(text, semantic, chunks, st, chunk);
    forall i | 0 <= i < |st'.dropped| ensures Filed(st'.dropped[i], st'.kept) {
      var j :| 0 <= j < |st.kept| && st.kept[j].id == st.dropped[i].duplicateOf
            && st.dropped[i].id in st.kept[j].sourceIds;
      assert st'.kept[j] == st.kept[j];
    }
  }

  lemma {:induction false} RunBooks(text: Text, semantic: bool, threshold: real, chunks: seq<Chunk>)
    ensures Books(chunks, Run(text, semantic, threshold, chunks))
  {
    if chunks != [] {
      hide Books, Fold, Keep, NearMatch, EstimateTokens, Similarities;
      var front, chunk := chunks[..|chunks| - 1], chunks[|chunks| - 1];
      var st := Run(text, semantic, threshold, front);
      RunBooks(text, semantic, threshold, front);
      assert chunks == front + [chunk];
      var key := text.key(chunk.content);
      var near := if semantic then NearMatch(text, threshold, st, chunk) else None;
      if key in st.seen {
        FoldKeepsBooks(front, st, chunk, st.seen[key], Duplicate);
      } else if near.Some? {
        var sims := Similarities(st.kept, st.prints, text.tokens(chunk.content));
        FoldKeepsBooks(front, st, chunk, near.value, NearDuplicate(sims[near.value].value));
      } else {
        KeepKeepsBooks(text, semantic, front, st, chunk);
      }
    }
  }

  // ---------------------------------------------------------------- the kept list

  /** With distinct ids, `prints` and `seen` describe exactly the kept chunks. */
  ghost predicate Indexed(text: Text, semantic: bool, st: State) {
    SeenInRange(st)
    && (forall i, j :: 0 <= i < j < |st.kept| ==> st.kept[i].id != st.kept[j].id)
    && (forall i :: 0 <= i < |st.kept| ==>
          var key := text.key(st.kept[i].content); key in st.seen && st.seen[key] == i)
    && (semantic ==> forall i :: 0 <= i < |st.kept| ==>
          st.kept[i].id in st.prints && st.prints[st.kept[i].id] == text.tokens(st.kept[i].content))
  }

  ghost predicate Antichain(text: Text, threshold: real, kept: seq<Kept>) {
    forall i, j :: 0 <= i < j < |kept| ==>
      Similarity.Score(text.tokens(kept[j].content), text.tokens(kept[i].content)) < threshold
  }

  ghost predicate FromInput(st: State, chunks: seq<Chunk>) {
    forall i :: 0 <= i < |st.kept| ==> Listed(chunks, st.kept[i].id)
  }

  ghost predicate Listed(chunks: seq<Chunk>, id: string) {
    exists n :: 0 <= n < |chunks| && chunks[n].id == id
  }

  lemma ListedSnoc(chunks: seq<Chunk>, chunk: Chunk, id: string)
    ensures Listed(chunks + [chunk], id) <==> Listed(chunks, id) || id == chunk.id
  {
    var all := chunks + [chunk];
    if n :| 0 <= n < |chunks| && chunks[n].id == id { assert all[n].id == id; }
    if id == chunk.id { assert all[|chunks|].id == id; }
    if n :| 0 <= n < |all| && all[n].id == id { assert n < |chunks| ==> chunks[n].id == id; }
  }

  ghost predicate Shape(text: Text, semantic: bool, threshold: real, chunks: seq<Chunk>, st: State) {
    Indexed(text, semantic, st) && FromInput(st, chunks) && (semantic ==> Antichain(text, threshold, st.kept))
  }

  lemma LastIsNew(chunks: seq<Chunk>)
    requires chunks != [] && DistinctIds(chunks)
    ensures !Listed(chunks[..|chunks| - 1], chunks[|chunks| - 1].id)
  {
  }

  lemma FoldKeepsShape(text: Text, semantic: bool, threshold: real, chunks: seq<Chunk>, st: State, chunk: Chunk,
                       at: nat, reason: Reason)
    requires Shape(text, semantic, threshold, chunks, st) && at < |st.kept|
    ensures Shape(text, semantic, threshold, chunks + [chunk], Fold(st, chunk, at, reason))
  {
    hide Listed, Similarity.Score, EstimateTokens;
    var st' := Fold(st, chunk, at, reason);
    forall i | 0 <= i < |st'.kept|
      ensures st'.kept[i].id == st.kept[i].id && st'.kept[i].content == st.kept[i].content
      ensures Listed(chunks + [chunk], st'.kept[i].id)
    {
      ListedSnoc(chunks, chunk, st.kept[i].id);
    }
  }

  lemma KeepIndexed(text: Text, semantic: bool, chunks: seq<Chunk>, st: State, chunk: Chunk)
    requires Indexed(text, semantic, st) && FromInput(st, chunks)
    requires !Listed(chunks, chunk.id) && text.key(chunk.content) !in st.seen
    ensures Indexed(text, semantic, Keep(text, semantic, st, chunk))
    ensures FromInput(Keep(text, semantic, st, chunk), chunks + [chunk])
  {
    hide Listed, EstimateTokens;
    var st' := Keep(text, semantic, st, chunk);
    forall i | 0 <= i < |st'.kept| ensures Listed(chunks + [chunk], st'.kept[i].id) {
      ListedSnoc(chunks, chunk, st'.kept[i].id);
    }
    forall i | 0 <= i < |st.kept|
      ensures st.kept[i].id != chunk.id && st'.kept[i] == st.kept[i]
    {
      assert Listed(chunks, st.kept[i].id);
    }
  }

  lemma KeepAntichain(text: Text, threshold: real, st: State, chunk: Chunk)
    requires Indexed(text, true, st) && Antichain(text, threshold, st.kept)
    requires NearMatch(text, threshold, st, chunk) == None
    ensures Antichain(text, threshold, Keep(text, true, st, chunk).kept)
  {
    hide Scan, Similarity.Score, EstimateTokens;
    var tokens := text.tokens(chunk.content);
    var sims := Similarities(st.kept, st.prints, tokens);
    ScanFindsBest(sims, threshold);
    forall i | 0 <= i < |st.kept| ensures Similarity.Score(tokens, text.tokens(st.kept[i].content)) < threshold {
      assert !Eligible(sims, threshold, i);
    }
  }

  lemma KeepKeepsShape(text: Text, semantic: bool, threshold: real, chunks: seq<Chunk>, st: State, chunk: Chunk)
    requires Shape(text, semantic, threshold, chunks, st)
    requires !Listed(chunks, chunk.id) && text.key(chunk.content) !in st.seen
    requires semantic ==> NearMatch(text, threshold, st, chunk) == None
    ensures Shape(text, semantic, threshold, chunks + [chunk], Keep(text, semantic, st, chunk))
  {
    hide Indexed, Antichain, FromInput, Keep, NearMatch;
    KeepIndexed(text, semantic, chunks, st, chunk);
    if semantic { KeepAntichain(text, threshold, st, chunk); }
  }

  lemma {:induction false} RunShape(text: Text, semantic: bool, threshold: real, chunks: seq<Chunk>)
    requires DistinctIds(chunks)
    ensures Shape(text, semantic, threshold, chunks, Run(text, semantic, threshold, chunks))
  {
    if chunks != [] {
      hide Shape, Fold, Keep, NearMatch;
      var front, chunk := chunks[..|chunks| - 1], chunks[|chunks| - 1];
      var st := Run(text, semantic, threshold, front);
      RunShape(text, semantic, threshold, front);
      assert chunks == front + [chunk];
      LastIsNew(chunks);
      var key := text.key(chunk.content);
      var near := if semantic then NearMatch(text, threshold, st, chunk) else None;
      if key in st.seen {
        FoldKeepsShape(text, semantic, threshold, front, st, chunk, st.seen[key], Duplicate);
      } else if near.Some? {
        var sims := Similarities(st.kept, st.prints, text.tokens(chunk.content));
        FoldKeepsShape(text, semantic, threshold, front, st, chunk, near.value, NearDuplicate(sims[near.value].value));
      } else {
        KeepKeepsShape(text, semantic, threshold, front, st, chunk);
      }
    }
  }

  // ---------------------------------------------------------------- main results

  lemma {:induction false} IdsOnce(chunks: seq<Chunk>, id: string)
    requires DistinctIds(chunks)
    ensures Ids(chunks)[id] == if Listed(chunks, id) then 1 else 0
  {
    if chunks != [] {
      var front, last := chunks[..|chunks| - 1], chunks[|chunks| - 1];
      IdsOnce(front, id);
      ListedSnoc(front, last, id);
      LastIsNew(chunks);
      assert chunks == front + [last];
    }
  }

  /** Partition: with distinct ids, each input id is on exactly one kept chunk's source list,
      exactly once, and nothing else is; a kept chunk heads its own list; every dropped chunk is on
      the list of the chunk it is reported to duplicate. */
  lemma SourcesPartitionInput(text: Text, semantic: bool, threshold: real, chunks: seq<Chunk>)
    requires DistinctIds(chunks)
    ensures var st := Run(text, semantic, threshold, chunks);
            (forall id :: Sources(st.kept)[id] == if Listed(chunks, id) then 1 else 0)
            && (forall i :: 0 <= i < |st.kept| ==>
                  st.kept[i].sourceIds != [] && st.kept[i].sourceIds[0] == st.kept[i].id)
            && (forall d :: 0 <= d < |st.dropped| ==> Filed(st.dropped[d], st.kept))
            && |st.kept| + |st.dropped| == |chunks|
  {
    RunBooks(text, semantic, threshold, chunks);
    forall id
      ensures Ids(chunks)[id] == if Listed(chunks, id) then 1 else 0
    {
      IdsOnce(chunks, id);
    }
  }

  /** Token conservation, whatever the ids. */
  lemma TokensConserved(text: Text, semantic: bool, threshold: real, chunks: seq<Chunk>)
    ensures var st := Run(text, semantic, threshold, chunks);
            st.inputTokens == InputTokens(chunks)
            && st.inputTokens == OutputTokens(st.kept) + DroppedTokens(st.dropped)
  {
    RunBooks(text, semantic, threshold, chunks);
  }

  /** Semantic mode keeps an antichain: no two kept chunks reach the threshold, in either order,
      and no two share an exact-dedupe key. */
  lemma KeptChunksAreDissimilar(text: Text, threshold: real, chunks: seq<Chunk>, i: nat, j: nat)
    requires DistinctIds(chunks)
    requires i < |Run(text, true, threshold, chunks).kept| && j < |Run(text, true, threshold, chunks).kept| && i != j
    ensures var kept := Run(text, true, threshold, chunks).kept;
            Similarity.Score(text.tokens(kept[i].content), text.tokens(kept[j].content)) < threshold
            && text.key(kept[i].content) != text.key(kept[j].content)
  {
    RunShape(text, true, threshold, chunks);
    var kept := Run(text, true, threshold, chunks).kept;
    Similarity.ScoreSymmetric(text.tokens(kept[i].content), text.tokens(kept[j].content));
    hide Similarity.Score, Run;
    assert Antichain(text, threshold, kept);
  }

  /** What happens to the next chunk, with distinct ids: an exact duplicate of a kept chunk joins
      that chunk; else in semantic mode a chunk within the threshold of some kept chunk joins the
      earliest of the most similar ones; else it is kept. */
  ghost predicate Decided(text: Text, semantic: bool, threshold: real, st: State, chunk: Chunk, st': State) {
    if exists i :: 0 <= i < |st.kept| && text.key(st.kept[i].content) == text.key(chunk.content) then
      exists i: nat :: i < |st.kept| && text.key(st.kept[i].content) == text.key(chunk.content)
                    && st' == Fold(st, chunk, i, Duplicate)
    else if semantic && exists i: nat :: i < |st.kept| && Likeness(text, st, chunk, i) >= threshold then
      exists i: nat :: i < |st.kept| && EarliestMostAlike(text, threshold, st, chunk, i)
                    && st' == Fold(st, chunk, i, NearDuplicate(Likeness(text, st, chunk, i)))
    else st' == Keep(text, semantic, st, chunk)
  }

  function Likeness(text: Text, st: State, chunk: Chunk, i: nat): real
    requires i < |st.kept|
  {
    Similarity.Score(text.tokens(chunk.content), text.tokens(st.kept[i].content))
  }

  ghost predicate EarliestMostAlike(text: Text, threshold: real, st: State, chunk: Chunk, i: nat)
    requires i < |st.kept|
  {
    var best := Likeness(text, st, chunk, i);
    best >= threshold
    && forall j: nat :: j < |st.kept| ==>
         Likeness(text, st, chunk, j) <= best && (j < i ==> Likeness(text, st, chunk, j) < best)
  }

  ghost predicate SeenAreKept(text: Text, st: State) {
    SeenInRange(st) && forall k :: k in st.seen ==> text.key(st.kept[st.seen[k]].content) == k
  }

  lemma {:induction false} RunSeen(text: Text, semantic: bool, threshold: real, chunks: seq<Chunk>)
    ensures SeenAreKept(text, Run(text, semantic, threshold, chunks))
  {
    if chunks != [] {
      hide NearMatch, EstimateTokens;
      RunSeen(text, semantic, threshold, chunks[..|chunks| - 1]);
    }
  }

  lemma EachChunkDecided(text: Text, semantic: bool, threshold: real, chunks: seq<Chunk>, n: nat)
    requires DistinctIds(chunks) && n < |chunks|
    ensures Decided(text, semantic, threshold, Run(text, semantic, threshold, chunks[..n]), chunks[n],
                    Run(text, semantic, threshold, chunks[..n + 1]))
  {
    var st := Run(text, semantic, threshold, chunks[..n]);
    assert chunks[..n + 1][..n] == chunks[..n];
    RunShape(text, semantic, threshold, chunks[..n]);
    RunSeen(text, semantic, threshold, chunks[..n]);
    StepDecided(text, semantic, threshold, st, chunks[n]);
  }

  lemma StepDecided(text: Text, semantic: bool, threshold: real, st: State, chunk: Chunk)
    requires Indexed(text, semantic, st) && SeenAreKept(text, st)
    ensures Decided(text, semantic, threshold, st, chunk, Step(text, semantic, threshold, st, chunk))
  {
    hide Fold, Keep, Similarity.Score, Scan;
    var key, tokens := text.key(chunk.content), text.tokens(chunk.content);
    if key in st.seen {
      var i := st.seen[key];
      assert text.key(st.kept[i].content) == key;
    } else if semantic {
      var sims := Similarities(st.kept, st.prints, tokens);
      forall i: nat | i < |st.kept| ensures sims[i] == Some(Likeness(text, st, chunk, i)) {
      }
      ScanFindsBest(sims, threshold);
      var near := Scan(sims, threshold);
      if near.Some? {
        var best := near.value;
        assert IsBest(sims, threshold, best) && Eligible(sims, threshold, best);
        forall j: nat | j < |st.kept|
          ensures Likeness(text, st, chunk, j) <= Likeness(text, st, chunk, best)
          ensures j < best ==> Likeness(text, st, chunk, j) < Likeness(text, st, chunk, best)
        {
          assert Eligible(sims, threshold, j) <==> Likeness(text, st, chunk, j) >= threshold;
        }
        assert EarliestMostAlike(text, threshold, st, chunk, best);
      } else {
        forall i: nat | i < |st.kept| ensures Likeness(text, st, chunk, i) < threshold {
          assert !Eligible(sims, threshold, i);
        }
      }
    }
  }

  // ---------------------------------------------------------------- what is kept, and what drops record

  /** A text unlike every kept one. */
  ghost predicate IsNew(text: Text, semantic: bool, threshold: real, kept: seq<Kept>, chunk: Chunk) {
    (forall i :: 0 <= i < |kept| ==> text.key(kept[i].content) != text.key(chunk.content))
    && (semantic ==> forall i :: 0 <= i < |kept| ==>
          Similarity.Score(text.tokens(chunk.content), text.tokens(kept[i].content)) < threshold)
  }

  lemma NewAgainstOne(text: Text, threshold: real, kept: seq<Kept>, chunk: Chunk)
    requires |kept| == 1
    ensures IsNew(text, true, threshold, kept, chunk)
            <==> text.key(kept[0].content) != text.key(chunk.content)
                 && Similarity.Score(text.tokens(chunk.content), text.tokens(kept[0].content)) < threshold
  {
    hide Similarity.Score;
  }

  /** A chunk is kept exactly when its exact key is new and, in semantic mode, it stays below the
      threshold against every chunk then kept; if so it goes last, under its own id and text. */
  lemma KeptIff(text: Text, semantic: bool, threshold: real, chunks: seq<Chunk>, n: nat)
    requires DistinctIds(chunks) && n < |chunks|
    ensures var chunk := chunks[n];
            var kept := Run(text, semantic, threshold, chunks[..n]).kept;
            var kept' := Run(text, semantic, threshold, chunks[..n + 1]).kept;
            if IsNew(text, semantic, threshold, kept, chunk) then
              |kept'| == |kept| + 1 && kept'[..|kept|] == kept && kept'[|kept|].id == chunk.id
              && kept'[|kept|].content == chunk.content && kept'[|kept|].sourceIds == [chunk.id]
            else
              |kept'| == |kept|
              && forall i :: 0 <= i < |kept| ==> kept'[i].id == kept[i].id && kept'[i].content == kept[i].content
  {
    hide Similarity.Score, Run, EstimateTokens;
    EachChunkDecided(text, semantic, threshold, chunks, n);
    var st := Run(text, semantic, threshold, chunks[..n]);
    forall i: nat | i < |st.kept|
      ensures Likeness(text, st, chunks[n], i)
              == Similarity.Score(text.tokens(chunks[n].content), text.tokens(st.kept[i].content))
    {
    }
  }

  /** A near-duplicate drop records the similarity of the dropped text to the kept one it names, at
      or above the threshold. */
  ghost predicate Recorded(text: Text, threshold: real, chunks: seq<Chunk>, kept: seq<Kept>, d: Dropped) {
    d.reason.NearDuplicate? ==>
      (d.reason.similarity >= threshold
       && exists n, i :: 0 <= n < |chunks| && 0 <= i < |kept| && Matched(text, chunks[n], kept[i], d))
  }

  ghost predicate Matched(text: Text, chunk: Chunk, k: Kept, d: Dropped) {
    chunk.id == d.id && k.id == d.duplicateOf && d.reason.NearDuplicate?
    && d.reason.similarity == Similarity.Score(text.tokens(chunk.content), text.tokens(k.content))
  }

  ghost predicate AllRecorded(text: Text, threshold: real, chunks: seq<Chunk>, st: State) {
    forall d :: 0 <= d < |st.dropped| ==> Recorded(text, threshold, chunks, st.kept, st.dropped[d])
  }

  lemma StillRecorded(text: Text, threshold: real, chunks: seq<Chunk>, chunk: Chunk, kept: seq<Kept>, kept': seq<Kept>,
                      d: Dropped)
    requires Recorded(text, threshold, chunks, kept, d) && |kept| <= |kept'|
    requires forall i :: 0 <= i < |kept| ==> kept'[i].id == kept[i].id && kept'[i].content == kept[i].content
    ensures Recorded(text, threshold, chunks + [chunk], kept', d)
  {
    hide Similarity.Score;
    if d.reason.NearDuplicate? {
      var n, i :| 0 <= n < |chunks| && 0 <= i < |kept| && Matched(text, chunks[n], kept[i], d);
      assert (chunks + [chunk])[n] == chunks[n] && Matched(text, (chunks + [chunk])[n], kept'[i], d);
    }
  }

  lemma DropRecorded(text: Text, threshold: real, chunks: seq<Chunk>, st: State, chunk: Chunk, at: nat, reason: Reason)
    requires AllRecorded(text, threshold, chunks, st) && at < |st.kept|
    requires reason.NearDuplicate? ==>
               reason.similarity >= threshold && reason.similarity == Likeness(text, st, chunk, at)
    ensures AllRecorded(text, threshold, chunks + [chunk], Fold(st, chunk, at, reason))
  {
    hide Similarity.Score, EstimateTokens, Recorded;
    var st' := Fold(st, chunk, at, reason);
    forall d | 0 <= d < |st'.dropped| ensures Recorded(text, threshold, chunks + [chunk], st'.kept, st'.dropped[d]) {
      if d < |st.dropped| {
        StillRecorded(text, threshold, chunks, chunk, st.kept, st'.kept, st'.dropped[d]);
      } else {
        NewlyRecorded(text, threshold, chunks, chunk, st'.kept, at, st'.dropped[d]);
      }
    }
  }

  lemma NewlyRecorded(text: Text, threshold: real, chunks: seq<Chunk>, chunk: Chunk, kept: seq<Kept>, at: nat, d: Dropped)
    requires at < |kept| && (d.reason.NearDuplicate? ==> d.reason.similarity >= threshold && Matched(text, chunk, kept[at], d))
    ensures Recorded(text, threshold, chunks + [chunk], kept, d)
  {
    hide Similarity.Score;
    assert (chunks + [chunk])[|chunks|] == chunk;
  }

  /** Every near-duplicate drop of a run is recorded truly. */
  lemma {:induction false} DropsRecorded(text: Text, semantic: bool, threshold: real, chunks: seq<Chunk>)
    requires DistinctIds(chunks)
    ensures AllRecorded(text, threshold, chunks, Run(text, semantic, threshold, chunks))
  {
    if chunks != [] {
      var n := |chunks| - 1;
      var front, chunk := chunks[..n], chunks[n];
      var st := Run(text, semantic, threshold, front);
      DropsRecorded(text, semantic, threshold, front);
      EachChunkDecided(text, semantic, threshold, chunks, n);
      assert chunks[..n + 1] == chunks == front + [chunk];
      hide Run, Fold, Similarity.Score, AllRecorded, EstimateTokens;
      var st' := Run(text, semantic, threshold, chunks);
      if i: nat :| i < |st.kept| && st' == Fold(st, chunk, i, Duplicate) {
        DropRecorded(text, threshold, front, st, chunk, i, Duplicate);
      } else if i: nat :| i < |st.kept| && EarliestMostAlike(text, threshold, st, chunk, i)
                          && st' == Fold(st, chunk, i, NearDuplicate(Likeness(text, st, chunk, i))) {
        DropRecorded(text, threshold, front, st, chunk, i, NearDuplicate(Likeness(text, st, chunk, i)));
      } else {
        KeepRecorded(text, semantic, threshold, front, st, chunk);
      }
    }
  }

  lemma KeepRecorded(text: Text, semantic: bool, threshold: real, chunks: seq<Chunk>, st: State, chunk: Chunk)
    requires AllRecorded(text, threshold, chunks, st)
    ensures AllRecorded(text, threshold, chunks + [chunk], Keep(text, semantic, st, chunk))
  {
    hide Recorded, EstimateTokens;
    var st' := Keep(text, semantic, st, chunk);
    forall d | 0 <= d < |st'.dropped| ensures Recorded(text, threshold, chunks + [chunk], st'.kept, st'.dropped[d]) {
      StillRecorded(text, threshold, chunks, chunk, st.kept, st'.kept, st'.dropped[d]);
    }
  }

  /** Of two chunks with different exact keys, the second is kept exactly when it stays below the
      threshold against the first. */
  lemma SecondKept(text: Text, threshold: real, c: Chunk, d: Chunk)
    requires c.id != d.id && text.key(c.content) != text.key(d.content)
    ensures |Run(text, true, threshold, [c, d]).kept|
            == if Similarity.Score(text.tokens(d.content), text.tokens(c.content)) < threshold then 2 else 1
  {
    var all := [c, d];
    FirstKept(text, threshold, c);
    assert DistinctIds(all);
    assert all[..1] == [c] && all[..2] == all;
    var one := Run(text, true, threshold, [c]).kept;
    hide Run, Similarity.Score, EstimateTokens, DistinctIds, NewKept, IsNew;
    NewAgainstOne(text, threshold, one, d);
    KeptIff(text, true, threshold, all, 1);
  }

  lemma FirstKept(text: Text, threshold: real, c: Chunk)
    ensures var kept := Run(text, true, threshold, [c]).kept; |kept| == 1 && kept[0].content == c.content
  {
    hide Run, Similarity.Score, EstimateTokens;
    assert [c][..0] == [] && [c][..1] == [c];
    RunNone(text, true, threshold, [c]);
    KeptIff(text, true, threshold, [c], 0);
  }
}
