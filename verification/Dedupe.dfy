/** The dedupe loop of context optimization (context/optimizer.ts, optimizeContextChunks): exact
    and near duplicates are folded into the chunk kept first. */
module Dedupe {
  import opened Options
  import opened BestMatch
  import Similarity

  // ---------------------------------------------------------------- data

  /** The two text functions the loop relies on: the exact-dedupe key and the token set. */
  datatype Text = Text(key: string -> string, tokens: string -> set<string>)

  datatype Chunk = Chunk(id: string, content: string)

  datatype Severity = Low | Medium | High

  /** A kept chunk as it passes through the later stages. */
  datatype Kept = Kept(
    id: string, sourceIds: seq<string>, content: string, inputTokens: nat, outputTokens: nat,
    relevance: Option<real>, freshness: Option<real>, stale: bool, conflict: bool, conflictIds: seq<nat>,
    severity: Option<Severity>, compressed: bool)

  datatype Reason = Duplicate | NearDuplicate(similarity: real)

  datatype Dropped = Dropped(id: string, reason: Reason, duplicateOf: string, inputTokens: nat)

  /** estimateContextTokens: a quarter of the characters, rounded up. */
  function EstimateTokens(text: string): nat { (|text| + 3) / 4 }

  function NewKept(chunk: Chunk): Kept {
    var n := EstimateTokens(chunk.content);
    Kept(chunk.id, [chunk.id], chunk.content, n, n, None, None, false, false, [], None, false)
  }

  // ---------------------------------------------------------------- specification of the loop

  /** `seen` maps an exact key to the position of its kept chunk; `prints` a kept id to tokens. */
  datatype State = State(
    kept: seq<Kept>, dropped: seq<Dropped>, seen: map<string, nat>, prints: map<string, set<string>>,
    inputTokens: nat)

  const Start := State([], [], map[], map[], 0)

  predicate SeenInRange(st: State) { forall k :: k in st.seen ==> st.seen[k] < |st.kept| }

  function Similarities(kept: seq<Kept>, prints: map<string, set<string>>, tokens: set<string>): (r: seq<Option<real>>)
    ensures |r| == |kept|
  {
    seq(|kept|, i requires 0 <= i < |kept| =>
      if kept[i].id in prints then Some(Similarity.Score(tokens, prints[kept[i].id])) else None)
  }

  /** The chunk becomes one more source of the kept chunk at `at`. */
  function Fold(st: State, chunk: Chunk, at: nat, reason: Reason): State
    requires at < |st.kept|
  {
    var target := st.kept[at];
    st.(kept := st.kept[at := target.(sourceIds := target.sourceIds + [chunk.id])],
        dropped := st.dropped + [Dropped(chunk.id, reason, target.id, EstimateTokens(chunk.content))],
        inputTokens := st.inputTokens + EstimateTokens(chunk.content))
  }

  function Keep(text: Text, semantic: bool, st: State, chunk: Chunk): State {
    st.(kept := st.kept + [NewKept(chunk)],
        seen := st.seen[text.key(chunk.content) := |st.kept|],
        prints := if semantic then st.prints[chunk.id := text.tokens(chunk.content)] else st.prints,
        inputTokens := st.inputTokens + EstimateTokens(chunk.content))
  }

  function NearMatch(text: Text, threshold: real, st: State, chunk: Chunk): (best: Option<nat>)
    ensures best.Some? ==> best.value < |st.kept|
  {
    Scan(Similarities(st.kept, st.prints, text.tokens(chunk.content)), threshold)
  }

  function Step(text: Text, semantic: bool, threshold: real, st: State, chunk: Chunk): (st': State)
    requires SeenInRange(st)
    ensures SeenInRange(st')
  {
    var key := text.key(chunk.content);
    if key in st.seen then Fold(st, chunk, st.seen[key], Duplicate)
    else
      var near := if semantic then NearMatch(text, threshold, st, chunk) else None;
      if near.Some? then
        var sims := Similarities(st.kept, st.prints, text.tokens(chunk.content));
        Fold(st, chunk, near.value, NearDuplicate(sims[near.value].value))
      else Keep(text, semantic, st, chunk)
  }

  function Run(text: Text, semantic: bool, threshold: real, chunks: seq<Chunk>): (st: State)
    ensures SeenInRange(st)
  {
    if chunks == [] then Start
    else Step(text, semantic, threshold, Run(text, semantic, threshold, chunks[..|chunks| - 1]), chunks[|chunks| - 1])
  }

  lemma RunNone(text: Text, semantic: bool, threshold: real, chunks: seq<Chunk>)
    ensures Run(text, semantic, threshold, chunks[..0]) == Start
  {
  }

  lemma RunSnoc(text: Text, semantic: bool, threshold: real, chunks: seq<Chunk>, n: nat)
    requires n < |chunks|
    ensures Run(text, semantic, threshold, chunks[..n + 1])
            == Step(text, semantic, threshold, Run(text, semantic, threshold, chunks[..n]), chunks[n])
  {
    assert chunks[..n + 1][..n] == chunks[..n];
  }

  // ---------------------------------------------------------------- the loop as written

  /** A kept chunk while the loop runs: reachable both from the kept list and from `seen`, its
      source list growing in place. */
  class KeptChunk {
    const chunk: Chunk
    var sourceIds: seq<string>

    constructor (chunk: Chunk)
      ensures this.chunk == chunk && sourceIds == [chunk.id]
    {
      this.chunk := chunk;
      sourceIds := [chunk.id];
    }

    function View(): Kept
      reads this
    {
      NewKept(chunk).(sourceIds := sourceIds)
    }
  }

  function Views(objects: seq<KeptChunk>): seq<Kept>
    reads objects
  {
    seq(|objects|, i requires 0 <= i < |objects| reads objects => objects[i].View())
  }

  lemma ViewsNone()
    ensures Views([]) == []
  {
  }

  lemma ViewsSnoc(objects: seq<KeptChunk>, last: KeptChunk)
    ensures Views(objects + [last]) == Views(objects) + [last.View()]
  {
  }

  lemma ViewsAt(objects: seq<KeptChunk>, at: nat)
    requires at < |objects|
    ensures |Views(objects)| == |objects| && Views(objects)[at] == objects[at].View()
  {
  }

  /** The inner loop over the kept chunks. */
  method FindNearMatch(text: Text, threshold: real, objects: seq<KeptChunk>, prints: map<string, set<string>>,
                       tokens: set<string>)
      returns (best: Option<nat>, similarity: real)
    ensures var sims := Similarities(Views(objects), prints, tokens);
            best == Scan(sims, threshold) && (best.Some? ==> similarity == sims[best.value].value)
  {
    hide Similarity.Score;
    best, similarity := None, 0.0;
    ghost var sims := Similarities(Views(objects), prints, tokens);
    var i := 0;
    while i < |objects|
      invariant 0 <= i <= |objects|
      invariant best == Scan(sims[..i], threshold) && (best.Some? ==> similarity == sims[best.value].value)
    {
      assert sims[..i + 1][..i] == sims[..i];
      var id := objects[i].chunk.id;
      assert sims[i] == if id in prints then Some(Similarity.Score(tokens, prints[id])) else None;
      if id in prints {
        var s := Similarity.SemanticSimilarity(tokens, prints[id]);
        if s >= threshold && (best == None || s > similarity) {
          best, similarity := Some(i), s;
        }
      }
      i := i + 1;
    }
    assert sims[..i] == sims;
  }

  /** `match.sourceIds.push(chunk.id)`: seen through the kept list, one entry grows. */
  method AddSource(objects: seq<KeptChunk>, ghost at: nat, target: KeptChunk, id: string)
    requires at < |objects| && objects[at] == target
    requires forall i, j :: 0 <= i < j < |objects| ==> objects[i] != objects[j]
    modifies target
    ensures Views(objects)
            == old(Views(objects))[at := old(target.View()).(sourceIds := old(target.sourceIds) + [id])]
  {
    target.sourceIds := target.sourceIds + [id];
  }

  /** A duplicate joins the kept chunk `target`: one more source there, one more record of a drop. */
  method DropInto(ghost st: State, objects: seq<KeptChunk>, dropped: seq<Dropped>, ghost at: nat, target: KeptChunk,
                  chunk: Chunk, reason: Reason) returns (dropped': seq<Dropped>)
    requires at < |objects| && objects[at] == target && |st.kept| == |objects|
    requires forall i, j :: 0 <= i < j < |objects| ==> objects[i] != objects[j]
    requires Views(objects) == st.kept && dropped == st.dropped
    modifies target
    ensures Views(objects) == Fold(st, chunk, at, reason).kept && dropped' == Fold(st, chunk, at, reason).dropped
  {
    hide Views, EstimateTokens;
    ViewsAt(objects, at);
    AddSource(objects, at, target, chunk.id);
    dropped' := dropped + [Dropped(chunk.id, reason, target.chunk.id, EstimateTokens(chunk.content))];
  }

  /** Folding leaves the indexes alone and counts the chunk's tokens. */
  lemma FoldRest(st: State, chunk: Chunk, at: nat, reason: Reason)
    requires at < |st.kept|
    ensures var st' := Fold(st, chunk, at, reason);
            st'.seen == st.seen && st'.prints == st.prints && |st'.kept| == |st.kept|
            && st'.inputTokens == st.inputTokens + EstimateTokens(chunk.content)
  {
  }

  method DedupeChunks(text: Text, semantic: bool, threshold: real, chunks: seq<Chunk>)
      returns (optimized: seq<KeptChunk>, dropped: seq<Dropped>, inputTokens: nat)
    ensures var st := Run(text, semantic, threshold, chunks);
            Views(optimized) == st.kept && dropped == st.dropped && inputTokens == st.inputTokens
    ensures fresh(set o | o in optimized)
  {
    hide Run, Fold, Scan, Similarities, EstimateTokens, Views;
    RunNone(text, semantic, threshold, chunks);
    optimized, dropped, inputTokens := [], [], 0;
    assert Views(optimized) == [] by { ViewsNone(); }
    var seen: map<string, KeptChunk> := map[];
    var prints: map<string, set<string>> := map[];
    var n := 0;
    while n < |chunks|
      invariant 0 <= n <= |chunks|
      invariant fresh(set o | o in optimized)
      invariant forall i, j :: 0 <= i < j < |optimized| ==> optimized[i] != optimized[j]
      invariant |Views(optimized)| == |optimized|
      invariant var st := Run(text, semantic, threshold, chunks[..n]);
                Views(optimized) == st.kept && dropped == st.dropped && inputTokens == st.inputTokens
                && prints == st.prints && seen.Keys == st.seen.Keys
                && forall k :: k in seen ==> seen[k] == optimized[st.seen[k]]
    {
      var chunk := chunks[n];
      ghost var st := Run(text, semantic, threshold, chunks[..n]);
      RunSnoc(text, semantic, threshold, chunks, n);
      n := n + 1;
      inputTokens := inputTokens + EstimateTokens(chunk.content);
      var key := text.key(chunk.content);
      if key in seen {
        var existing := seen[key];
        ghost var at := st.seen[key];
        FoldRest(st, chunk, at, Duplicate);
        dropped := DropInto(st, optimized, dropped, at, existing, chunk, Duplicate);
        continue;
      }
      if semantic {
        var best, similarity := FindNearMatch(text, threshold, optimized, prints, text.tokens(chunk.content));
        if best.Some? {
          FoldRest(st, chunk, best.value, NearDuplicate(similarity));
          dropped := DropInto(st, optimized, dropped, best.value, optimized[best.value], chunk,
                              NearDuplicate(similarity));
          continue;
        }
        prints := prints[chunk.id := text.tokens(chunk.content)];
      }
      var kept := new KeptChunk(chunk);
      seen := seen[key := kept];
      ViewsSnoc(optimized, kept);
      optimized := optimized + [kept];
    }
    assert chunks[..n] == chunks;
  }

  /** The estimate is the least number of tokens that covers the text at four characters each. */
  lemma EstimateIsLeast(text: string)
    ensures |text| <= 4 * EstimateTokens(text)
    ensures forall n: nat :: |text| <= 4 * n ==> EstimateTokens(text) <= n
  {
  }
}
