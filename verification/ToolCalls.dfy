/** Reassembling tool calls from a streamed response (router.ts, bufferToolCallDeltas,
    bufferedToolCalls, bufferedToolCallDeltas). */
module ToolCalls {
  import opened Options

  // ---------------------------------------------------------------- data

  /** One streamed fragment; an absent or empty text field carries nothing. */
  datatype Delta = Delta(index: int, id: Option<string>, typed: bool, name: Option<string>, arguments: Option<string>)

  datatype Buffered = Buffered(id: Option<string>, typed: bool, name: Option<string>, arguments: string)

  datatype ToolCall = ToolCall(id: string, name: string, arguments: string)

  const Fresh := Buffered(None, false, None, "")

  // ---------------------------------------------------------------- one delta

  function Patch(call: Buffered, delta: Delta): Buffered {
    Buffered(if Given(delta.id) then delta.id else call.id,
             call.typed || delta.typed,
             if Given(delta.name) then delta.name else call.name,
             if Given(delta.arguments) then call.arguments + delta.arguments.value else call.arguments)
  }

  function At(buffer: map<int, Buffered>, index: int): Buffered {
    if index in buffer then buffer[index] else Fresh
  }

  function Absorb(buffer: map<int, Buffered>, deltas: seq<Delta>): map<int, Buffered> {
    if deltas == [] then buffer
    else
      var front, last := deltas[..|deltas| - 1], deltas[|deltas| - 1];
      var before := Absorb(buffer, front);
      before[last.index := Patch(At(before, last.index), last)]
  }

  // ---------------------------------------------------------------- the mutable buffer

  /** A record of the buffer, patched in place. */
  class BufferedCall {
    var id: Option<string>
    var typed: bool
    var name: Option<string>
    var arguments: string

    constructor ()
      ensures View() == Fresh
    {
      id, typed, name, arguments := None, false, None, "";
    }

    function View(): Buffered
      reads this
    {
      Buffered(id, typed, name, arguments)
    }

    method Apply(delta: Delta)
      modifies this
      ensures View() == Patch(old(View()), delta)
    {
      if Given(delta.id) { id := delta.id; }
      if delta.typed { typed := true; }
      if Given(delta.name) { name := delta.name; }
      if Given(delta.arguments) { arguments := arguments + delta.arguments.value; }
    }
  }

  class ToolCallBuffer {
    var calls: map<int, BufferedCall>

    /** No record is filed under two indices. */
    ghost predicate Valid()
      reads this
    {
      forall i, j :: i in calls && j in calls && i != j ==> calls[i] != calls[j]
    }

    function View(): map<int, Buffered>
      reads this, calls.Values
    {
      map i | i in calls :: calls[i].View()
    }

    constructor ()
      ensures Valid() && View() == map[]
    {
      calls := map[];
    }

    /** `buffer.get(index) ?? new`: the record to patch, not filed under any other index. */
    method Existing(index: int) returns (existing: BufferedCall)
      requires Valid()
      ensures existing.View() == At(View(), index)
      ensures index in calls ==> existing == calls[index]
      ensures index !in calls ==> fresh(existing)
    {
      if index in calls { existing := calls[index]; } else { existing := new BufferedCall(); }
    }

    method BufferDelta(delta: Delta)
      requires Valid()
      modifies this, calls.Values
      ensures Valid() && fresh(calls.Values - old(calls.Values))
      ensures View() == old(View())[delta.index := Patch(At(old(View()), delta.index), delta)]
    {
      hide Patch, At;
      var existing := Existing(delta.index);
      ghost var before := View();
      existing.Apply(delta);
      assert forall i :: i in calls && i != delta.index ==> calls[i] != existing && calls[i].View() == before[i];
      Filed(delta.index, existing, before);
      calls := calls[delta.index := existing];
    }

    /** Filing a record changes what is seen at its index and nowhere else. */
    lemma Filed(index: int, record: BufferedCall, before: map<int, Buffered>)
      requires before.Keys == calls.Keys && forall i :: i in calls && i != index ==> calls[i].View() == before[i]
      ensures var filed := calls[index := record];
              (map i | i in filed :: filed[i].View()) == before[index := record.View()]
    {
    }

    method BufferToolCallDeltas(deltas: seq<Delta>)
      requires Valid()
      modifies this, calls.Values
      ensures Valid() && fresh(calls.Values - old(calls.Values))
      ensures View() == Absorb(old(View()), deltas)
    {
      ghost var start := View();
      for k := 0 to |deltas|
        invariant Valid() && fresh(calls.Values - old(calls.Values))
        invariant View() == Absorb(start, deltas[..k])
      {
        assert deltas[..k + 1][..k] == deltas[..k];
        BufferDelta(deltas[k]);
      }
      assert deltas[..|deltas|] == deltas;
    }
  }

  // ---------------------------------------------------------------- reading the calls off

  predicate Least(keys: set<int>, k: int) { k in keys && forall other :: other in keys ==> k <= other }

  lemma AnyOf<T>(keys: set<T>) returns (k: T)
    requires keys != {}
    ensures k in keys
  {
    k :| k in keys;
  }

  lemma {:induction false} HasLeast(keys: set<int>)
    requires keys != {}
    ensures exists k :: Least(keys, k)
  {
    var k := AnyOf(keys);
    if other :| other in keys && other < k {
      var rest := keys - {k};
      assert other in rest;
      HasLeast(rest);
      var below :| Least(rest, below);
      forall any | any in keys ensures below <= any {
        assert any != k ==> any in rest;
      }
      assert Least(keys, below);
    } else {
      assert Least(keys, k);
    }
  }

  function SortedKeys(keys: set<int>): (r: seq<int>)
    ensures forall k :: k in r <==> k in keys
    ensures forall i, j :: 0 <= i < j < |r| ==> r[i] < r[j]
  {
    if keys == {} then []
    else
      HasLeast(keys);
      var least :| Least(keys, least);
      [least] + SortedKeys(keys - {least})
  }

  function Digits(n: nat): string {
    if n < 10 then ["0123456789"[n]] else Digits(n / 10) + ["0123456789"[n % 10]]
  }

  function Decimal(n: int): string { if n >= 0 then Digits(n) else "-" + Digits(-n) }

  function Named(call: Buffered, index: int): ToolCall
    requires Given(call.name)
  {
    ToolCall(if call.id.Some? then call.id.value else "call_" + Decimal(index), call.name.value, call.arguments)
  }

  function CallsAt(buffer: map<int, Buffered>, keys: seq<int>): seq<ToolCall>
    requires forall k :: k in keys ==> k in buffer
  {
    if keys == [] then []
    else
      var last := keys[|keys| - 1];
      CallsAt(buffer, keys[..|keys| - 1]) + if Given(buffer[last].name) then [Named(buffer[last], last)] else []
  }

  /** bufferedToolCalls: in index order, skipping records that never got a name. */
  function Calls(buffer: map<int, Buffered>): seq<ToolCall> { CallsAt(buffer, SortedKeys(buffer.Keys)) }

  /** bufferedToolCallDeltas: the calls as one delta each, renumbered. */
  function AsDeltas(calls: seq<ToolCall>): (r: seq<Delta>)
    ensures |r| == |calls|
  {
    seq(|calls|, i requires 0 <= i < |calls| =>
      Delta(i, Some(calls[i].id), true, Some(calls[i].name), Some(calls[i].arguments)))
  }

  // ---------------------------------------------------------------- each index on its own

  function Only(deltas: seq<Delta>, index: int): seq<Delta> {
    if deltas == [] then []
    else
      var last := deltas[|deltas| - 1];
      Only(deltas[..|deltas| - 1], index) + if last.index == index then [last] else []
  }

  function Replay(deltas: seq<Delta>): Buffered {
    if deltas == [] then Fresh else Patch(Replay(deltas[..|deltas| - 1]), deltas[|deltas| - 1])
  }

  /** A record is the replay of its own deltas, and exists when there are any. */
  lemma {:induction false} EachIndexAlone(deltas: seq<Delta>, index: int)
    ensures var buffer := Absorb(map[], deltas);
            (index in buffer <==> Only(deltas, index) != []) && At(buffer, index) == Replay(Only(deltas, index))
  {
    if deltas != [] {
      hide Patch;
      var front, last := deltas[..|deltas| - 1], deltas[|deltas| - 1];
      EachIndexAlone(front, index);
      var before, own := Absorb(map[], front), Only(deltas, index);
      if last.index == index {
        assert own == Only(front, index) + [last];
        assert own[..|own| - 1] == Only(front, index);
        assert Absorb(map[], deltas)[index] == Patch(At(before, index), last);
      } else {
        assert own == Only(front, index) + [] == Only(front, index);
        assert At(Absorb(map[], deltas), index) == At(before, index);
      }
    }
  }

  /** How the deltas of a stream are cut into chunks does not matter. */
  lemma {:induction false} ChunkingIrrelevant(buffer: map<int, Buffered>, first: seq<Delta>, second: seq<Delta>)
    ensures Absorb(Absorb(buffer, first), second) == Absorb(buffer, first + second)
  {
    if second == [] {
      assert first + [] == first;
    } else {
      hide Patch;
      var n := |second| - 1;
      ChunkingIrrelevant(buffer, first, second[..n]);
      assert (first + second)[..|first| + n] == first + second[..n];
    }
  }

  /** Nor how deltas of different indices interleave: two streams that agree index by index give
      the same buffer, hence the same calls. */
  lemma InterleavingIrrelevant(a: seq<Delta>, b: seq<Delta>)
    requires forall i :: Only(a, i) == Only(b, i)
    ensures Absorb(map[], a) == Absorb(map[], b) && Calls(Absorb(map[], a)) == Calls(Absorb(map[], b))
  {
    hide Replay, Calls;
    var x, y := Absorb(map[], a), Absorb(map[], b);
    forall i: int ensures (i in x <==> i in y) && At(x, i) == At(y, i) {
      EachIndexAlone(a, i);
      EachIndexAlone(b, i);
    }
    forall i | i in x ensures i in y && x[i] == y[i] {
      assert At(x, i) == At(y, i);
    }
    forall i | i in y ensures i in x {
      assert At(x, i) == At(y, i);
    }
    assert x.Keys == y.Keys;
  }

  // ---------------------------------------------------------------- what a record holds

  function Concatenated(deltas: seq<Delta>): string {
    if deltas == [] then ""
    else
      var last := deltas[|deltas| - 1].arguments;
      Concatenated(deltas[..|deltas| - 1]) + if last.Some? then last.value else ""
  }

  /** The texts of a field that carry something, in order. */
  function GivenTexts(deltas: seq<Delta>, field: Delta -> Option<string>): seq<string> {
    if deltas == [] then []
    else
      var last := field(deltas[|deltas| - 1]);
      GivenTexts(deltas[..|deltas| - 1], field) + if Given(last) then [last.value] else []
  }

  function Last(s: seq<string>): Option<string> { if s == [] then None else Some(s[|s| - 1]) }

  /** Arguments are the concatenation of the index's fragments; id and name the last non-empty ones. */
  lemma {:induction false} RecordContents(deltas: seq<Delta>)
    ensures Replay(deltas).arguments == Concatenated(deltas)
    ensures Replay(deltas).id == Last(GivenTexts(deltas, (d: Delta) => d.id))
    ensures Replay(deltas).name == Last(GivenTexts(deltas, (d: Delta) => d.name))
  {
    if deltas != [] {
      RecordContents(deltas[..|deltas| - 1]);
    }
  }

  // ---------------------------------------------------------------- the calls

  /** The call at each place comes from its own index: the id streamed for it, or one made from the
      index, and its name and arguments. */
  ghost predicate ReadFrom(buffer: map<int, Buffered>, calls: seq<ToolCall>, from: seq<int>) {
    |from| == |calls|
    && (forall p, q :: 0 <= p < q < |from| ==> from[p] < from[q])
    && forall p :: 0 <= p < |from| ==>
         from[p] in buffer && buffer[from[p]].name == Some(calls[p].name)
         && calls[p].arguments == buffer[from[p]].arguments
         && match buffer[from[p]].id
            case Some(id) => calls[p].id == id
            case None => calls[p].id == "call_" + Decimal(from[p])
  }

  lemma {:induction false} CallsFrom(buffer: map<int, Buffered>, keys: seq<int>) returns (from: seq<int>)
    requires (forall k :: k in keys ==> k in buffer) && forall p, q :: 0 <= p < q < |keys| ==> keys[p] < keys[q]
    ensures ReadFrom(buffer, CallsAt(buffer, keys), from)
    ensures forall i :: i in from <==> i in keys && Given(buffer[i].name)
  {
    if keys == [] {
      from := [];
    } else {
      var front, last := keys[..|keys| - 1], keys[|keys| - 1];
      assert keys == front + [last];
      from := CallsFrom(buffer, front);
      forall p | 0 <= p < |from| ensures from[p] < last {
        assert from[p] in from;
        assert from[p] in front;
      }
      if Given(buffer[last].name) { from := from + [last]; }
    }
  }

  /** The calls are the records that got a non-empty name, all of them, in the order of their indices. */
  lemma CallsAreNamedRecords(buffer: map<int, Buffered>) returns (from: seq<int>)
    ensures ReadFrom(buffer, Calls(buffer), from)
    ensures forall i :: i in from <==> i in buffer && buffer[i].name.Some? && buffer[i].name.value != ""
  {
    from := CallsFrom(buffer, SortedKeys(buffer.Keys));
  }

  function ValueOf(digits: string): int {
    if digits == "" then 0 else 10 * ValueOf(digits[..|digits| - 1]) + (digits[|digits| - 1] as int - '0' as int)
  }

  /** The index in an id made up for a call reads back as that index. */
  lemma {:induction false} DigitsRead(n: nat)
    ensures ValueOf(Digits(n)) == n && Digits(n) != "" && forall i :: 0 <= i < |Digits(n)| ==> '0' <= Digits(n)[i] <= '9'
    ensures Digits(n)[0] == '0' ==> n == 0
  {
    if n < 10 {
      assert Digits(n)[..0] == "";
    } else {
      DigitsRead(n / 10);
      assert Digits(n)[..|Digits(n)| - 1] == Digits(n / 10);
    }
  }

  // ---------------------------------------------------------------- buffering the calls again

  /** No record of a streamed buffer holds an empty id or name. */
  ghost predicate Clean(buffer: map<int, Buffered>) {
    forall i :: i in buffer ==> (buffer[i].id.Some? ==> Given(buffer[i].id)) && (buffer[i].name.Some? ==> Given(buffer[i].name))
  }

  lemma {:induction false} AbsorbStaysClean(buffer: map<int, Buffered>, deltas: seq<Delta>)
    requires Clean(buffer)
    ensures Clean(Absorb(buffer, deltas))
  {
    if deltas != [] { AbsorbStaysClean(buffer, deltas[..|deltas| - 1]); }
  }

  lemma {:induction false} CallsAreGiven(buffer: map<int, Buffered>, keys: seq<int>)
    requires Clean(buffer) && forall k :: k in keys ==> k in buffer
    ensures forall c :: c in CallsAt(buffer, keys) ==> c.id != "" && c.name != ""
  {
    if keys != [] { CallsAreGiven(buffer, keys[..|keys| - 1]); }
  }

  function Whole(call: ToolCall): Buffered { Buffered(Some(call.id), true, Some(call.name), call.arguments) }

  ghost predicate Holds(buffer: map<int, Buffered>, calls: seq<ToolCall>) {
    (forall i :: i in buffer <==> 0 <= i < |calls|)
    && forall i :: 0 <= i < |calls| ==> buffer[i] == Whole(calls[i])
  }

  lemma {:induction false} AbsorbsWhole(calls: seq<ToolCall>)
    requires forall c :: c in calls ==> c.id != "" && c.name != ""
    ensures Holds(Absorb(map[], AsDeltas(calls)), calls)
  {
    if calls != [] {
      var n := |calls| - 1;
      AbsorbsWhole(calls[..n]);
      assert AsDeltas(calls)[..n] == AsDeltas(calls[..n]);
    }
  }

  function Positions(n: nat): seq<int> { seq(n, i => i) }

  lemma {:induction false} IncreasingFromZero(s: seq<int>, n: nat)
    requires forall i, j :: 0 <= i < j < |s| ==> s[i] < s[j]
    requires forall k :: k in s <==> 0 <= k < n
    ensures s == Positions(n)
  {
    if s == [] {
      assert n > 0 ==> 0 in s;
    } else {
      var m := |s| - 1;
      assert s[m] in s;
      var last: nat := n - 1;
      assert last in s;
      assert s[m] == last;
      forall k ensures k in s[..m] <==> 0 <= k < last {
        assert k in s <==> k in s[..m] || k == s[m] by { assert s == s[..m] + [s[m]]; }
      }
      IncreasingFromZero(s[..m], last);
      assert s == s[..m] + [last];
    }
  }

  lemma {:induction false} CallsOfWhole(buffer: map<int, Buffered>, calls: seq<ToolCall>, n: nat)
    requires Holds(buffer, calls) && n <= |calls| && forall c :: c in calls ==> c.name != ""
    ensures forall k :: k in Positions(n) ==> k in buffer
    ensures CallsAt(buffer, Positions(n)) == calls[..n]
  {
    if n > 0 {
      CallsOfWhole(buffer, calls, n - 1);
      assert Positions(n)[..n - 1] == Positions(n - 1);
      assert calls[n - 1] in calls;
    }
  }

  /** Sending the assembled calls out as deltas and buffering those gives the same calls back. */
  lemma RebufferingReproducesCalls(deltas: seq<Delta>)
    ensures var calls := Calls(Absorb(map[], deltas));
            Calls(Absorb(map[], AsDeltas(calls))) == calls
  {
    hide Absorb, Patch, Decimal, CallsAt;
    var buffer := Absorb(map[], deltas);
    var calls := Calls(buffer);
    AbsorbStaysClean(map[], deltas);
    CallsAreGiven(buffer, SortedKeys(buffer.Keys));
    AbsorbsWhole(calls);
    var again := Absorb(map[], AsDeltas(calls));
    IncreasingFromZero(SortedKeys(again.Keys), |calls|);
    CallsOfWhole(again, calls, |calls|);
  }
}
