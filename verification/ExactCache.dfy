/** The exact-match response cache (cache/index.ts): a bounded, insertion-ordered map with expiry,
    and the 32-bit string hash that keys it. */
module ExactCache {
  import opened Options

  /** A response; the cache never looks inside. */
  type Response = string

  /** DEFAULT_TTL_MS and MAX_ENTRIES. */
  const DEFAULT_TTL := 300000
  const MAX_ENTRIES := 1000

  // ---------------------------------------------------------------- the hash

  function Wrap(n: int): int { (n + 0x8000_0000) % 0x1_0000_0000 - 0x8000_0000 }

  /** The text read as base-31 digits. */
  function Polynomial(raw: string): int {
    if raw == "" then 0 else 31 * Polynomial(raw[..|raw| - 1]) + raw[|raw| - 1] as int
  }

  /** ((hash << 5) - hash + code) | 0: both the shift and the sum wrap to 32 bits. */
  function HashStep(hash: int, code: int): int { Wrap(Wrap(hash * 32) - hash + code) }

  lemma ModuloAbsorbs(a: int, b: int, k: int, m: int)
    requires m > 0 && a == b + k * m
    ensures a % m == b % m
  {
    ModuloUnique(a, m, a % m, b / m + k);
    assert a == (b / m + k) * m + b % m;
    ModuloUnique(a, m, b % m, b / m + k);
  }

  lemma ModuloUnique(a: int, m: int, r: int, q: int)
    requires m > 0 && 0 <= r < m
    ensures a == q * m + r ==> a % m == r
  {
    var d := a / m - q;
    assert d >= 1 ==> d * m >= m;
    assert d <= -1 ==> d * m <= -m;
  }

  lemma WrapDiffers(n: int) returns (k: int)
    ensures Wrap(n) == n + k * 0x1_0000_0000
  {
    k := -((n + 0x8000_0000) / 0x1_0000_0000);
  }

  lemma HashStepWraps(p: int, code: int)
    ensures HashStep(Wrap(p), code) == Wrap(31 * p + code)
  {
    var k := WrapDiffers(p);
    var hash := Wrap(p);
    var l := WrapDiffers(hash * 32);
    var total := Wrap(hash * 32) - hash + code;
    assert total == 31 * p + code + (31 * k + l) * 0x1_0000_0000;
    ModuloAbsorbs(total + 0x8000_0000, 31 * p + code + 0x8000_0000, 31 * k + l, 0x1_0000_0000);
  }

  function Power31(n: nat): int { if n == 0 then 1 else 31 * Power31(n - 1) }

  /** A joined text's value is its front's, moved up by a power of 31, plus its back's. */
  lemma {:induction false} PolynomialOfJoin(a: string, b: string)
    ensures Polynomial(a + b) == Polynomial(a) * Power31(|b|) + Polynomial(b)
  {
    if b == "" {
      assert a + b == a;
    } else {
      var n := |b| - 1;
      assert (a + b)[..|a| + n] == a + b[..n];
      PolynomialOfJoin(a, b[..n]);
      MoveUp(Polynomial(a), Power31(n), Power31(|b|), Polynomial(b[..n]));
    }
  }

  lemma MoveUp(a: int, p: int, q: int, b: int)
    requires q == 31 * p
    ensures 31 * (a * p + b) == a * q + 31 * b
  {
    assert a * q == 31 * (a * p);
  }

  lemma WrapIsCongruent(n: int)
    ensures (Wrap(n) - n) % 0x1_0000_0000 == 0
  {
    var k := WrapDiffers(n);
    ModuloAbsorbs(Wrap(n) - n, 0, k, 0x1_0000_0000);
  }

  /** Wrapping at every step is the same as wrapping once at the end: the signed 32-bit number congruent
      to the text's value. */
  method Hash(raw: string) returns (hash: int)
    ensures (hash - Polynomial(raw)) % 0x1_0000_0000 == 0 && -0x8000_0000 <= hash < 0x8000_0000
  {
    hash := 0;
    for i := 0 to |raw|
      invariant hash == Wrap(Polynomial(raw[..i]))
    {
      assert raw[..i + 1][..i] == raw[..i];
      HashStepWraps(Polynomial(raw[..i]), raw[i] as int);
      hash := HashStep(hash, raw[i] as int);
    }
    assert raw[..|raw|] == raw;
    WrapIsCongruent(Polynomial(raw));
  }

  // ---------------------------------------------------------------- the map, oldest insertion first

  datatype Slot = Slot(key: int, response: Response, expiresAt: int)

  predicate Keyed(slots: seq<Slot>) { forall i, j :: 0 <= i < j < |slots| ==> slots[i].key != slots[j].key }

  function Find(slots: seq<Slot>, key: int): (at: Option<nat>)
    ensures at.Some? ==> at.value < |slots| && slots[at.value].key == key
    ensures at.None? ==> forall i :: 0 <= i < |slots| ==> slots[i].key != key
  {
    if slots == [] then None
    else if slots[|slots| - 1].key == key then Some(|slots| - 1)
    else Find(slots[..|slots| - 1], key)
  }

  function Without(slots: seq<Slot>, at: nat): seq<Slot>
    requires at < |slots|
  {
    slots[..at] + slots[at + 1..]
  }

  /** Map.set: an existing key keeps its place, a new one goes last. */
  function Set(slots: seq<Slot>, slot: Slot): seq<Slot> {
    match Find(slots, slot.key)
    case Some(at) => slots[at := slot]
    case None => slots + [slot]
  }

  function Evicted(slots: seq<Slot>): seq<Slot> { if |slots| >= MAX_ENTRIES then slots[1..] else slots }

  function AfterPut(slots: seq<Slot>, key: int, response: Response, now: int, ttl: int): seq<Slot> {
    Set(Evicted(slots), Slot(key, response, now + ttl))
  }

  function AfterGet(slots: seq<Slot>, key: int, now: int): seq<Slot> {
    match Find(slots, key)
    case Some(at) => if now > slots[at].expiresAt then Without(slots, at) else slots
    case None => slots
  }

  function Hit(slots: seq<Slot>, key: int, now: int): Option<Response> {
    match Find(slots, key)
    case Some(at) => if now > slots[at].expiresAt then None else Some(slots[at].response)
    case None => None
  }

  class Cache {
    var entries: seq<Slot>

    constructor ()
      ensures entries == []
    {
      entries := [];
    }

    method GetCached(key: int, now: int) returns (response: Option<Response>)
      modifies this
      ensures response == Hit(old(entries), key, now) && entries == AfterGet(old(entries), key, now)
    {
      var at := Find(entries, key);
      if at.None? {
        return None;
      }
      var entry := entries[at.value];
      if now > entry.expiresAt {
        entries := entries[..at.value] + entries[at.value + 1..];
        return None;
      }
      return Some(entry.response);
    }

    method PutCache(key: int, response: Response, now: int, ttlMs: Option<int>)
      modifies this
      ensures entries == AfterPut(old(entries), key, response, now, if ttlMs.Some? then ttlMs.value else 300000)
    {
      var ttl := match ttlMs case Some(given) => given case None => DEFAULT_TTL;
      if |entries| >= MAX_ENTRIES {
        entries := entries[1..];
      }
      var at := Find(entries, key);
      if at.Some? {
        entries := entries[at.value := Slot(key, response, now + ttl)];
      } else {
        entries := entries + [Slot(key, response, now + ttl)];
      }
    }
  }

  // ---------------------------------------------------------------- the log of operations

  datatype Op = Put(key: int, response: Response, now: int, ttl: int) | Get(key: int, now: int)

  function Apply(slots: seq<Slot>, op: Op): seq<Slot> {
    match op
    case Put(key, response, now, ttl) => AfterPut(slots, key, response, now, ttl)
    case Get(key, now) => AfterGet(slots, key, now)
  }

  function Run(log: seq<Op>): seq<Slot> {
    if log == [] then [] else Apply(Run(log[..|log| - 1]), log[|log| - 1])
  }

  /** The last put under a key, if any. */
  function LastPut(log: seq<Op>, key: int): (n: Option<nat>)
    ensures n.Some? ==> n.value < |log| && log[n.value].Put? && log[n.value].key == key
    ensures n.Some? ==> forall m :: n.value < m < |log| && log[m].Put? ==> log[m].key != key
  {
    if log == [] then None
    else
      var last := log[|log| - 1];
      if last.Put? && last.key == key then Some(|log| - 1) else LastPut(log[..|log| - 1], key)
  }

  /** The put at which a key last came into the map (or came back, when it was its own victim). */
  function InsertedAt(log: seq<Op>, key: int): nat {
    if log == [] then 0
    else
      var before, last := Run(log[..|log| - 1]), log[|log| - 1];
      if last.Put? && last.key == key && Find(Evicted(before), key).None? then |log| - 1
      else InsertedAt(log[..|log| - 1], key)
  }

  predicate FromLog(log: seq<Op>, slot: Slot) {
    var n := LastPut(log, slot.key);
    n.Some? && slot == Slot(slot.key, log[n.value].response, log[n.value].now + log[n.value].ttl)
  }

  ghost predicate Faithful(log: seq<Op>, slots: seq<Slot>) {
    Keyed(slots) && |slots| <= MAX_ENTRIES && forall i :: 0 <= i < |slots| ==> FromLog(log, slots[i])
  }

  lemma EvictedFacts(slots: seq<Slot>)
    requires Keyed(slots)
    ensures Keyed(Evicted(slots)) && (|slots| <= MAX_ENTRIES ==> |Evicted(slots)| < MAX_ENTRIES)
    ensures forall s :: s in Evicted(slots) ==> s in slots
  {
  }

  lemma SetFacts(slots: seq<Slot>, slot: Slot)
    requires Keyed(slots)
    ensures Keyed(Set(slots, slot)) && |Set(slots, slot)| <= |slots| + 1
    ensures forall s :: s in Set(slots, slot) ==> s == slot || (s in slots && s.key != slot.key)
  {
    hide Find;
    var r := Set(slots, slot);
    forall s | s in r ensures s == slot || (s in slots && s.key != slot.key) {
      var i :| 0 <= i < |r| && r[i] == s;
      assert i < |slots| && s != slot ==> s == slots[i];
    }
  }

  lemma AfterGetFacts(slots: seq<Slot>, key: int, now: int)
    requires Keyed(slots)
    ensures Keyed(AfterGet(slots, key, now)) && |AfterGet(slots, key, now)| <= |slots|
    ensures forall s :: s in AfterGet(slots, key, now) ==> s in slots
  {
    hide Find;
  }

  lemma PutFaithful(log: seq<Op>, before: seq<Slot>)
    requires log != [] && log[|log| - 1].Put? && Faithful(log[..|log| - 1], before)
    ensures Faithful(log, Apply(before, log[|log| - 1]))
  {
    hide Set, Evicted, LastPut, FromLog, Keyed;
    var last := log[|log| - 1];
    var slot := Slot(last.key, last.response, last.now + last.ttl);
    var after := Apply(before, last);
    EvictedFacts(before);
    SetFacts(Evicted(before), slot);
    forall i | 0 <= i < |after| ensures FromLog(log, after[i]) {
      assert after[i] in after;
      if after[i] == slot {
        NowFromLog(log, slot);
      } else {
        assert after[i] in before;
        StillFromLog(log, after[i]);
      }
    }
  }

  lemma GetFaithful(log: seq<Op>, before: seq<Slot>)
    requires log != [] && log[|log| - 1].Get? && Faithful(log[..|log| - 1], before)
    ensures Faithful(log, Apply(before, log[|log| - 1]))
  {
    hide AfterGet, LastPut, FromLog, Keyed;
    var last := log[|log| - 1];
    var after := Apply(before, last);
    AfterGetFacts(before, last.key, last.now);
    forall i | 0 <= i < |after| ensures FromLog(log, after[i]) {
      assert after[i] in after;
      assert after[i] in before;
      StillFromLog(log, after[i]);
    }
  }

  lemma RunSnoc(log: seq<Op>)
    requires log != []
    ensures Run(log) == Apply(Run(log[..|log| - 1]), log[|log| - 1])
  {
  }

  lemma {:induction false} RunFaithful(log: seq<Op>)
    ensures Faithful(log, Run(log))
  {
    if log != [] {
      var front := log[..|log| - 1];
      RunSnoc(log);
      hide Run, Apply, Faithful;
      RunFaithful(front);
      if log[|log| - 1].Put? { PutFaithful(log, Run(front)); } else { GetFaithful(log, Run(front)); }
    }
  }

  lemma StillFromLog(log: seq<Op>, slot: Slot)
    requires log != [] && FromLog(log[..|log| - 1], slot)
    requires log[|log| - 1].Put? ==> slot.key != log[|log| - 1].key
    ensures FromLog(log, slot)
  {
    LastPutSnoc(log, slot.key);
  }

  lemma NowFromLog(log: seq<Op>, slot: Slot)
    requires log != [] && log[|log| - 1].Put?
    requires var last := log[|log| - 1]; slot == Slot(last.key, last.response, last.now + last.ttl)
    ensures FromLog(log, slot)
  {
  }

  lemma LastPutSnoc(log: seq<Op>, key: int)
    requires log != []
    ensures var last := log[|log| - 1];
            LastPut(log, key) == if last.Put? && last.key == key then Some(|log| - 1) else LastPut(log[..|log| - 1], key)
  {
  }

  // ---------------------------------------------------------------- main results

  /** In every reachable state: at most 1000 entries, and a hit is the response of the most recent
      put under the key, not past that put's time to live. */
  lemma HitsAreTheLatestPut(log: seq<Op>, key: int, now: int)
    ensures |Run(log)| <= 1000
    ensures Hit(Run(log), key, now).Some? ==>
              var n := LastPut(log, key);
              n.Some? && Hit(Run(log), key, now).value == log[n.value].response
              && now <= log[n.value].now + log[n.value].ttl
  {
    RunFaithful(log);
    hide Run;
    var at := Find(Run(log), key);
    if at.Some? { assert FromLog(log, Run(log)[at.value]); }
  }

  ghost predicate ByInsertion(log: seq<Op>, slots: seq<Slot>) {
    (forall i, j :: 0 <= i < j < |slots| ==> InsertedAt(log, slots[i].key) < InsertedAt(log, slots[j].key))
    && forall i :: 0 <= i < |slots| ==> InsertedAt(log, slots[i].key) < |log|
  }

  lemma InsertedAtSnoc(log: seq<Op>, key: int)
    requires log != []
    ensures var before, last := Run(log[..|log| - 1]), log[|log| - 1];
            InsertedAt(log, key)
            == if last.Put? && last.key == key && Find(Evicted(before), key).None? then |log| - 1
               else InsertedAt(log[..|log| - 1], key)
  {
  }

  /** Dropping entries keeps the order. */
  lemma DropKeepsOrder(log: seq<Op>, slots: seq<Slot>, at: nat)
    requires at < |slots| && ByInsertion(log, slots)
    ensures ByInsertion(log, Without(slots, at))
  {
    hide InsertedAt;
  }

  /** Nothing already there is re-inserted by an operation that does not bring its key in. */
  lemma SameOrder(log: seq<Op>, slots: seq<Slot>)
    requires log != [] && ByInsertion(log[..|log| - 1], slots)
    requires forall i :: 0 <= i < |slots| ==> InsertedAt(log, slots[i].key) == InsertedAt(log[..|log| - 1], slots[i].key)
    ensures ByInsertion(log, slots)
    ensures forall i :: 0 <= i < |slots| ==> InsertedAt(log, slots[i].key) < |log| - 1
  {
    hide InsertedAt;
  }

  lemma SetKeepsOrder(log: seq<Op>, slots: seq<Slot>, slot: Slot)
    requires log != [] && ByInsertion(log, slots)
    requires forall i :: 0 <= i < |slots| ==> InsertedAt(log, slots[i].key) < |log| - 1
    requires Find(slots, slot.key).None? ==> InsertedAt(log, slot.key) == |log| - 1
    ensures ByInsertion(log, Set(slots, slot))
  {
    hide InsertedAt, Find;
    var r := Set(slots, slot);
    assert forall i :: 0 <= i < |slots| ==> r[i].key == slots[i].key;
  }

  lemma PutKeepsOrder(log: seq<Op>)
    requires log != [] && log[|log| - 1].Put? && ByInsertion(log[..|log| - 1], Run(log[..|log| - 1]))
    ensures ByInsertion(log, Apply(Run(log[..|log| - 1]), log[|log| - 1]))
  {
    hide InsertedAt, ByInsertion, Set, Run, Find;
    var front, last := log[..|log| - 1], log[|log| - 1];
    var before := Run(front);
    var left := Evicted(before);
    if |before| >= MAX_ENTRIES {
      DropKeepsOrder(front, before, 0);
      assert Without(before, 0) == left;
    }
    forall i | 0 <= i < |left| ensures InsertedAt(log, left[i].key) == InsertedAt(front, left[i].key) {
      InsertedAtSnoc(log, left[i].key);
    }
    SameOrder(log, left);
    InsertedAtSnoc(log, last.key);
    SetKeepsOrder(log, left, Slot(last.key, last.response, last.now + last.ttl));
  }

  lemma GetKeepsOrder(log: seq<Op>)
    requires log != [] && log[|log| - 1].Get? && ByInsertion(log[..|log| - 1], Run(log[..|log| - 1]))
    ensures ByInsertion(log, Apply(Run(log[..|log| - 1]), log[|log| - 1]))
  {
    hide InsertedAt, ByInsertion, Run, Find, Without;
    var front, last := log[..|log| - 1], log[|log| - 1];
    var after := Apply(Run(front), last);
    if after != Run(front) { DropKeepsOrder(front, Run(front), Find(Run(front), last.key).value); }
    forall i | 0 <= i < |after| ensures InsertedAt(log, after[i].key) == InsertedAt(front, after[i].key) {
      InsertedAtSnoc(log, after[i].key);
    }
    SameOrder(log, after);
  }

  /** The map is kept in order of insertion, so eviction, which takes the first entry, always takes
      the surviving key that was inserted earliest. */
  lemma {:induction false} OrderedByInsertion(log: seq<Op>)
    ensures ByInsertion(log, Run(log))
  {
    if log != [] {
      RunSnoc(log);
      hide Run, Apply, InsertedAt, ByInsertion;
      OrderedByInsertion(log[..|log| - 1]);
      if log[|log| - 1].Put? { PutKeepsOrder(log); } else { GetKeepsOrder(log); }
    } else {
      assert Run(log) == [];
    }
  }

  // ---------------------------------------------------------------- how long an entry lasts

  /** How many more insertions an entry is safe from: the entries ahead of it and the free places. */
  function Room(slots: seq<Slot>, at: nat): int { at + MAX_ENTRIES - |slots| }

  /** An operation that leaves an entry alone: not a put under its key, nor a read past its expiry. */
  predicate Spares(op: Op, slot: Slot) { op.key != slot.key || (op.Get? && op.now <= slot.expiresAt) }

  lemma OpKeepsEntry(slots: seq<Slot>, op: Op, slot: Slot, at: nat) returns (at': nat)
    requires Keyed(slots) && |slots| <= MAX_ENTRIES && at < |slots| && slots[at] == slot
    requires Spares(op, slot) && (op.Put? ==> Room(slots, at) > 0)
    ensures var after := Apply(slots, op);
            Keyed(after) && |after| <= MAX_ENTRIES && at' < |after| && after[at'] == slot
            && Room(after, at') >= Room(slots, at) - if op.Put? then 1 else 0
  {
    hide Find;
    var after := Apply(slots, op);
    if op.Put? {
      var left := Evicted(slots);
      EvictedFacts(slots);
      SetFacts(left, Slot(op.key, op.response, op.now + op.ttl));
      at' := if |slots| >= MAX_ENTRIES then at - 1 else at;
      assert left[at'] == slot;
    } else {
      AfterGetFacts(slots, op.key, op.now);
      var found := Find(slots, op.key);
      at' := if |after| < |slots| && found.value < at then at - 1 else at;
    }
  }

  function Puts(ops: seq<Op>): nat {
    if ops == [] then 0 else Puts(ops[..|ops| - 1]) + if ops[|ops| - 1].Put? then 1 else 0
  }

  lemma {:induction false} EntryLasts(log: seq<Op>, ops: seq<Op>, slot: Slot, at: nat) returns (at': nat)
    requires at < |Run(log)| && Run(log)[at] == slot
    requires (forall i :: 0 <= i < |ops| ==> Spares(ops[i], slot)) && Puts(ops) <= Room(Run(log), at)
    ensures at' < |Run(log + ops)| && Run(log + ops)[at'] == slot
    ensures Room(Run(log + ops), at') >= Room(Run(log), at) - Puts(ops)
  {
    if ops == [] {
      assert log + ops == log;
      at' := at;
    } else {
      hide Run, Apply, Spares;
      var n := |ops| - 1;
      at' := EntryLasts(log, ops[..n], slot, at);
      RunFaithful(log + ops[..n]);
      assert (log + ops)[..|log + ops| - 1] == log + ops[..n];
      RunSnoc(log + ops);
      at' := OpKeepsEntry(Run(log + ops[..n]), ops[n], slot, at');
    }
  }

  /** A newly inserted entry is served for its whole time to live through at least 999 further
      puts under other keys, whatever reads happen in between. */
  lemma NewEntryOutlives999Puts(log: seq<Op>, ops: seq<Op>, now: int)
    requires log != [] && log[|log| - 1].Put?
    requires Find(Evicted(Run(log[..|log| - 1])), log[|log| - 1].key).None?
    requires var last := log[|log| - 1];
             Puts(ops) <= 999 && now <= last.now + last.ttl
             && forall i :: 0 <= i < |ops| ==> Spares(ops[i], Slot(last.key, last.response, last.now + last.ttl))
    ensures Hit(Run(log + ops), log[|log| - 1].key, now) == Some(log[|log| - 1].response)
  {
    var last := log[|log| - 1];
    var slot := Slot(last.key, last.response, last.now + last.ttl);
    RunSnoc(log);
    hide Run, Find;
    assert Run(log)[|Run(log)| - 1] == slot;
    var at := EntryLasts(log, ops, slot, |Run(log)| - 1);
    RunFaithful(log + ops);
    hide Spares, LastPut;
    var found := Find(Run(log + ops), last.key);
    assert found == Some(at);
  }

  /** A put under a key already present keeps every other entry exactly when the map is not full or
      the key is itself the oldest; otherwise the oldest entry is lost for nothing. */
  lemma RefreshKeepsOthersIff(slots: seq<Slot>, key: int, response: Response, now: int, ttl: int)
    requires Keyed(slots) && Find(slots, key).Some?
    ensures var after := AfterPut(slots, key, response, now, ttl);
            ((forall s :: s in slots && s.key != key ==> s in after)
             <==> |slots| < 1000 || slots[0].key == key)
            && |after| == if |slots| < 1000 || slots[0].key == key then |slots| else |slots| - 1
  {
    hide Find;
    var left := Evicted(slots);
    var after := AfterPut(slots, key, response, now, ttl);
    var slot := Slot(key, response, now + ttl);
    var at := Find(slots, key).value;
    EvictedFacts(slots);
    SetFacts(left, slot);
    SetKeepsOthers(left, slot);
    if |slots| < MAX_ENTRIES {
      assert left == slots;
    } else {
      assert slots == [slots[0]] + left;
      assert forall s :: s in left ==> s.key != slots[0].key;
      if slots[0].key != key {
        assert left[at - 1].key == key;
        assert slots[0] in slots && slots[0] !in after;
      }
    }
  }

  lemma SetKeepsOthers(slots: seq<Slot>, slot: Slot)
    requires Keyed(slots)
    ensures forall s :: s in slots && s.key != slot.key ==> s in Set(slots, slot)
    ensures |Set(slots, slot)| == if exists s :: s in slots && s.key == slot.key then |slots| else |slots| + 1
  {
    hide Find;
    var r := Set(slots, slot);
    forall s | s in slots && s.key != slot.key ensures s in r {
      var i :| 0 <= i < |slots| && slots[i] == s;
      assert r[i] == s;
    }
  }
}
