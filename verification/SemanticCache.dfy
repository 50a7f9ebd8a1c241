/** The semantic cache (cache/semantic.ts, createSemanticCache): in-memory buckets mirroring a
    database table, with eviction, and a best-match lookup. */
module SemanticCache {
  import opened Options
  import opened BestMatch
  import Cosine

  /** MAX_ENTRIES_PER_TENANT */
  const MAX_BUCKET := 10000

  // ---------------------------------------------------------------- data

  datatype Role = System | User | Assistant | Tool
  datatype Message = Message(role: Role, text: string)

  /** What the cache asks of its surroundings: embeddings, text signals, 32-bit float rounding. */
  datatype Setting = Setting(
    embed: string -> seq<real>, model: string, personal: string -> bool, systemHash: seq<Message> -> string,
    sqrt: real -> real, float32: real -> real, threshold: real)

  /** A table row, and with its tenant key in place of its tenant a row in memory. */
  datatype Row = Row(
    id: string, provider: string, model: string, systemHash: Option<string>, embedding: seq<real>, embeddingDim: nat,
    embeddingModel: string, response: string, inputTokens: nat, outputTokens: nat)

  datatype TableRow = TableRow(tenantId: Option<string>, row: Row)

  datatype DbOp = Insert(inserted: TableRow) | Delete(id: string)

  function TenantKey(tenantId: Option<string>, provider: string, model: string): string {
    (if tenantId.Some? then tenantId.value else "anon") + "::" + provider + "::" + model
  }

  function KeyOf(t: TableRow): string { TenantKey(t.tenantId, t.row.provider, t.row.model) }

  // ---------------------------------------------------------------- eligibility

  function CountRole(messages: seq<Message>, role: Role): nat {
    if messages == [] then 0
    else CountRole(messages[..|messages| - 1], role) + if messages[|messages| - 1].role == role then 1 else 0
  }

  /** isCacheEligible: one user message, no assistant turn. */
  predicate CacheEligible(messages: seq<Message>) {
    CountRole(messages, User) == 1 && CountRole(messages, Assistant) == 0
  }

  function FirstUser(messages: seq<Message>): string {
    if messages == [] then "" else if messages[0].role == User then messages[0].text else FirstUser(messages[1..])
  }

  // ---------------------------------------------------------------- the table

  function Round(float32: real -> real, v: seq<real>): (r: seq<real>)
    ensures |r| == |v|
  {
    seq(|v|, i requires 0 <= i < |v| => float32(v[i]))
  }

  /** What an insert stores: the embedding in 32-bit floats. */
  function Stored(float32: real -> real, row: Row): Row { row.(embedding := Round(float32, row.embedding)) }

  function WithoutId(table: seq<TableRow>, id: string): seq<TableRow> {
    if table == [] then []
    else
      var last := table[|table| - 1];
      WithoutId(table[..|table| - 1], id) + if last.row.id == id then [] else [last]
  }

  function Landed(float32: real -> real, table: seq<TableRow>, op: DbOp): seq<TableRow> {
    match op
    case Insert(t) => table + [t.(row := Stored(float32, t.row))]
    case Delete(id) => WithoutId(table, id)
  }

  /** The table once the outstanding operations have landed, in order. */
  function Settled(float32: real -> real, table: seq<TableRow>, pending: seq<DbOp>): seq<TableRow> {
    if pending == [] then table
    else Landed(float32, Settled(float32, table, pending[..|pending| - 1]), pending[|pending| - 1])
  }

  // ---------------------------------------------------------------- buckets

  function Bucket(memory: map<string, seq<Row>>, key: string): seq<Row> { if key in memory then memory[key] else [] }

  /** The table's rows under one tenant key, in table order. */
  function RowsOf(table: seq<TableRow>, key: string): seq<Row> {
    if table == [] then []
    else
      var last := table[|table| - 1];
      RowsOf(table[..|table| - 1], key) + if KeyOf(last) == key then [last.row] else []
  }

  function AfterPush(bucket: seq<Row>, row: Row): seq<Row> {
    var grown := bucket + [row];
    if |grown| > MAX_BUCKET then grown[1..] else grown
  }

  function StoredAll(float32: real -> real, rows: seq<Row>): (r: seq<Row>)
    ensures |r| == |rows|
  {
    seq(|rows|, i requires 0 <= i < |rows| => Stored(float32, rows[i]))
  }

  /** Memory mirrors the table: rehydrating from it gives each bucket, up to 32-bit rounding. */
  ghost predicate Mirrors(float32: real -> real, memory: map<string, seq<Row>>, table: seq<TableRow>) {
    forall key :: RowsOf(table, key) == StoredAll(float32, Bucket(memory, key))
  }

  predicate UniqueIds(table: seq<TableRow>) {
    forall i, j :: 0 <= i < j < |table| ==> table[i].row.id != table[j].row.id
  }

  predicate WellDimmed(row: Row) { row.embeddingDim == |row.embedding| }

  /** The candidates of a lookup: None for rows of another model, system prompt or dimension. */
  function Similarities(s: Setting, bucket: seq<Row>, hash: string, query: seq<real>): (r: seq<Option<real>>)
    requires forall i :: 0 <= i < |bucket| ==> WellDimmed(bucket[i])
    ensures |r| == |bucket|
  {
    seq(|bucket|, i requires 0 <= i < |bucket| => SimilarityOf(s, bucket[i], hash, query))
  }

  predicate Comparable(s: Setting, row: Row, hash: string, query: seq<real>) {
    row.embeddingModel == s.model && row.systemHash == Some(hash) && row.embeddingDim == |query|
  }

  function SimilarityOf(s: Setting, row: Row, hash: string, query: seq<real>): Option<real>
    requires WellDimmed(row)
  {
    if Comparable(s, row, hash, query) then Some(Cosine.Cosine(s.sqrt, query, row.embedding)) else None
  }

  // ---------------------------------------------------------------- the cache object

  class SemanticCache {
    const setting: Setting
    var memory: map<string, seq<Row>>
    /** Writes sent to the database and not yet known to have landed. */
    var pending: seq<DbOp>

    ghost predicate Valid()
      reads this
    {
      forall key, i :: key in memory && 0 <= i < |memory[key]| ==> WellDimmed(memory[key][i])
    }

    /** hydrate: every table row pushed onto its bucket. */
    constructor (setting: Setting, table: seq<TableRow>)
      requires forall i :: 0 <= i < |table| ==> WellDimmed(table[i].row)
      ensures Valid() && this.setting == setting && pending == []
      ensures forall key :: Bucket(memory, key) == RowsOf(table, key)
    {
      this.setting := setting;
      pending := [];
      memory := map[];
      new;
      hide RowsOf, KeyOf;
      assert forall key :: RowsOf([], key) == [] by { NoRows(); }
      for i := 0 to |table|
        invariant this.setting == setting && pending == [] && Valid()
        invariant forall key :: Bucket(memory, key) == RowsOf(table[..i], key)
      {
        assert table[..i + 1] == table[..i] + [table[i]];
        forall key {
          RowsSnoc(table[..i], table[i], key);
        }
        var key := KeyOf(table[i]);
        memory := memory[key := Bucket(memory, key) + [table[i].row]];
      }
      assert table[..|table|] == table;
    }

    method Get(messages: seq<Message>, tenantId: Option<string>, provider: string, model: string)
        returns (best: Option<Row>, similarity: real)
      requires Valid()
      ensures best == Lookup(setting, Bucket(memory, TenantKey(tenantId, provider, model)), messages)
      ensures best.Some? ==>
                SimilarityOf(setting, best.value, setting.systemHash(messages), setting.embed(FirstUser(messages)))
                == Some(similarity)
    {
      best, similarity := None, 0.0;
      if !CacheEligible(messages) || setting.personal(FirstUser(messages)) {
        return;
      }
      var bucket := Bucket(memory, TenantKey(tenantId, provider, model));
      var hash, query := setting.systemHash(messages), setting.embed(FirstUser(messages));
      ghost var sims := Similarities(setting, bucket, hash, query);
      ghost var at: Option<nat> := None;
      for i := 0 to |bucket|
        invariant at == Scan(sims[..i], setting.threshold)
        invariant best == (if at.Some? then Some(bucket[at.value]) else None)
        invariant at.Some? ==> sims[at.value] == Some(similarity)
      {
        assert sims[..i + 1][..i] == sims[..i];
        var row := bucket[i];
        if Comparable(setting, row, hash, query) {
          var sim := Cosine.CosineSimilarity(setting.sqrt, query, row.embedding);
          if sim.value >= setting.threshold && (best.None? || sim.value > similarity) {
            best, similarity := Some(row), sim.value;
            at := Some(i);
          }
        }
      }
      assert sims[..|bucket|] == sims;
    }

    /** The row is pushed, the oldest one of an overfull bucket shifted out and its deletion sent
        before the insertion. `id` is fresh. */
    method Put(messages: seq<Message>, tenantId: Option<string>, provider: string, model: string, id: string,
               response: string, inputTokens: nat, outputTokens: nat)
      requires Valid()
      modifies this
      ensures Valid()
      ensures var row := NewRow(setting, messages, provider, model, id, response, inputTokens, outputTokens);
              (memory, pending)
              == if Cacheable(messages) then AfterPut(old(memory), old(pending), TableRow(tenantId, row))
                 else (old(memory), old(pending))
    {
      hide RowsOf, CacheEligible, FirstUser, TenantKey;
      var prompt := FirstUser(messages);
      if !CacheEligible(messages) || prompt == "" {
        return;
      }
      var vec := setting.embed(prompt);
      var row := Row(id, provider, model, Some(setting.systemHash(messages)), vec, |vec|, setting.model, response,
                     inputTokens, outputTokens);
      var key := TenantKey(tenantId, provider, model);
      var bucket := Bucket(memory, key) + [row];
      if |bucket| > MAX_BUCKET {
        var evicted := bucket[0];
        bucket := bucket[1..];
        pending := pending + [Delete(evicted.id)];
      }
      memory := memory[key := bucket];
      pending := pending + [Insert(TableRow(tenantId, row))];
      assert row == NewRow(setting, messages, provider, model, id, response, inputTokens, outputTokens);
      assert memory == AfterPut(old(memory), old(pending), TableRow(tenantId, row)).0;
      assert pending == AfterPut(old(memory), old(pending), TableRow(tenantId, row)).1;
    }
  }

  predicate Cacheable(messages: seq<Message>) { CacheEligible(messages) && FirstUser(messages) != "" }

  function NewRow(s: Setting, messages: seq<Message>, provider: string, model: string, id: string, response: string,
                  inputTokens: nat, outputTokens: nat): Row
  {
    var vec := s.embed(FirstUser(messages));
    Row(id, provider, model, Some(s.systemHash(messages)), vec, |vec|, s.model, response, inputTokens, outputTokens)
  }

  /** A put's effect on memory and on the writes sent. */
  function AfterPut(memory: map<string, seq<Row>>, pending: seq<DbOp>, t: TableRow): (map<string, seq<Row>>, seq<DbOp>) {
    var key := KeyOf(t);
    var grown := Bucket(memory, key) + [t.row];
    (memory[key := AfterPush(Bucket(memory, key), t.row)],
     pending + (if |grown| > MAX_BUCKET then [Delete(grown[0].id)] else []) + [Insert(t)])
  }

  /** What a lookup answers: the first row of greatest similarity among the comparable ones at or
      above the threshold. */
  function Lookup(s: Setting, bucket: seq<Row>, messages: seq<Message>): Option<Row>
    requires forall i :: 0 <= i < |bucket| ==> WellDimmed(bucket[i])
  {
    if !CacheEligible(messages) || s.personal(FirstUser(messages)) then None
    else
      match Scan(Similarities(s, bucket, s.systemHash(messages), s.embed(FirstUser(messages))), s.threshold)
      case Some(i) => Some(bucket[i])
      case None => None
  }

  // ---------------------------------------------------------------- lookups

  /** A lookup answers the earliest row of maximal similarity among those of the same embedding
      model, system prompt and dimension that reach the threshold; nothing exactly when there is
      none, or when the request is not eligible or looks personal. */
  lemma LookupIsBest(s: Setting, bucket: seq<Row>, messages: seq<Message>)
    requires forall i :: 0 <= i < |bucket| ==> WellDimmed(bucket[i])
    ensures var sims := Similarities(s, bucket, s.systemHash(messages), s.embed(FirstUser(messages)));
            if CacheEligible(messages) && !s.personal(FirstUser(messages)) && exists i: nat :: Eligible(sims, s.threshold, i) then
              exists i: nat :: IsBest(sims, s.threshold, i) && i < |bucket| && Lookup(s, bucket, messages) == Some(bucket[i])
            else Lookup(s, bucket, messages).None?
  {
    hide Scan, SimilarityOf;
    var sims := Similarities(s, bucket, s.systemHash(messages), s.embed(FirstUser(messages)));
    ScanFindsBest(sims, s.threshold);
    var best := Scan(sims, s.threshold);
    if best.Some? { assert IsBest(sims, s.threshold, best.value); }
  }

  /** A cached request that does not look personal and embeds to a non-zero vector is found again
      at once, with similarity 1, for any threshold up to 1. */
  lemma ReplayHits(s: Setting, bucket: seq<Row>, messages: seq<Message>, row: Row)
    requires Cacheable(messages) && !s.personal(FirstUser(messages)) && s.threshold <= 1.0
    requires row == NewRow(s, messages, row.provider, row.model, row.id, row.response, row.inputTokens, row.outputTokens)
    requires Cosine.Norm(row.embedding) != 0.0
    requires forall i :: 0 <= i < |bucket| ==> WellDimmed(bucket[i]) && Cosine.RootAt(s.sqrt, Cosine.Norm(bucket[i].embedding))
    requires Cosine.RootAt(s.sqrt, Cosine.Norm(row.embedding))
    ensures var after := AfterPush(bucket, row);
            (forall i :: 0 <= i < |after| ==> WellDimmed(after[i]))
            && exists hit: Row :: Lookup(s, after, messages) == Some(hit)
                 && SimilarityOf(s, hit, s.systemHash(messages), s.embed(FirstUser(messages))) == Some(1.0)
  {
    hide Scan, Cosine.Cosine, Cosine.RootAt, FirstUser;
    var after := AfterPush(bucket, row);
    var hash, query := s.systemHash(messages), s.embed(FirstUser(messages));
    var n: nat := |after| - 1;
    assert after[n] == row;
    forall i | 0 <= i < |after| ensures WellDimmed(after[i]) && Cosine.RootAt(s.sqrt, Cosine.Norm(after[i].embedding)) {
    }
    var sims := Similarities(s, after, hash, query);
    Cosine.CosineOfSelf(s.sqrt, query);
    assert Eligible(sims, s.threshold, n) && sims[n] == Some(1.0);
    ScanFindsBest(sims, s.threshold);
    var best := Scan(sims, s.threshold).value;
    assert IsBest(sims, s.threshold, best);
    Cosine.CosineInUnit(s.sqrt, query, after[best].embedding);
    assert SimilarityOf(s, after[best], hash, query) == Some(1.0);
  }

  // ---------------------------------------------------------------- the mirror

  /** Buckets never grow past the bound; one already larger keeps its size. */
  lemma BucketBound(bucket: seq<Row>, row: Row)
    ensures |AfterPush(bucket, row)| == if |bucket| < MAX_BUCKET then |bucket| + 1 else |bucket|
    ensures AfterPush(bucket, row)[|AfterPush(bucket, row)| - 1] == row
  {
  }

  ghost predicate HasId(table: seq<TableRow>, id: string) { exists i :: 0 <= i < |table| && table[i].row.id == id }

  lemma {:induction false} WithoutIdFacts(table: seq<TableRow>, id: string)
    requires UniqueIds(table)
    ensures UniqueIds(WithoutId(table, id))
    ensures forall other :: HasId(WithoutId(table, id), other) ==> HasId(table, other)
    ensures !HasId(table, id) ==> WithoutId(table, id) == table
  {
    if table != [] {
      var front, last := table[..|table| - 1], table[|table| - 1];
      WithoutIdFacts(front, id);
      var rest, result := WithoutId(front, id), WithoutId(table, id);
      assert forall i :: 0 <= i < |front| ==> front[i] == table[i];
      assert HasId(front, id) ==> HasId(table, id);
      assert !HasId(rest, last.row.id);
      forall other | HasId(result, other) ensures HasId(table, other) {
        var i :| 0 <= i < |result| && result[i].row.id == other;
        if i < |rest| {
          assert HasId(rest, other);
        } else {
          assert table[|table| - 1].row.id == other;
        }
      }
      assert table == front + [last];
      assert last.row.id == id ==> HasId(table, id);
    }
  }

  lemma {:induction false} RowsHaveIds(table: seq<TableRow>, key: string)
    ensures forall r :: r in RowsOf(table, key) ==> HasId(table, r.id)
  {
    if table != [] {
      var front := table[..|table| - 1];
      RowsHaveIds(front, key);
      forall r | r in RowsOf(table, key) ensures HasId(table, r.id) {
        if r in RowsOf(front, key) {
          var i :| 0 <= i < |front| && front[i].row.id == r.id;
          assert table[i].row.id == r.id;
        } else {
          assert table[|table| - 1].row.id == r.id;
        }
      }
    }
  }

  /** Deleting the id at the head of one key's rows takes that row and no other. */
  lemma {:induction false} DeleteHead(table: seq<TableRow>, key: string, other: string)
    requires table != [] && UniqueIds(table) && RowsOf(table, key) != []
    ensures var id := RowsOf(table, key)[0].id;
            RowsOf(WithoutId(table, id), other)
            == if other == key then RowsOf(table, key)[1..] else RowsOf(table, other)
  {
    hide RowsOf, KeyOf, WithoutId, UniqueIds, HasId;
    var id := RowsOf(table, key)[0].id;
    var front, last := table[..|table| - 1], table[|table| - 1];
    assert table == front + [last];
    RowsSnoc(front, last, key);
    RowsSnoc(front, last, other);
    WithoutSnoc(front, last, id);
    LastIsNew(table);
    if RowsOf(front, key) == [] {
      assert id == last.row.id && KeyOf(last) == key;
      WithoutIdFacts(front, id);
    } else {
      RowsHaveIds(front, key);
      assert RowsOf(front, key)[0] in RowsOf(front, key);
      SomeRow(front, key);
      DeleteHead(front, key, other);
      RowsSnoc(WithoutId(front, id), last, other);
    }
  }

  lemma SomeRow(table: seq<TableRow>, key: string)
    requires RowsOf(table, key) != []
    ensures table != []
  {
  }

  lemma WithoutSnoc(table: seq<TableRow>, last: TableRow, id: string)
    ensures WithoutId(table + [last], id) == if last.row.id == id then WithoutId(table, id) else WithoutId(table, id) + [last]
  {
    assert (table + [last])[..|table|] == table;
  }

  lemma LastIsNew(table: seq<TableRow>)
    requires table != [] && UniqueIds(table)
    ensures !HasId(table[..|table| - 1], table[|table| - 1].row.id) && UniqueIds(table[..|table| - 1])
  {
  }

  lemma NoRows()
    ensures forall key :: RowsOf([], key) == []
  {
  }

  lemma RowsSnoc(table: seq<TableRow>, last: TableRow, key: string)
    ensures RowsOf(table + [last], key) == RowsOf(table, key) + if KeyOf(last) == key then [last.row] else []
  {
    assert (table + [last])[..|table|] == table;
  }

  lemma SettledSnoc(float32: real -> real, table: seq<TableRow>, pending: seq<DbOp>, op: DbOp)
    ensures Settled(float32, table, pending + [op]) == Landed(float32, Settled(float32, table, pending), op)
  {
    assert (pending + [op])[..|pending|] == pending;
  }

  /** The table after a put's writes, in terms of the table before them. */
  lemma PutSettles(float32: real -> real, table: seq<TableRow>, memory: map<string, seq<Row>>, pending: seq<DbOp>,
                   t: TableRow)
    ensures var before := Settled(float32, table, pending);
            var grown := Bucket(memory, KeyOf(t)) + [t.row];
            Settled(float32, table, AfterPut(memory, pending, t).1)
            == (if |grown| > MAX_BUCKET then WithoutId(before, grown[0].id) else before)
               + [t.(row := Stored(float32, t.row))]
  {
    hide KeyOf, WithoutId, Stored, Settled;
    var grown := Bucket(memory, KeyOf(t)) + [t.row];
    if |grown| > MAX_BUCKET {
      SettledSnoc(float32, table, pending, Delete(grown[0].id));
      SettledSnoc(float32, table, pending + [Delete(grown[0].id)], Insert(t));
    } else {
      assert pending + [] == pending;
      SettledSnoc(float32, table, pending, Insert(t));
    }
  }

  /** A put keeps memory and (settled) table in step. */
  lemma PutKeepsMirror(float32: real -> real, table: seq<TableRow>, memory: map<string, seq<Row>>, pending: seq<DbOp>,
                       t: TableRow)
    requires var settled := Settled(float32, table, pending);
             Mirrors(float32, memory, settled) && UniqueIds(settled) && !HasId(settled, t.row.id)
    ensures var (memory', pending') := AfterPut(memory, pending, t);
            var settled' := Settled(float32, table, pending');
            Mirrors(float32, memory', settled') && UniqueIds(settled')
            && forall id :: HasId(settled', id) ==> HasId(Settled(float32, table, pending), id) || id == t.row.id
  {
    hide Settled, RowsOf, KeyOf, WithoutId;
    var key := KeyOf(t);
    var settled, bucket := Settled(float32, table, pending), Bucket(memory, key);
    var grown := bucket + [t.row];
    var stored := t.(row := Stored(float32, t.row));
    PutSettles(float32, table, memory, pending, t);
    var evicts := |grown| > MAX_BUCKET;
    var left := if evicts then WithoutId(settled, grown[0].id) else settled;
    WithoutIdFacts(settled, grown[0].id);
    assert KeyOf(stored) == key by { SameKey(t, float32); }
    forall other
      ensures RowsOf(left + [stored], other) == StoredAll(float32, Bucket(AfterPut(memory, pending, t).0, other))
    {
      assert RowsOf(settled, other) == StoredAll(float32, Bucket(memory, other));
      assert RowsOf(settled, key) == StoredAll(float32, bucket);
      RowsSnoc(left, stored, other);
      if evicts {
        assert grown[0] == bucket[0] && RowsOf(settled, key)[0].id == bucket[0].id;
        SomeRow(settled, key);
        DeleteHead(settled, key, other);
      }
      PushStored(float32, bucket, t.row);
    }
    UniqueSnoc(left, stored);
    forall id | HasId(left + [stored], id) ensures HasId(settled, id) || id == t.row.id {
      HasIdSnoc(left, stored, id);
    }
  }

  lemma SameKey(t: TableRow, float32: real -> real)
    ensures KeyOf(t.(row := Stored(float32, t.row))) == KeyOf(t)
  {
  }

  lemma PushStored(float32: real -> real, bucket: seq<Row>, row: Row)
    ensures StoredAll(float32, AfterPush(bucket, row))
            == if |bucket| + 1 > MAX_BUCKET then StoredAll(float32, bucket)[1..] + [Stored(float32, row)]
               else StoredAll(float32, bucket) + [Stored(float32, row)]
  {
    hide Stored;
  }

  lemma HasIdSnoc(table: seq<TableRow>, last: TableRow, id: string)
    ensures HasId(table + [last], id) <==> HasId(table, id) || last.row.id == id
  {
    var all := table + [last];
    if i :| 0 <= i < |table| && table[i].row.id == id { assert all[i].row.id == id; }
    if last.row.id == id { assert all[|table|].row.id == id; }
    if i :| 0 <= i < |all| && all[i].row.id == id { assert i < |table| ==> table[i].row.id == id; }
  }

  lemma UniqueSnoc(table: seq<TableRow>, last: TableRow)
    requires UniqueIds(table) && !HasId(table, last.row.id)
    ensures UniqueIds(table + [last])
  {
  }

  // ---------------------------------------------------------------- whole runs

  /** The process and its database: rows in memory, rows in the table, writes on their way. */
  datatype World = World(memory: map<string, seq<Row>>, table: seq<TableRow>, pending: seq<DbOp>)

  /** A put, or the oldest outstanding write landing. */
  datatype Event = Putting(t: TableRow) | Landing

  function Step(float32: real -> real, w: World, e: Event): World {
    match e
    case Putting(t) =>
      var (memory, pending) := AfterPut(w.memory, w.pending, t);
      w.(memory := memory, pending := pending)
    case Landing =>
      if w.pending == [] then w
      else w.(table := Landed(float32, w.table, w.pending[0]), pending := w.pending[1..])
  }

  function Run(float32: real -> real, start: World, events: seq<Event>): World {
    if events == [] then start
    else Step(float32, Run(float32, start, events[..|events| - 1]), events[|events| - 1])
  }

  /** Every put uses an id that no row in the table and no earlier put has. */
  ghost predicate FreshIds(table: seq<TableRow>, events: seq<Event>) {
    forall i :: 0 <= i < |events| && events[i].Putting? ==>
      !HasId(table, events[i].t.row.id)
      && forall j :: 0 <= j < i && events[j].Putting? ==> events[j].t.row.id != events[i].t.row.id
  }

  ghost predicate PutBefore(events: seq<Event>, id: string) {
    exists i :: 0 <= i < |events| && events[i].Putting? && events[i].t.row.id == id
  }

  ghost predicate InStep(float32: real -> real, w: World) {
    Mirrors(float32, w.memory, Settled(float32, w.table, w.pending)) && UniqueIds(Settled(float32, w.table, w.pending))
    && forall key :: |Bucket(w.memory, key)| <= MAX_BUCKET
  }

  lemma {:induction false} LandingSettlesSame(float32: real -> real, table: seq<TableRow>, pending: seq<DbOp>)
    requires pending != []
    ensures Settled(float32, Landed(float32, table, pending[0]), pending[1..]) == Settled(float32, table, pending)
  {
    hide Landed;
    var n := |pending| - 1;
    if n == 0 {
      assert Settled(float32, table, pending[..0]) == table;
    } else {
      assert pending[1..][..n - 1] == pending[..n][1..];
      LandingSettlesSame(float32, table, pending[..n]);
    }
  }

  lemma {:induction false} RunInStep(float32: real -> real, start: World, events: seq<Event>)
    requires InStep(float32, start) && start.pending == [] && FreshIds(start.table, events)
    ensures var w := Run(float32, start, events);
            InStep(float32, w)
            && forall id :: HasId(Settled(float32, w.table, w.pending), id) ==> HasId(start.table, id) || PutBefore(events, id)
  {
    if events == [] {
      assert Settled(float32, start.table, []) == start.table;
    } else {
      hide Settled, Landed, Mirrors, UniqueIds, HasId, AfterPut, Bucket;
      var front, last := events[..|events| - 1], events[|events| - 1];
      var w := Run(float32, start, front);
      assert FreshIds(start.table, front);
      RunInStep(float32, start, front);
      PutBeforeGrows(events);
      if last.Putting? {
        NotPutBefore(start.table, events);
        PutKeepsMirror(float32, w.table, w.memory, w.pending, last.t);
        PutKeepsBound(w.memory, w.pending, last.t);
      } else if w.pending != [] {
        LandingSettlesSame(float32, w.table, w.pending);
      }
    }
  }

  lemma PutBeforeGrows(events: seq<Event>)
    requires events != []
    ensures forall id :: PutBefore(events[..|events| - 1], id) ==> PutBefore(events, id)
    ensures var last := events[|events| - 1]; last.Putting? ==> PutBefore(events, last.t.row.id)
  {
    var front := events[..|events| - 1];
    forall id | PutBefore(front, id) ensures PutBefore(events, id) {
      var i :| 0 <= i < |front| && front[i].Putting? && front[i].t.row.id == id;
      assert events[i].Putting? && events[i].t.row.id == id;
    }
  }

  lemma NotPutBefore(table: seq<TableRow>, events: seq<Event>)
    requires events != [] && events[|events| - 1].Putting? && FreshIds(table, events)
    ensures var id := events[|events| - 1].t.row.id; !HasId(table, id) && !PutBefore(events[..|events| - 1], id)
  {
  }

  lemma PutKeepsBound(memory: map<string, seq<Row>>, pending: seq<DbOp>, t: TableRow)
    requires forall key :: |Bucket(memory, key)| <= MAX_BUCKET
    ensures forall key :: |Bucket(AfterPut(memory, pending, t).0, key)| <= MAX_BUCKET
  {
    BucketBound(Bucket(memory, KeyOf(t)), t.row);
    var after := AfterPut(memory, pending, t).0;
    forall key ensures |Bucket(after, key)| <= MAX_BUCKET {
      assert key != KeyOf(t) ==> Bucket(after, key) == Bucket(memory, key);
      assert |Bucket(memory, key)| <= MAX_BUCKET;
    }
  }

  /** Over any run of puts and landing writes, from memory hydrated from a table of distinct ids
      whose buckets fit the bound and whose embeddings are already 32-bit: every bucket stays within
      the bound, and once no write is outstanding, rehydrating gives every bucket back up to 32-bit
      rounding. */
  lemma RehydrationAgrees(float32: real -> real, start: World, events: seq<Event>, key: string)
    requires start.pending == [] && UniqueIds(start.table) && FreshIds(start.table, events)
    requires forall k :: Bucket(start.memory, k) == RowsOf(start.table, k)
    requires forall k :: |RowsOf(start.table, k)| <= 10000
    requires forall k :: StoredAll(float32, RowsOf(start.table, k)) == RowsOf(start.table, k)
    ensures var w := Run(float32, start, events);
            var stored, held := RowsOf(w.table, key), Bucket(w.memory, key);
            |held| <= 10000
            && (w.pending == [] ==>
                  |stored| == |held|
                  && forall i :: 0 <= i < |held| ==>
                       stored[i] == held[i].(embedding := stored[i].embedding)
                       && |stored[i].embedding| == |held[i].embedding|
                       && forall c :: 0 <= c < |held[i].embedding| ==>
                            stored[i].embedding[c] == float32(held[i].embedding[c]))
  {
    var w := Run(float32, start, events);
    assert InStep(float32, start) by {
      hide RowsOf, StoredAll, UniqueIds;
      assert Settled(float32, start.table, []) == start.table;
      forall k ensures RowsOf(start.table, k) == StoredAll(float32, Bucket(start.memory, k)) {
        assert Bucket(start.memory, k) == RowsOf(start.table, k);
      }
      forall k ensures |Bucket(start.memory, k)| <= MAX_BUCKET {
        assert Bucket(start.memory, k) == RowsOf(start.table, k);
      }
    }
    RunInStep(float32, start, events);
    hide Run, RowsOf;
    assert |Bucket(w.memory, key)| <= MAX_BUCKET;
    if w.pending == [] {
      assert Settled(float32, w.table, []) == w.table;
      assert RowsOf(w.table, key) == StoredAll(float32, Bucket(w.memory, key));
    }
  }
}
