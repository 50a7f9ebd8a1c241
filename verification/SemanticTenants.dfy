/** Whose rows a semantic cache lookup can answer with, and which rows a bucket still holds
    (cache/semantic.ts). */
module SemanticTenants {
  import opened Options
  import opened BestMatch
  import opened SemanticCache
  import Cosine

  // ---------------------------------------------------------------- the key separates tenants

  /** How a key reads a tenant: none is "anon". */
  function Reads(tenantId: Option<string>): string {
    match tenantId
    case None => "anon"
    case Some(tenant) => tenant
  }

  predicate ColonFree(part: string) { forall i :: 0 <= i < |part| ==> part[i] != ':' }

  lemma NotLonger(a: string, b: string, rest: string, rest': string)
    requires ColonFree(a) && a + "::" + rest == b + "::" + rest'
    ensures |a| <= |b|
  {
    assert (b + "::" + rest')[|b|] == ':';
    assert forall i :: 0 <= i < |a| ==> (a + "::" + rest)[i] == a[i];
  }

  /** Up to its first colon a key is the tenant, and then the provider. */
  lemma FirstColon(a: string, b: string, rest: string, rest': string)
    requires ColonFree(a) && ColonFree(b) && a + "::" + rest == b + "::" + rest'
    ensures a == b && rest == rest'
  {
    var key, key' := a + "::" + rest, b + "::" + rest';
    NotLonger(a, b, rest, rest');
    NotLonger(b, a, rest', rest);
    assert a == key[..|a|] == key'[..|b|] == b;
    assert rest == key[|a| + 2..] == key'[|b| + 2..] == rest';
  }

  /** With colons in neither tenants nor providers, keys agree exactly when tenant, provider and model
      do; so the rows of no tenant are shared with the tenant named "anon" and with no other. */
  lemma KeysAgreeIff(tenant: Option<string>, provider: string, model: string,
                     tenant': Option<string>, provider': string, model': string)
    requires tenant.Some? ==> ColonFree(tenant.value)
    requires tenant'.Some? ==> ColonFree(tenant'.value)
    requires ColonFree(provider) && ColonFree(provider')
    ensures TenantKey(tenant, provider, model) == TenantKey(tenant', provider', model')
            <==> Reads(tenant) == Reads(tenant') && provider == provider' && model == model'
    ensures TenantKey(None, provider, model) == TenantKey(tenant', provider, model)
            <==> tenant' == None || tenant' == Some("anon")
  {
    KeyInParts(tenant, provider, model);
    KeyInParts(tenant', provider', model');
    KeyInParts(None, provider, model);
    KeyInParts(tenant', provider, model);
    hide TenantKey;
    if TenantKey(tenant, provider, model) == TenantKey(tenant', provider', model') {
      FirstColon(Reads(tenant), Reads(tenant'), provider + "::" + model, provider' + "::" + model');
      FirstColon(provider, provider', model, model');
    }
    if TenantKey(None, provider, model) == TenantKey(tenant', provider, model) {
      FirstColon("anon", Reads(tenant'), provider + "::" + model, provider + "::" + model);
    }
  }

  lemma KeyInParts(tenant: Option<string>, provider: string, model: string)
    ensures TenantKey(tenant, provider, model) == Reads(tenant) + "::" + (provider + "::" + model)
  {
    var owner := Reads(tenant);
    assert owner + "::" + provider + "::" + model == owner + "::" + (provider + "::" + model);
  }

  /** A colon in a tenant's or a provider's name can make two keys one. */
  lemma ColonsCanCollide()
    ensures TenantKey(Some("a::b"), "c", "m") == TenantKey(Some("a"), "b::c", "m")
  {
    assert "a::b" + "::" + "c" + "::" + "m" == "a" + "::" + "b::c" + "::" + "m";
  }

  // ---------------------------------------------------------------- what a bucket holds

  /** The rows put during a run, in order. */
  function PutsOf(events: seq<Event>): seq<TableRow> {
    if events == [] then []
    else
      var last := events[|events| - 1];
      PutsOf(events[..|events| - 1]) + if last.Putting? then [last.t] else []
  }

  function Latest(rows: seq<Row>, most: nat): seq<Row> { if |rows| <= most then rows else rows[|rows| - most..] }

  lemma StepOnBucket(float32: real -> real, w: World, e: Event, key: string)
    ensures Bucket(Step(float32, w, e).memory, key)
            == if e.Putting? && KeyOf(e.t) == key then AfterPush(Bucket(w.memory, key), e.t.row) else Bucket(w.memory, key)
  {
    hide KeyOf, AfterPush, Landed;
  }

  lemma PutsSnoc(events: seq<Event>, key: string)
    requires events != []
    ensures var last := events[|events| - 1];
            RowsOf(PutsOf(events), key)
            == RowsOf(PutsOf(events[..|events| - 1]), key)
               + if last.Putting? && KeyOf(last.t) == key then [last.t.row] else []
  {
    hide RowsOf, KeyOf;
    var before, last := PutsOf(events[..|events| - 1]), events[|events| - 1];
    assert before + [] == before;
    if last.Putting? { RowsSnoc(before, last.t, key); }
  }

  /** Over any run from hydrated memory a bucket is the latest rows hydrated or put under its key: the
      latest 10,000, or as many as were hydrated where that is more. */
  lemma {:induction false} BucketHoldsLatest(float32: real -> real, start: World, events: seq<Event>, key: string)
    requires Bucket(start.memory, key) == RowsOf(start.table, key)
    ensures var hydrated := RowsOf(start.table, key);
            Bucket(Run(float32, start, events).memory, key)
            == Latest(hydrated + RowsOf(PutsOf(events), key), if |hydrated| > 10000 then |hydrated| else 10000)
  {
    hide RowsOf, KeyOf, Step, Bucket, AfterPush, Latest;
    var hydrated := RowsOf(start.table, key);
    var most := if |hydrated| > 10000 then |hydrated| else 10000;
    if events == [] {
      NoRows();
      assert hydrated + [] == hydrated;
      AllLatest(hydrated, most);
    } else {
      var front, last := events[..|events| - 1], events[|events| - 1];
      BucketHoldsLatest(float32, start, front, key);
      StepOnBucket(float32, Run(float32, start, front), last, key);
      PutsSnoc(events, key);
      var put := RowsOf(PutsOf(front), key);
      if last.Putting? && KeyOf(last.t) == key {
        assert hydrated + put + [last.t.row] == hydrated + (put + [last.t.row]);
        LatestSnoc(hydrated + put, last.t.row, most, |hydrated|);
      } else {
        assert put + [] == put;
      }
    }
  }

  lemma AllLatest(rows: seq<Row>, most: nat)
    requires |rows| <= most
    ensures Latest(rows, most) == rows
  {
  }

  lemma LatestSnoc(rows: seq<Row>, row: Row, most: nat, hydrated: nat)
    requires hydrated <= |rows| && most == if hydrated > 10000 then hydrated else 10000
    ensures AfterPush(Latest(rows, most), row) == Latest(rows + [row], most)
  {
    var bucket := Latest(rows, most);
    if |rows| > most { assert bucket + [row] == (rows + [row])[|rows| - most..]; }
  }

  lemma {:induction false} RowsComeFrom(table: seq<TableRow>, key: string, row: Row) returns (i: nat)
    requires row in RowsOf(table, key)
    ensures i < |table| && table[i].row == row && KeyOf(table[i]) == key
  {
    var n: nat := |table| - 1;
    if row in RowsOf(table[..n], key) {
      i := RowsComeFrom(table[..n], key, row);
    } else {
      i := n;
    }
  }

  lemma {:induction false} PutsComeFrom(events: seq<Event>, t: TableRow) returns (i: nat)
    requires t in PutsOf(events)
    ensures i < |events| && events[i] == Putting(t)
  {
    var n: nat := |events| - 1;
    if t in PutsOf(events[..n]) {
      i := PutsComeFrom(events[..n], t);
    } else {
      i := n;
    }
  }

  // ---------------------------------------------------------------- puts and answers

  /** The arguments of one put. */
  datatype PutCall = PutCall(
    messages: seq<Message>, tenantId: Option<string>, provider: string, model: string, id: string, response: string,
    inputTokens: nat, outputTokens: nat)

  /** The put a call leads to. */
  predicate Puts(s: Setting, call: PutCall, e: Event) {
    e.Putting? && Cacheable(call.messages)
    && e.t == TableRow(call.tenantId, NewRow(s, call.messages, call.provider, call.model, call.id, call.response,
                                             call.inputTokens, call.outputTokens))
  }

  /** Each event of the run is a landing, or the put its call leads to. */
  ghost predicate Serves(s: Setting, calls: seq<PutCall>, events: seq<Event>) {
    |calls| == |events| && forall i :: 0 <= i < |events| ==> events[i].Landing? || Puts(s, calls[i], events[i])
  }

  ghost predicate OnlyAt(messages: seq<Message>, role: Role, u: nat) {
    u < |messages| && forall v :: 0 <= v < |messages| ==> (messages[v].role == role <==> v == u)
  }

  /** `u` is the only user message, and nothing is from the assistant. */
  ghost predicate AsksAt(messages: seq<Message>, u: nat) {
    OnlyAt(messages, User, u) && forall v :: 0 <= v < |messages| ==> messages[v].role != Assistant
  }

  lemma {:induction false} CountIsNone(messages: seq<Message>, role: Role)
    ensures CountRole(messages, role) == 0 <==> forall v :: 0 <= v < |messages| ==> messages[v].role != role
  {
    if messages != [] {
      var front := messages[..|messages| - 1];
      CountIsNone(front, role);
      assert forall v :: 0 <= v < |front| ==> front[v] == messages[v];
    }
  }

  lemma {:induction false} CountIsOne(messages: seq<Message>, role: Role)
    ensures CountRole(messages, role) == 1 <==> exists u: nat :: OnlyAt(messages, role, u)
  {
    if messages != [] {
      var n: nat := |messages| - 1;
      var front := messages[..n];
      CountIsOne(front, role);
      CountIsNone(front, role);
      assert forall v :: 0 <= v < n ==> front[v] == messages[v];
      if CountRole(messages, role) == 1 {
        if messages[n].role == role {
          assert OnlyAt(messages, role, n);
        } else {
          var u: nat :| OnlyAt(front, role, u);
          assert OnlyAt(messages, role, u);
        }
      }
      if u: nat :| OnlyAt(messages, role, u) {
        if u < n { assert OnlyAt(front, role, u); }
      }
    }
  }

  lemma {:induction false} FirstUserAt(messages: seq<Message>, u: nat)
    requires u < |messages| && messages[u].role == User && forall v :: 0 <= v < u ==> messages[v].role != User
    ensures FirstUser(messages) == messages[u].text
  {
    if u > 0 { FirstUserAt(messages[1..], u - 1); }
  }

  /** A request is eligible exactly when it has one user message and none of the assistant's, and that
      message's text is then the one embedded. */
  lemma EligibleIff(messages: seq<Message>)
    ensures CacheEligible(messages) <==> exists u: nat :: AsksAt(messages, u)
    ensures forall u: nat :: AsksAt(messages, u) ==> FirstUser(messages) == messages[u].text
  {
    hide CountRole, FirstUser;
    CountIsOne(messages, User);
    CountIsNone(messages, Assistant);
    if CacheEligible(messages) {
      var u: nat :| OnlyAt(messages, User, u);
      assert AsksAt(messages, u);
    }
    forall u: nat | AsksAt(messages, u) ensures FirstUser(messages) == messages[u].text {
      FirstUserAt(messages, u);
    }
  }

  /** The cosine with the query of a row of the same model, system prompt and dimension. */
  ghost predicate Scores(s: Setting, row: Row, hash: string, query: seq<real>, score: real) {
    row.embeddingModel == s.model && row.systemHash == Some(hash) && row.embeddingDim == |query| == |row.embedding|
    && Cosine.Cosine(s.sqrt, query, row.embedding) == score
  }

  /** Row `i` is the answer to a query: the earliest of greatest score at or above the threshold. */
  ghost predicate Answers(s: Setting, bucket: seq<Row>, hash: string, query: seq<real>, i: nat) {
    i < |bucket|
    && exists score: real :: score >= s.threshold && Scores(s, bucket[i], hash, query, score)
         && forall j, other :: 0 <= j < |bucket| && Scores(s, bucket[j], hash, query, other) ==>
              other <= score && (j < i ==> other < score)
  }

  /** A lookup in plain terms: the answering row where the request is one user message that does not
      look personal, and where some row reaches the threshold; otherwise nothing. */
  lemma LookupInPlainTerms(s: Setting, bucket: seq<Row>, messages: seq<Message>)
    requires forall i :: 0 <= i < |bucket| ==> WellDimmed(bucket[i])
    ensures Lookup(s, bucket, messages).Some? ==>
              exists u: nat, i: nat :: AsksAt(messages, u) && !s.personal(messages[u].text)
                && Answers(s, bucket, s.systemHash(messages), s.embed(messages[u].text), i)
                && Lookup(s, bucket, messages) == Some(bucket[i])
    ensures forall u: nat, j: nat, score: real ::
              AsksAt(messages, u) && !s.personal(messages[u].text) && j < |bucket| && score >= s.threshold
              && Scores(s, bucket[j], s.systemHash(messages), s.embed(messages[u].text), score)
              ==> Lookup(s, bucket, messages).Some?
  {
    EligibleIff(messages);
    var hash, query := s.systemHash(messages), s.embed(FirstUser(messages));
    var sims := Similarities(s, bucket, hash, query);
    hide Scan, CacheEligible, FirstUser, Cosine.Cosine, AsksAt;
    ScanFindsBest(sims, s.threshold);
    var best := Scan(sims, s.threshold);
    forall u: nat, j: nat, score: real |
      AsksAt(messages, u) && !s.personal(messages[u].text) && j < |bucket| && score >= s.threshold
      && Scores(s, bucket[j], hash, s.embed(messages[u].text), score)
      ensures Lookup(s, bucket, messages).Some?
    {
      assert Eligible(sims, s.threshold, j);
    }
    if Lookup(s, bucket, messages).Some? {
      var u: nat :| AsksAt(messages, u);
      assert messages[u].text == FirstUser(messages) && !s.personal(messages[u].text);
      AnswersIfBest(s, bucket, hash, query, best.value);
    }
  }

  lemma AnswersIfBest(s: Setting, bucket: seq<Row>, hash: string, query: seq<real>, i: nat)
    requires forall i :: 0 <= i < |bucket| ==> WellDimmed(bucket[i])
    requires IsBest(Similarities(s, bucket, hash, query), s.threshold, i)
    ensures Answers(s, bucket, hash, query, i)
  {
    hide Cosine.Cosine;
    var sims := Similarities(s, bucket, hash, query);
    var score := sims[i].value;
    assert Scores(s, bucket[i], hash, query, score);
    forall j, other | 0 <= j < |bucket| && Scores(s, bucket[j], hash, query, other)
      ensures other <= score && (j < i ==> other < score)
    {
      assert sims[j] == Some(other);
      if other >= s.threshold { assert Eligible(sims, s.threshold, j); }
    }
  }

  /** The request's tenant, provider and model are the call's, and its question is answered by the
      response put there: same system prompt, and a cosine of the two questions at the threshold. */
  ghost predicate AnsweredBy(s: Setting, call: PutCall, messages: seq<Message>, tenantId: Option<string>,
                             provider: string, model: string, row: Row)
  {
    Reads(call.tenantId) == Reads(tenantId) && call.provider == provider && call.model == model
    && row.id == call.id && row.response == call.response
    && row.inputTokens == call.inputTokens && row.outputTokens == call.outputTokens
    && s.systemHash(call.messages) == s.systemHash(messages)
    && exists u: nat, v: nat :: AsksAt(messages, u) && AsksAt(call.messages, v) && call.messages[v].text != ""
         && !s.personal(messages[u].text) && Near(s, s.embed(messages[u].text), s.embed(call.messages[v].text))
  }

  predicate Near(s: Setting, query: seq<real>, stored: seq<real>) {
    |query| == |stored| && Cosine.Cosine(s.sqrt, query, stored) >= s.threshold
  }

  ghost predicate NamesAreColonFree(table: seq<TableRow>, calls: seq<PutCall>) {
    (forall i :: 0 <= i < |table| ==> ColonFree(Reads(table[i].tenantId)) && ColonFree(table[i].row.provider))
    && forall i :: 0 <= i < |calls| ==> ColonFree(Reads(calls[i].tenantId)) && ColonFree(calls[i].provider)
  }

  /** A row of a bucket is a row of the table at the start or one put since, under the bucket's key. */
  lemma RowOfBucket(float32: real -> real, start: World, events: seq<Event>, key: string, row: Row)
      returns (hydrated: bool, i: nat)
    requires Bucket(start.memory, key) == RowsOf(start.table, key)
    requires row in Bucket(Run(float32, start, events).memory, key)
    ensures hydrated ==> i < |start.table| && start.table[i].row == row && KeyOf(start.table[i]) == key
    ensures !hydrated ==> i < |events| && events[i].Putting? && events[i].t.row == row && KeyOf(events[i].t) == key
  {
    hide RowsOf, KeyOf, Run;
    BucketHoldsLatest(float32, start, events, key);
    hydrated := row in RowsOf(start.table, key);
    if hydrated {
      i := RowsComeFrom(start.table, key, row);
    } else {
      assert row in RowsOf(PutsOf(events), key);
      var j := RowsComeFrom(PutsOf(events), key, row);
      i := PutsComeFrom(events, PutsOf(events)[j]);
    }
  }

  lemma BucketIsWellDimmed(s: Setting, start: World, calls: seq<PutCall>, events: seq<Event>, key: string)
    requires Bucket(start.memory, key) == RowsOf(start.table, key)
    requires forall i :: 0 <= i < |start.table| ==> WellDimmed(start.table[i].row)
    requires Serves(s, calls, events)
    ensures forall row :: row in Bucket(Run(s.float32, start, events).memory, key) ==> WellDimmed(row)
  {
    hide Bucket, RowsOf, KeyOf, Run, Cacheable;
    forall row | row in Bucket(Run(s.float32, start, events).memory, key) ensures WellDimmed(row) {
      var hydrated, i := RowOfBucket(s.float32, start, events, key, row);
      if !hydrated { assert Puts(s, calls[i], events[i]); }
    }
  }

  /** Whatever was put and whatever landed since hydration, a lookup answers only with a table row or a
      put response of the asking tenant, provider and model; and a response put since answers only
      where the system prompts agree and the two questions reach the threshold. */
  lemma AnswersAreTheTenantsOwn(s: Setting, start: World, calls: seq<PutCall>, events: seq<Event>,
                                messages: seq<Message>, tenantId: Option<string>, provider: string, model: string)
    requires forall key :: Bucket(start.memory, key) == RowsOf(start.table, key)
    requires forall i :: 0 <= i < |start.table| ==> WellDimmed(start.table[i].row)
    requires Serves(s, calls, events) && NamesAreColonFree(start.table, calls)
    requires ColonFree(Reads(tenantId)) && ColonFree(provider)
    ensures var bucket := Bucket(Run(s.float32, start, events).memory, TenantKey(tenantId, provider, model));
            (forall i :: 0 <= i < |bucket| ==> WellDimmed(bucket[i]))
            && (Lookup(s, bucket, messages).Some? ==>
                  var row := Lookup(s, bucket, messages).value;
                  (exists i: nat :: i < |start.table| && start.table[i].row == row && row.provider == provider
                     && row.model == model && Reads(start.table[i].tenantId) == Reads(tenantId))
                  || exists i: nat :: i < |calls| && events[i].Putting?
                       && AnsweredBy(s, calls[i], messages, tenantId, provider, model, row))
  {
    hide Bucket, RowsOf, Run, Lookup, Cosine.Cosine, AsksAt, TenantKey, ColonFree, Cacheable;
    var key := TenantKey(tenantId, provider, model);
    assert Bucket(start.memory, key) == RowsOf(start.table, key);
    BucketIsWellDimmed(s, start, calls, events, key);
    var bucket := Bucket(Run(s.float32, start, events).memory, key);
    if Lookup(s, bucket, messages).Some? {
      LookupInPlainTerms(s, bucket, messages);
      var row := Lookup(s, bucket, messages).value;
      assert row in bucket;
      var hydrated, i := RowOfBucket(s.float32, start, events, key, row);
      var t := if hydrated then start.table[i] else events[i].t;
      if !hydrated { assert Puts(s, calls[i], events[i]); }
      KeysAgreeIff(t.tenantId, t.row.provider, t.row.model, tenantId, provider, model);
      if !hydrated { AnsweredByItsCall(s, calls[i], events[i], bucket, messages, tenantId, provider, model); }
    }
  }

  lemma AnsweredByItsCall(s: Setting, call: PutCall, e: Event, bucket: seq<Row>, messages: seq<Message>,
                          tenantId: Option<string>, provider: string, model: string)
    requires forall i :: 0 <= i < |bucket| ==> WellDimmed(bucket[i])
    requires Puts(s, call, e) && Lookup(s, bucket, messages) == Some(e.t.row)
    requires Reads(call.tenantId) == Reads(tenantId) && call.provider == provider && call.model == model
    ensures AnsweredBy(s, call, messages, tenantId, provider, model, e.t.row)
  {
    hide Lookup, Cosine.Cosine, CacheEligible, FirstUser;
    LookupInPlainTerms(s, bucket, messages);
    var u: nat, i: nat :| AsksAt(messages, u) && !s.personal(messages[u].text)
                          && Answers(s, bucket, s.systemHash(messages), s.embed(messages[u].text), i)
                          && Lookup(s, bucket, messages) == Some(bucket[i]);
    EligibleIff(call.messages);
    var v: nat :| AsksAt(call.messages, v);
    assert e.t.row.embedding == s.embed(call.messages[v].text);
    assert Near(s, s.embed(messages[u].text), s.embed(call.messages[v].text));
  }
}
