/** The pairwise conflict pass (context/optimizer.ts, applyConflictDetection): which pairs it
    reports, and what it writes on the chunks. */
module ConflictDetection {
  import opened Options
  import opened Arithmetic
  import opened Sequences
  import opened Dedupe
  import opened Conflicts

  /** A reported conflict; `number` is the n of its id "conflict-n". */
  datatype Conflict = Conflict(
    number: nat, kind: Kind, left: string, right: string, sourceIds: seq<string>, topicTokens: seq<string>,
    leftValue: string, rightValue: string, score: real, severity: Severity)

  /** The texts are read through `signals`; `mode` and the word table complete the rules. */
  datatype Rules = Rules(signals: Kept -> Signals, table: seq<(string, string)>, mode: Mode)

  const PAIR_LIMIT := 20000

  // ---------------------------------------------------------------- pairs

  /** The pairs still ahead when the loops stand at (i, j): row by row. */
  function PairsFrom(i: nat, j: nat, n: nat): seq<(nat, nat)>
    decreases n - i, n - j
  {
    if i + 1 >= n then []
    else if j >= n then PairsFrom(i + 1, i + 2, n)
    else [(i, j)] + PairsFrom(i, j + 1, n)
  }

  function Pairs(n: nat): seq<(nat, nat)> { PairsFrom(0, 1, n) }

  ghost predicate Ordered(pairs: seq<(nat, nat)>) {
    forall a, b :: 0 <= a < b < |pairs| ==> Earlier(pairs[a], pairs[b])
  }

  predicate Earlier(p: (nat, nat), q: (nat, nat)) { p.0 < q.0 || (p.0 == q.0 && p.1 < q.1) }

  ghost predicate InRange(pairs: seq<(nat, nat)>, n: nat) {
    forall k :: 0 <= k < |pairs| ==> pairs[k].0 < pairs[k].1 < n
  }

  /** Where the pairs ahead of (i, j) lie. */
  ghost predicate Ahead(p: (nat, nat), i: nat, j: nat, n: nat) {
    p.0 < p.1 < n && (p.0 > i || (p.0 == i && p.1 >= j))
  }

  lemma {:induction false} PairsFromAhead(i: nat, j: nat, n: nat)
    requires i < j <= n
    ensures forall k :: 0 <= k < |PairsFrom(i, j, n)| ==> Ahead(PairsFrom(i, j, n)[k], i, j, n)
    decreases n - i, n - j
  {
    if i + 1 < n {
      if j >= n { PairsFromAhead(i + 1, i + 2, n); } else { PairsFromAhead(i, j + 1, n); }
    }
  }

  lemma {:induction false} PairsFromHas(i: nat, j: nat, n: nat, p: (nat, nat))
    requires i < j <= n && Ahead(p, i, j, n)
    ensures p in PairsFrom(i, j, n)
    decreases n - i, n - j
  {
    if j >= n { PairsFromHas(i + 1, i + 2, n, p); } else if p != (i, j) { PairsFromHas(i, j + 1, n, p); }
  }

  lemma NextPair(i: nat, j: nat, n: nat)
    requires i < j <= n && i + 1 < n
    ensures PairsFrom(i, j, n) == if j < n then [(i, j)] + PairsFrom(i, j + 1, n) else PairsFrom(i + 1, i + 2, n)
  {
  }

  lemma OrderedCons(p: (nat, nat), rest: seq<(nat, nat)>)
    requires Ordered(rest) && forall k :: 0 <= k < |rest| ==> Earlier(p, rest[k])
    ensures Ordered([p] + rest)
  {
  }

  lemma {:induction false} PairsFromOrdered(i: nat, j: nat, n: nat)
    requires i < j <= n
    ensures Ordered(PairsFrom(i, j, n))
    decreases n - i, n - j
  {
    if i + 1 >= n {
      assert PairsFrom(i, j, n) == [];
    } else {
      hide PairsFrom, Ordered;
      NextPair(i, j, n);
      if j >= n {
        PairsFromOrdered(i + 1, i + 2, n);
      } else {
        var rest := PairsFrom(i, j + 1, n);
        PairsFromOrdered(i, j + 1, n);
        PairsFromAhead(i, j + 1, n);
        forall k | 0 <= k < |rest| ensures Earlier((i, j), rest[k]) {
          assert Ahead(rest[k], i, j + 1, n);
        }
        OrderedCons((i, j), rest);
      }
    }
  }

  lemma {:induction false} PairsFromSize(i: nat, j: nat, n: nat)
    requires i < j <= n
    ensures 2 * |PairsFrom(i, j, n)| == 2 * (n - j) + (n - i - 1) * (n - i - 2)
    decreases n - i, n - j
  {
    if i + 1 < n {
      if j >= n {
        PairsFromSize(i + 1, i + 2, n);
        assert 2 * (n - i - 2) + (n - i - 2) * (n - i - 3) == (n - i - 1) * (n - i - 2);
      } else {
        PairsFromSize(i, j + 1, n);
      }
    }
  }

  lemma PairsFacts(n: nat)
    ensures Ordered(Pairs(n)) && InRange(Pairs(n), n)
    ensures forall a: nat, b: nat :: a < b < n ==> (a, b) in Pairs(n)
    ensures 2 * |Pairs(n)| == n * (n - 1)
  {
    if n >= 2 {
      PairsFromAhead(0, 1, n);
      forall a: nat, b: nat | a < b < n ensures (a, b) in Pairs(n) {
        PairsFromHas(0, 1, n, (a, b));
      }
      PairsFromOrdered(0, 1, n);
      PairsFromSize(0, 1, n);
    }
  }

  /** The pairs compared before the limit stops the loops. */
  function Checked(n: nat): seq<(nat, nat)> {
    if |Pairs(n)| <= PAIR_LIMIT then Pairs(n) else Pairs(n)[..PAIR_LIMIT]
  }

  lemma ProductGrows(a: nat, b: nat)
    requires 1 <= a <= b
    ensures a * (a - 1) <= b * (b - 1)
  {
    assert a * (a - 1) <= b * (a - 1) <= b * (b - 1);
  }

  lemma LimitIsReachedAt201(n: nat)
    ensures n * (n - 1) <= 2 * PAIR_LIMIT <==> n <= 200
  {
    if 1 <= n <= 200 { ProductGrows(n, 200); }
    if n > 200 { ProductGrows(201, n); }
  }

  /** Every pair is compared exactly when there are at most 200 chunks. */
  lemma AllCheckedIff(n: nat)
    ensures (forall a: nat, b: nat :: a < b < n ==> (a, b) in Checked(n)) <==> n <= 200
  {
    hide Pairs;
    PairsFacts(n);
    LimitIsReachedAt201(n);
    if n > 200 {
      var all := Pairs(n);
      assert |all| > PAIR_LIMIT;
      var p := all[PAIR_LIMIT];
      forall k | 0 <= k < PAIR_LIMIT ensures Checked(n)[k] != p {
        assert Earlier(all[k], p);
        assert !Earlier(p, p);
        assert Checked(n)[k] == all[k];
      }
      var (a, b) := p;
      assert a < b < n;
      assert (a, b) !in Checked(n);
    }
  }

  // ---------------------------------------------------------------- what is reported

  function Find(rules: Rules, chunks: seq<Kept>, pair: (nat, nat)): Option<PairConflict>
    requires pair.0 < |chunks| && pair.1 < |chunks|
  {
    FindPair(rules.table, rules.signals(chunks[pair.0]), rules.signals(chunks[pair.1]), rules.mode)
  }

  function Hits(rules: Rules, chunks: seq<Kept>, pairs: seq<(nat, nat)>): (hits: seq<(nat, nat)>)
    requires InRange(pairs, |chunks|)
    ensures InRange(hits, |chunks|)
    ensures forall k :: 0 <= k < |hits| ==> Find(rules, chunks, hits[k]).Some?
  {
    if pairs == [] then []
    else
      var last := pairs[|pairs| - 1];
      Hits(rules, chunks, pairs[..|pairs| - 1]) + if Find(rules, chunks, last).Some? then [last] else []
  }

  function Unique(s: seq<string>): seq<string> {
    if s == [] then []
    else
      var front := Unique(s[..|s| - 1]);
      if s[|s| - 1] in front then front else front + [s[|s| - 1]]
  }

  /** [...new Set(s)]: the same elements, each once; nothing changes when there was no repeat. */
  lemma {:induction false} UniqueFacts(s: seq<string>)
    ensures Distinct(Unique(s)) && (forall x :: x in Unique(s) <==> x in s) && (Distinct(s) ==> Unique(s) == s)
  {
    if s != [] {
      var front, last := s[..|s| - 1], s[|s| - 1];
      UniqueFacts(front);
      assert s == front + [last];
      assert Distinct(s) ==> last !in front;
    }
  }

  function Record(found: PairConflict, left: Kept, right: Kept, number: nat): Conflict {
    Conflict(number, found.kind, left.id, right.id, Unique(left.sourceIds + right.sourceIds), found.topicTokens,
             found.leftValue, found.rightValue, found.score, found.severity)
  }

  /** The conflicts of the hits, numbered from 1 in order. */
  function Records(rules: Rules, chunks: seq<Kept>, hits: seq<(nat, nat)>): (r: seq<Conflict>)
    requires InRange(hits, |chunks|) && forall k :: 0 <= k < |hits| ==> Find(rules, chunks, hits[k]).Some?
    ensures |r| == |hits|
  {
    seq(|hits|, k requires 0 <= k < |hits| =>
      Record(Find(rules, chunks, hits[k]).value, chunks[hits[k].0], chunks[hits[k].1], k + 1))
  }

  // ---------------------------------------------------------------- what is written on the chunks

  predicate Names(c: Conflict, id: string) { c.left == id || c.right == id }

  /** Numbers of the conflicts naming a chunk, once for each side that does. */
  function Naming(conflicts: seq<Conflict>, id: string): seq<nat> {
    if conflicts == [] then []
    else
      var c := conflicts[|conflicts| - 1];
      Naming(conflicts[..|conflicts| - 1], id) + (if c.left == id then [c.number] else [])
      + (if c.right == id then [c.number] else [])
  }

  function MaxScore(conflicts: seq<Conflict>, id: string): real {
    if conflicts == [] then 0.0
    else
      var c, rest := conflicts[|conflicts| - 1], MaxScore(conflicts[..|conflicts| - 1], id);
      if Names(c, id) then MaxReal(rest, c.score) else rest
  }

  function Named(conflicts: seq<Conflict>): set<string> {
    if conflicts == [] then {}
    else
      var c := conflicts[|conflicts| - 1];
      Named(conflicts[..|conflicts| - 1]) + {c.left, c.right}
  }

  function Mark(chunk: Kept, conflicts: seq<Conflict>): Kept {
    if Naming(conflicts, chunk.id) == [] then chunk
    else chunk.(conflict := true, conflictIds := Naming(conflicts, chunk.id),
                severity := Some(Band(MaxScore(conflicts, chunk.id))))
  }

  function MarkAll(chunks: seq<Kept>, conflicts: seq<Conflict>): (r: seq<Kept>)
    ensures |r| == |chunks|
  {
    seq(|chunks|, i requires 0 <= i < |chunks| => Mark(chunks[i], conflicts))
  }

  /** The conflicts reported for a list of chunks. */
  function Reported(rules: Rules, chunks: seq<Kept>): seq<Conflict> {
    CheckedInRange(|chunks|);
    Records(rules, chunks, Hits(rules, chunks, Checked(|chunks|)))
  }

  lemma CheckedInRange(n: nat)
    ensures InRange(Checked(n), n)
  {
    hide Pairs;
    PairsFacts(n);
  }

  // ---------------------------------------------------------------- the loops as written

  function Grouped(groups: map<string, seq<nat>>, id: string): seq<nat> {
    if id in groups then groups[id] else []
  }

  ghost predicate Books(conflicts: seq<Conflict>, conflictedIds: set<string>, groups: map<string, seq<nat>>) {
    conflictedIds == Named(conflicts)
    && (forall id :: Grouped(groups, id) == Naming(conflicts, id))
    && (forall id :: id in groups ==> groups[id] != [])
  }

  lemma BooksSnoc(conflicts: seq<Conflict>, ids: set<string>, groups: map<string, seq<nat>>, c: Conflict)
    requires Books(conflicts, ids, groups)
    ensures var one := groups[c.left := Grouped(groups, c.left) + [c.number]];
            var both := one[c.right := Grouped(one, c.right) + [c.number]];
            Books(conflicts + [c], ids + {c.left} + {c.right}, both)
  {
    var one := groups[c.left := Grouped(groups, c.left) + [c.number]];
    var both := one[c.right := Grouped(one, c.right) + [c.number]];
    var all := conflicts + [c];
    assert all[..|conflicts|] == conflicts;
    forall id ensures Grouped(both, id) == Naming(all, id) {
      assert Grouped(groups, id) == Naming(conflicts, id);
    }
  }

  /** The filter and reduce over the conflicts. */
  method MaxScoreOf(conflicts: seq<Conflict>, id: string) returns (max: real)
    ensures max == MaxScore(conflicts, id)
  {
    max := 0.0;
    for k := 0 to |conflicts|
      invariant max == MaxScore(conflicts[..k], id)
    {
      assert conflicts[..k + 1][..k] == conflicts[..k];
      if Names(conflicts[k], id) {
        max := MaxReal(max, conflicts[k].score);
      }
    }
    assert conflicts[..|conflicts|] == conflicts;
  }

  lemma HitsSnoc(rules: Rules, chunks: seq<Kept>, pairs: seq<(nat, nat)>, pair: (nat, nat))
    requires InRange(pairs, |chunks|) && pair.0 < pair.1 < |chunks|
    ensures InRange(pairs + [pair], |chunks|)
    ensures Hits(rules, chunks, pairs + [pair])
            == if Find(rules, chunks, pair).Some? then Hits(rules, chunks, pairs) + [pair] else Hits(rules, chunks, pairs)
  {
    hide Find;
    var all := pairs + [pair];
    assert all[..|pairs|] == pairs && all[|pairs|] == pair;
  }

  lemma RecordsSnoc(rules: Rules, chunks: seq<Kept>, hits: seq<(nat, nat)>, pair: (nat, nat))
    requires InRange(hits + [pair], |chunks|)
    requires forall k :: 0 <= k < |hits + [pair]| ==> Find(rules, chunks, (hits + [pair])[k]).Some?
    ensures InRange(hits, |chunks|) && pair.0 < pair.1 < |chunks| && Find(rules, chunks, pair).Some?
    ensures forall k :: 0 <= k < |hits| ==> Find(rules, chunks, hits[k]).Some?
    ensures Records(rules, chunks, hits + [pair])
            == Records(rules, chunks, hits)
               + [Record(Find(rules, chunks, pair).value, chunks[pair.0], chunks[pair.1], |hits| + 1)]
  {
    hide Find, Record;
    var all := hits + [pair];
    assert all[|hits|] == pair;
    forall k | 0 <= k < |hits| ensures all[k] == hits[k] && Find(rules, chunks, hits[k]).Some? {
    }
  }

  /** One comparison, with what it adds to the lists. */
  method Compare(rules: Rules, chunks: seq<Kept>, i: nat, j: nat, conflicts: seq<Conflict>, conflictedIds: set<string>,
                 groups: map<string, seq<nat>>, ghost done: seq<(nat, nat)>)
      returns (conflicts': seq<Conflict>, conflictedIds': set<string>, groups': map<string, seq<nat>>)
    requires i < j < |chunks| && InRange(done, |chunks|)
    requires conflicts == Records(rules, chunks, Hits(rules, chunks, done)) && Books(conflicts, conflictedIds, groups)
    ensures InRange(done + [(i, j)], |chunks|)
    ensures conflicts' == Records(rules, chunks, Hits(rules, chunks, done + [(i, j)]))
    ensures Books(conflicts', conflictedIds', groups')
  {
    hide Find, Record, Books, Hits, Records;
    HitsSnoc(rules, chunks, done, (i, j));
    conflicts', conflictedIds', groups' := conflicts, conflictedIds, groups;
    var found := Find(rules, chunks, (i, j));
    if found.None? {
      return;
    }
    RecordsSnoc(rules, chunks, Hits(rules, chunks, done), (i, j));
    var c := Record(found.value, chunks[i], chunks[j], |conflicts| + 1);
    RecordNames(found.value, chunks[i], chunks[j], |conflicts| + 1);
    BooksSnoc(conflicts, conflictedIds, groups, c);
    conflicts' := conflicts' + [c];
    conflictedIds' := conflictedIds' + {chunks[i].id} + {chunks[j].id};
    groups' := groups'[chunks[i].id := Grouped(groups', chunks[i].id) + [c.number]];
    groups' := groups'[chunks[j].id := Grouped(groups', chunks[j].id) + [c.number]];
  }

  /** How far the loops are: `done` is a prefix of the pairs, and until the limit the rest follows. */
  ghost predicate Progress(done: seq<(nat, nat)>, i: nat, j: nat, n: nat, maxPairs: nat) {
    |done| <= maxPairs && done <= Pairs(n) && (|done| < maxPairs ==> done + PairsFrom(i, j, n) == Pairs(n))
  }

  lemma ProgressStart(n: nat, maxPairs: nat)
    ensures Progress([], 0, 1, n, maxPairs)
  {
    assert [] + PairsFrom(0, 1, n) == Pairs(n);
  }

  lemma ProgressRow(done: seq<(nat, nat)>, i: nat, j: nat, n: nat, maxPairs: nat)
    requires i < j <= n && i + 1 < n && Progress(done, i, j, n, maxPairs) && (j >= n || |done| >= maxPairs)
    ensures Progress(done, i + 1, i + 2, n, maxPairs)
  {
    NextPair(i, j, n);
  }

  lemma ProgressStep(done: seq<(nat, nat)>, i: nat, j: nat, n: nat, maxPairs: nat)
    requires i < j < n && Progress(done, i, j, n, maxPairs) && |done| < maxPairs
    ensures Progress(done + [(i, j)], i, j + 1, n, maxPairs)
  {
    hide Pairs;
    NextPair(i, j, n);
    assert done + [(i, j)] + PairsFrom(i, j + 1, n) == done + PairsFrom(i, j, n);
  }

  lemma Finished(done: seq<(nat, nat)>, i: nat, n: nat, maxPairs: nat)
    requires Progress(done, i, i + 1, n, maxPairs) && maxPairs == |Checked(n)| && (i + 1 >= n || |done| >= maxPairs)
    ensures done == Checked(n)
  {
    hide Pairs;
  }

  /** The pairs compared are the first 20,000, row by row, or all where there are fewer. */
  lemma CheckedSize(n: nat)
    ensures |Checked(n)| == (if n * (n - 1) / 2 < 20000 then n * (n - 1) / 2 else 20000) && Checked(n) <= Pairs(n)
  {
    hide Pairs;
    PairsFacts(n);
  }

  /** The comparisons: every pair in turn until the limit. */
  method CollectConflicts(rules: Rules, chunks: seq<Kept>)
      returns (conflicts: seq<Conflict>, conflictedIds: set<string>, groups: map<string, seq<nat>>)
    ensures conflicts == Reported(rules, chunks) && Books(conflicts, conflictedIds, groups)
  {
    hide Books, Hits, Records, Pairs, PairsFrom, Progress;
    var n := |chunks|;
    var maxPairs := if n * (n - 1) / 2 < PAIR_LIMIT then n * (n - 1) / 2 else PAIR_LIMIT;
    CheckedSize(n);
    conflicts, conflictedIds, groups := [], {}, map[];
    NoBooks(rules, chunks);
    var checkedPairs := 0;
    ghost var done: seq<(nat, nat)> := [];
    var i: nat := 0;
    ProgressStart(n, maxPairs);
    while i + 1 < n && checkedPairs < maxPairs
      invariant checkedPairs == |done| <= maxPairs && InRange(done, n) && Progress(done, i, i + 1, n, maxPairs)
      invariant conflicts == Records(rules, chunks, Hits(rules, chunks, done))
      invariant Books(conflicts, conflictedIds, groups)
    {
      var j := i + 1;
      while j < n && checkedPairs < maxPairs
        invariant i < j <= n
        invariant checkedPairs == |done| <= maxPairs && InRange(done, n) && Progress(done, i, j, n, maxPairs)
        invariant conflicts == Records(rules, chunks, Hits(rules, chunks, done))
        invariant Books(conflicts, conflictedIds, groups)
      {
        checkedPairs := checkedPairs + 1;
        conflicts, conflictedIds, groups := Compare(rules, chunks, i, j, conflicts, conflictedIds, groups, done);
        ProgressStep(done, i, j, n, maxPairs);
        done := done + [(i, j)];
        j := j + 1;
      }
      ProgressRow(done, i, j, n, maxPairs);
      i := i + 1;
    }
    Finished(done, i, n, maxPairs);
  }

  /** A record names the two chunks, the earlier one on the left, repeats the conflict found between
      them, and lists the sources of both once each. */
  lemma RecordNames(found: PairConflict, left: Kept, right: Kept, number: nat)
    ensures var c := Record(found, left, right, number);
            c.left == left.id && c.right == right.id && c.number == number
            && found == PairConflict(c.kind, c.topicTokens, c.leftValue, c.rightValue, c.score, c.severity)
            && Distinct(c.sourceIds) && forall x :: x in c.sourceIds <==> x in left.sourceIds || x in right.sourceIds
  {
    UniqueFacts(left.sourceIds + right.sourceIds);
  }

  lemma NoBooks(rules: Rules, chunks: seq<Kept>)
    ensures Books([], {}, map[]) && Records(rules, chunks, Hits(rules, chunks, [])) == []
  {
  }

  method ApplyConflictDetection(rules: Rules, chunks: seq<Kept>)
      returns (marked: seq<Kept>, conflicts: seq<Conflict>, conflictChunks: nat)
    ensures conflicts == Reported(rules, chunks) && marked == MarkAll(chunks, conflicts)
    ensures conflictChunks == |Named(conflicts)|
  {
    hide Naming, MaxScore, Reported;
    var conflictedIds, groups;
    conflicts, conflictedIds, groups := CollectConflicts(rules, chunks);
    marked := [];
    for k := 0 to |chunks|
      invariant |marked| == k && forall m :: 0 <= m < k ==> marked[m] == Mark(chunks[m], conflicts)
    {
      var chunk := chunks[k];
      assert Grouped(groups, chunk.id) == Naming(conflicts, chunk.id);
      if chunk.id in groups {
        var maxScore := MaxScoreOf(conflicts, chunk.id);
        chunk := chunk.(conflict := true, conflictIds := groups[chunk.id], severity := Some(Band(maxScore)));
      }
      marked := marked + [chunk];
    }
    conflictChunks := |conflictedIds|;
  }

  // ---------------------------------------------------------------- main results

  predicate DistinctChunks(chunks: seq<Kept>) {
    forall i, j :: 0 <= i < j < |chunks| ==> chunks[i].id != chunks[j].id
  }

  predicate Concerns(c: Conflict, a: Kept, b: Kept) {
    (c.left == a.id && c.right == b.id) || (c.left == b.id && c.right == a.id)
  }

  lemma {:induction false} HitsFacts(rules: Rules, chunks: seq<Kept>, pairs: seq<(nat, nat)>)
    requires InRange(pairs, |chunks|) && Ordered(pairs)
    ensures var hits := Hits(rules, chunks, pairs);
            Ordered(hits)
            && forall p :: p in hits <==> p in pairs && p.0 < |chunks| && p.1 < |chunks| && Find(rules, chunks, p).Some?
  {
    if pairs != [] {
      hide Find;
      var front, last := pairs[..|pairs| - 1], pairs[|pairs| - 1];
      HitsFacts(rules, chunks, front);
      assert pairs == front + [last];
      var hits := Hits(rules, chunks, front);
      forall k | 0 <= k < |hits| ensures Earlier(hits[k], last) {
        assert hits[k] in front;
      }
    }
  }

  lemma CheckedOrdered(n: nat)
    ensures Ordered(Checked(n)) && InRange(Checked(n), n)
    ensures n <= 200 ==> forall a: nat, b: nat :: a < b < n ==> (a, b) in Checked(n)
  {
    hide Pairs;
    PairsFacts(n);
    AllCheckedIff(n);
  }

  lemma ReportedAt(rules: Rules, chunks: seq<Kept>, hits: seq<(nat, nat)>, k: nat)
    requires InRange(Checked(|chunks|), |chunks|) && hits == Hits(rules, chunks, Checked(|chunks|)) && k < |hits|
    ensures InRange(hits, |chunks|) && Find(rules, chunks, hits[k]).Some? && |Reported(rules, chunks)| == |hits|
    ensures Reported(rules, chunks)[k]
            == Record(Find(rules, chunks, hits[k]).value, chunks[hits[k].0], chunks[hits[k].1], k + 1)
  {
    hide Find, Checked, Record;
  }

  lemma ConcernsItsPair(chunks: seq<Kept>, a: nat, b: nat, c: Conflict, i: nat, j: nat)
    requires DistinctChunks(chunks) && a < b < |chunks| && i < j < |chunks|
    requires c.left == chunks[i].id && c.right == chunks[j].id && Concerns(c, chunks[a], chunks[b])
    ensures i == a && j == b
  {
  }

  /** With distinct ids and at most 200 chunks, each conflicting pair is reported exactly once, in
      the order of the list, and no other pair is. */
  lemma EachConflictReportedOnce(rules: Rules, chunks: seq<Kept>, a: nat, b: nat)
    requires DistinctChunks(chunks) && a < b < |chunks| <= 200
    ensures var r := Reported(rules, chunks);
            match Find(rules, chunks, (a, b))
            case Some(found) =>
              exists k :: 0 <= k < |r| && r[k] == Record(found, chunks[a], chunks[b], k + 1)
                          && forall m :: 0 <= m < |r| && Concerns(r[m], chunks[a], chunks[b]) ==> m == k
            case None => forall m :: 0 <= m < |r| ==> !Concerns(r[m], chunks[a], chunks[b])
  {
    hide Find, Checked, Record, Concerns, Hits, Reported, DistinctChunks;
    CheckedOrdered(|chunks|);
    HitsFacts(rules, chunks, Checked(|chunks|));
    var hits := Hits(rules, chunks, Checked(|chunks|));
    var r := Reported(rules, chunks);
    ReportedSize(rules, chunks);
    forall m | 0 <= m < |r| && Concerns(r[m], chunks[a], chunks[b]) ensures hits[m] == (a, b) {
      ReportedAt(rules, chunks, hits, m);
      var (i, j) := hits[m];
      RecordNames(Find(rules, chunks, hits[m]).value, chunks[i], chunks[j], m + 1);
      ConcernsItsPair(chunks, a, b, r[m], i, j);
    }
    if Find(rules, chunks, (a, b)).Some? {
      var k :| 0 <= k < |hits| && hits[k] == (a, b);
      ReportedAt(rules, chunks, hits, k);
      forall m | 0 <= m < |r| && Concerns(r[m], chunks[a], chunks[b]) ensures m == k {
        assert !Earlier(hits[m], hits[k]) && !Earlier(hits[k], hits[m]);
      }
    } else {
      forall m | 0 <= m < |r| ensures hits[m] != (a, b) {
        assert hits[m] in hits;
      }
    }
  }

  lemma ReportedSize(rules: Rules, chunks: seq<Kept>)
    requires InRange(Checked(|chunks|), |chunks|)
    ensures |Reported(rules, chunks)| == |Hits(rules, chunks, Checked(|chunks|))|
  {
  }

  ghost predicate Numbered(conflicts: seq<Conflict>) {
    forall k :: 0 <= k < |conflicts| ==> conflicts[k].number == k + 1 && conflicts[k].left != conflicts[k].right
  }

  lemma ReportedNumbered(rules: Rules, chunks: seq<Kept>)
    requires DistinctChunks(chunks)
    ensures Numbered(Reported(rules, chunks))
  {
    hide Find, Checked;
    CheckedInRange(|chunks|);
    var hits := Hits(rules, chunks, Checked(|chunks|));
    var r := Reported(rules, chunks);
    forall k | 0 <= k < |r| ensures r[k].number == k + 1 && r[k].left != r[k].right {
      assert r[k] == Record(Find(rules, chunks, hits[k]).value, chunks[hits[k].0], chunks[hits[k].1], k + 1);
    }
  }

  ghost predicate Rising(s: seq<nat>) { forall i, j :: 0 <= i < j < |s| ==> s[i] < s[j] }

  lemma {:induction false} NamingHas(conflicts: seq<Conflict>, id: string, n: nat)
    requires Numbered(conflicts)
    ensures n in Naming(conflicts, id) <==> 1 <= n <= |conflicts| && Names(conflicts[n - 1], id)
  {
    if conflicts != [] {
      var front := conflicts[..|conflicts| - 1];
      NamingHas(front, id, n);
      assert 1 <= n <= |front| ==> front[n - 1] == conflicts[n - 1];
    }
  }

  lemma {:induction false} NamingRises(conflicts: seq<Conflict>, id: string)
    requires Numbered(conflicts)
    ensures Rising(Naming(conflicts, id))
  {
    if conflicts != [] {
      var front := conflicts[..|conflicts| - 1];
      NamingRises(front, id);
      var before := Naming(front, id);
      forall k | 0 <= k < |before| ensures before[k] < |conflicts| {
        NamingHas(front, id, before[k]);
      }
    }
  }

  lemma NamingFacts(conflicts: seq<Conflict>, id: string)
    requires Numbered(conflicts)
    ensures Rising(Naming(conflicts, id))
    ensures forall n :: n in Naming(conflicts, id) ==> 1 <= n <= |conflicts|
    ensures forall k :: 0 <= k < |conflicts| ==> (k + 1 in Naming(conflicts, id) <==> Names(conflicts[k], id))
  {
    hide Naming, Names;
    NamingRises(conflicts, id);
    forall n: nat ensures n in Naming(conflicts, id) ==> 1 <= n <= |conflicts| {
      NamingHas(conflicts, id, n);
    }
    forall k: nat | k < |conflicts| ensures k + 1 in Naming(conflicts, id) <==> Names(conflicts[k], id) {
      NamingHas(conflicts, id, k + 1);
    }
  }

  lemma {:induction false} MaxScoreFacts(conflicts: seq<Conflict>, id: string)
    ensures var max := MaxScore(conflicts, id);
            max >= 0.0
            && (forall k :: 0 <= k < |conflicts| && Names(conflicts[k], id) ==> conflicts[k].score <= max)
            && (max == 0.0 || exists k :: 0 <= k < |conflicts| && Names(conflicts[k], id) && conflicts[k].score == max)
  {
    if conflicts != [] {
      var front := conflicts[..|conflicts| - 1];
      MaxScoreFacts(front, id);
      assert forall k :: 0 <= k < |front| ==> front[k] == conflicts[k];
    }
  }

  ghost predicate Banded(conflicts: seq<Conflict>) {
    forall k :: 0 <= k < |conflicts| ==> conflicts[k].score >= 0.0 && conflicts[k].severity == Band(conflicts[k].score)
  }

  lemma ReportedBanded(rules: Rules, chunks: seq<Kept>)
    ensures Banded(Reported(rules, chunks))
  {
    hide Checked, Opposed, Disagreeing, NumericScore, SharedTopics;
    CheckedInRange(|chunks|);
    var hits := Hits(rules, chunks, Checked(|chunks|));
    var r := Reported(rules, chunks);
    forall k | 0 <= k < |r| ensures r[k].score >= 0.0 && r[k].severity == Band(r[k].score) {
      assert r[k] == Record(Find(rules, chunks, hits[k]).value, chunks[hits[k].0], chunks[hits[k].1], k + 1);
    }
  }

  function Rank(s: Severity): nat { match s case Low => 0 case Medium => 1 case High => 2 }

  /** What a chunk is marked with: the rising numbers of exactly the conflicts naming it, and the
      greatest of their severities; nothing if there is none. */
  lemma MarksAreExact(rules: Rules, chunks: seq<Kept>, i: nat)
    requires DistinctChunks(chunks) && i < |chunks|
    ensures var r, chunk := Reported(rules, chunks), chunks[i];
            var marked := MarkAll(chunks, r)[i];
            if forall k :: 0 <= k < |r| ==> !Names(r[k], chunk.id) then marked == chunk
            else
              marked == chunk.(conflict := true, conflictIds := marked.conflictIds, severity := marked.severity)
              && Rising(marked.conflictIds)
              && (forall n :: n in marked.conflictIds ==> 1 <= n <= |r|)
              && (forall k :: 0 <= k < |r| ==> (k + 1 in marked.conflictIds <==> Names(r[k], chunk.id)))
              && marked.severity.Some?
              && (forall k :: 0 <= k < |r| && Names(r[k], chunk.id) ==>
                    Rank(r[k].severity) <= Rank(marked.severity.value))
              && exists k :: 0 <= k < |r| && Names(r[k], chunk.id) && r[k].severity == marked.severity.value
  {
    hide Reported, Naming, MaxScore, Band, Names, Numbered, Banded;
    var r, chunk := Reported(rules, chunks), chunks[i];
    ReportedNumbered(rules, chunks);
    ReportedBanded(rules, chunks);
    NamingFacts(r, chunk.id);
    var ids := Naming(r, chunk.id);
    if k :| 0 <= k < |r| && Names(r[k], chunk.id) {
      assert k + 1 in ids;
      WorstNamed(r, chunk.id, k);
    } else {
      NoneNamed(r, chunk.id);
    }
  }

  lemma {:induction false} NoneNamed(r: seq<Conflict>, id: string)
    requires forall k :: 0 <= k < |r| ==> !Names(r[k], id)
    ensures Naming(r, id) == []
  {
    if r != [] { NoneNamed(r[..|r| - 1], id); }
  }

  lemma WorstNamed(r: seq<Conflict>, id: string, k: nat)
    requires Banded(r) && k < |r| && Names(r[k], id)
    ensures forall m :: 0 <= m < |r| && Names(r[m], id) ==> Rank(r[m].severity) <= Rank(Band(MaxScore(r, id)))
    ensures exists m :: 0 <= m < |r| && Names(r[m], id) && r[m].severity == Band(MaxScore(r, id))
  {
    hide MaxScore;
    MaxScoreFacts(r, id);
    var max := MaxScore(r, id);
    var m := k;
    if max != 0.0 { m :| 0 <= m < |r| && Names(r[m], id) && r[m].score == max; }
    assert r[m].score == max;
    assert Names(r[m], id) && r[m].severity == Band(max);
  }

  // ---------------------------------------------------------------- the count

  function Flagged(chunks: seq<Kept>): nat {
    if chunks == [] then 0 else Flagged(chunks[..|chunks| - 1]) + if chunks[|chunks| - 1].conflict then 1 else 0
  }

  function FlaggedIds(chunks: seq<Kept>): set<string> {
    if chunks == [] then {}
    else
      var last := chunks[|chunks| - 1];
      FlaggedIds(chunks[..|chunks| - 1]) + if last.conflict then {last.id} else {}
  }

  lemma {:induction false} FlaggedHas(chunks: seq<Kept>, id: string)
    ensures id in FlaggedIds(chunks) <==> exists i :: 0 <= i < |chunks| && chunks[i].conflict && chunks[i].id == id
  {
    if chunks != [] {
      var front := chunks[..|chunks| - 1];
      FlaggedHas(front, id);
      assert forall i :: 0 <= i < |front| ==> front[i] == chunks[i];
    }
  }

  lemma {:induction false} FlaggedSize(chunks: seq<Kept>)
    requires DistinctChunks(chunks)
    ensures |FlaggedIds(chunks)| == Flagged(chunks)
  {
    if chunks != [] {
      var front, last := chunks[..|chunks| - 1], chunks[|chunks| - 1];
      FlaggedSize(front);
      FlaggedHas(front, last.id);
      assert forall i :: 0 <= i < |front| ==> front[i] == chunks[i];
    }
  }

  lemma {:induction false} NamedIff(conflicts: seq<Conflict>, id: string)
    ensures id in Named(conflicts) <==> exists k :: 0 <= k < |conflicts| && Names(conflicts[k], id)
  {
    if conflicts != [] {
      var front := conflicts[..|conflicts| - 1];
      NamedIff(front, id);
      assert forall k :: 0 <= k < |front| ==> front[k] == conflicts[k];
    }
  }

  lemma NamedAreChunks(rules: Rules, chunks: seq<Kept>, id: string)
    requires id in Named(Reported(rules, chunks))
    ensures exists i :: 0 <= i < |chunks| && chunks[i].id == id
  {
    hide Find, Checked;
    var r := Reported(rules, chunks);
    NamedIff(r, id);
    CheckedInRange(|chunks|);
    var hits := Hits(rules, chunks, Checked(|chunks|));
    var k :| 0 <= k < |r| && Names(r[k], id);
    assert r[k].left == chunks[hits[k].0].id && r[k].right == chunks[hits[k].1].id;
  }

  /** conflictChunks is the number of chunks flagged. */
  lemma ConflictChunksCountsFlags(rules: Rules, chunks: seq<Kept>)
    requires DistinctChunks(chunks) && forall i :: 0 <= i < |chunks| ==> !chunks[i].conflict
    ensures |Named(Reported(rules, chunks))| == Flagged(MarkAll(chunks, Reported(rules, chunks)))
  {
    hide Reported;
    var r := Reported(rules, chunks);
    var marked := MarkAll(chunks, r);
    forall i | 0 <= i < |chunks| ensures marked[i].id == chunks[i].id && (marked[i].conflict <==> chunks[i].id in Named(r)) {
      MarksAreExact(rules, chunks, i);
      NamedIff(r, chunks[i].id);
    }
    FlaggedSize(marked);
    forall id ensures id in Named(r) <==> id in FlaggedIds(marked) {
      FlaggedHas(marked, id);
      if id in Named(r) {
        NamedAreChunks(rules, chunks, id);
        var i :| 0 <= i < |chunks| && chunks[i].id == id;
        assert marked[i].conflict && marked[i].id == id;
      }
    }
    assert Named(r) == FlaggedIds(marked);
  }
}
