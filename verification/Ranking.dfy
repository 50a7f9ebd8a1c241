/** Ranking by score: best first, ties in their original order (context/optimizer.ts, the
    comparators of applyLexicalRanking, applyScoredRanking and compressChunkExtractively). */
module Ranking {
  import opened Arithmetic

  /** Number(x.toFixed(4)) for a non-negative x: the nearest multiple of 0.0001, ties upwards. */
  function Round4(x: real): real { (x * 10000.0 + 0.5).Floor as real / 10000.0 }

  lemma Round4Monotone(x: real, y: real)
    requires x <= y
    ensures Round4(x) <= Round4(y)
  {
    var a, b := x * 10000.0 + 0.5, y * 10000.0 + 0.5;
    assert a <= b;
    assert a.Floor <= b.Floor;
  }

  /** The result is a multiple of 0.0001, no more than half of that away. */
  lemma Round4Near(x: real)
    ensures x - 0.00005 < Round4(x) <= x + 0.00005
    ensures (Round4(x) * 10000.0).Floor as real == Round4(x) * 10000.0
  {
    var n := (x * 10000.0 + 0.5).Floor;
    assert Round4(x) * 10000.0 == n as real;
  }

  /** An average to four places, times the number it averages, is within rounding of the sum. */
  lemma AverageIs(sum: real, n: real)
    requires n >= 1.0
    ensures (Round4(sum / n) - 0.00005) * n <= sum <= (Round4(sum / n) + 0.00005) * n
  {
    hide Round4;
    Round4Near(sum / n);
    Divided(sum, n);
    ScaleBetween(Round4(sum / n) - 0.00005, sum / n, Round4(sum / n) + 0.00005, n, sum);
  }

  lemma Round4Fixed()
    ensures Round4(0.0) == 0.0 && Round4(1.0) == 1.0
  {
    assert (0.0 * 10000.0 + 0.5).Floor == 0;
    assert (1.0 * 10000.0 + 0.5).Floor == 10000;
  }

  /** The comparator: higher score first, lower index on ties. */
  predicate Before(scores: seq<real>, i: nat, j: nat)
    requires i < |scores| && j < |scores|
  {
    scores[i] > scores[j] || (scores[i] == scores[j] && i < j)
  }

  predicate Indices(order: seq<nat>, n: nat) { forall k :: 0 <= k < |order| ==> order[k] < n }

  function Place(scores: seq<real>, i: nat, order: seq<nat>): (placed: seq<nat>)
    requires i < |scores| && Indices(order, |scores|)
    ensures Indices(placed, |scores|) && multiset(placed) == multiset(order) + multiset{i}
  {
    if order == [] || Before(scores, i, order[0]) then [i] + order
    else
      assert order == [order[0]] + order[1..];
      [order[0]] + Place(scores, i, order[1..])
  }

  function RankFirst(scores: seq<real>, n: nat): (order: seq<nat>)
    requires n <= |scores|
    ensures Indices(order, |scores|)
  {
    if n == 0 then [] else Place(scores, n - 1, RankFirst(scores, n - 1))
  }

  /** The original indices in ranked order. */
  function Ranked(scores: seq<real>): (order: seq<nat>)
    ensures Indices(order, |scores|)
  {
    RankFirst(scores, |scores|)
  }

  ghost predicate InOrder(scores: seq<real>, order: seq<nat>)
    requires Indices(order, |scores|)
  {
    forall a, b :: 0 <= a < b < |order| ==> Before(scores, order[a], order[b])
  }

  function Upto(n: nat): seq<nat> { seq(n, k => k) }

  /** Each index below n exactly once. */
  ghost predicate Permutes(order: seq<nat>, n: nat) { multiset(order) == multiset(Upto(n)) }

  lemma UptoSnoc(n: nat)
    ensures multiset(Upto(n + 1)) == multiset(Upto(n)) + multiset{n}
  {
    assert Upto(n + 1) == Upto(n) + [n];
  }

  lemma {:induction false} PlaceKeepsOrder(scores: seq<real>, i: nat, order: seq<nat>)
    requires i < |scores| && Indices(order, |scores|) && InOrder(scores, order) && i !in order
    ensures InOrder(scores, Place(scores, i, order))
  {
    if order != [] && !Before(scores, i, order[0]) {
      assert Before(scores, order[0], i);
      var rest := Place(scores, i, order[1..]);
      PlaceKeepsOrder(scores, i, order[1..]);
      forall k | 0 <= k < |rest| ensures Before(scores, order[0], rest[k]) {
        assert rest[k] in multiset(rest);
        if rest[k] != i { assert rest[k] in order[1..]; }
      }
    }
  }

  lemma {:induction false} RankFirstFacts(scores: seq<real>, n: nat)
    requires n <= |scores|
    ensures Permutes(RankFirst(scores, n), n) && InOrder(scores, RankFirst(scores, n))
  {
    if n > 0 {
      hide InOrder, Before;
      var last: nat := n - 1;
      var order := RankFirst(scores, last);
      RankFirstFacts(scores, last);
      UptoSnoc(last);
      assert last !in Upto(last);
      assert last !in multiset(order);
      PlaceKeepsOrder(scores, last, order);
    } else {
      assert InOrder(scores, []);
    }
  }

  /** Ranking is a permutation, sorted by score with ties in original order. */
  lemma RankedFacts(scores: seq<real>)
    ensures Permutes(Ranked(scores), |scores|) && InOrder(scores, Ranked(scores)) && |Ranked(scores)| == |scores|
  {
    RankFirstFacts(scores, |scores|);
    assert |multiset(Ranked(scores))| == |multiset(Upto(|scores|))|;
  }

  /** The same in plain comparisons: a higher score comes first, an equal one in original order. */
  lemma RankedInOrder(scores: seq<real>, a: nat, b: nat)
    requires a < b < |scores|
    ensures |Ranked(scores)| == |scores| && Ranked(scores)[a] < |scores| && Ranked(scores)[b] < |scores|
    ensures var i, j := Ranked(scores)[a], Ranked(scores)[b];
            scores[i] > scores[j] || (scores[i] == scores[j] && i < j)
  {
    hide Ranked;
    RankedFacts(scores);
    assert Before(scores, Ranked(scores)[a], Ranked(scores)[b]);
  }

  /** No other arrangement is: whatever stable sort produced it, this is the result. */
  lemma {:induction false} RankingIsUnique(scores: seq<real>, a: seq<nat>, b: seq<nat>)
    requires Indices(a, |scores|) && Indices(b, |scores|) && InOrder(scores, a) && InOrder(scores, b)
    requires multiset(a) == multiset(b)
    ensures a == b
  {
    if a == [] {
      assert |multiset(b)| == 0;
    } else {
      assert a[0] in multiset(b) && |multiset(a)| == |a| && |multiset(b)| == |b|;
      assert b[0] in multiset(a);
      assert a[0] == b[0];
      assert a == [a[0]] + a[1..] && b == [b[0]] + b[1..];
      assert multiset(a[1..]) == multiset(a) - multiset{a[0]};
      assert multiset(b[1..]) == multiset(b) - multiset{b[0]};
      RankingIsUnique(scores, a[1..], b[1..]);
    }
  }

  function Rearrange<T>(items: seq<T>, order: seq<nat>): seq<T>
    requires Indices(order, |items|)
  {
    seq(|order|, k requires 0 <= k < |order| => items[order[k]])
  }

  // ---------------------------------------------------------------- equal multisets

  lemma WithoutAt<T>(s: seq<T>, at: nat)
    requires at < |s|
    ensures multiset(s) == multiset(s[..at] + s[at + 1..]) + multiset{s[at]}
  {
    assert s == s[..at] + [s[at]] + s[at + 1..];
  }

  /** Equal multisets stay equal when one occurrence is taken out of each. */
  lemma TakeOne<T>(a: seq<T>, b: seq<T>) returns (at: nat)
    requires a != [] && multiset(a) == multiset(b)
    ensures at < |b| && b[at] == a[|a| - 1]
    ensures multiset(a[..|a| - 1]) == multiset(b[..at] + b[at + 1..])
  {
    var n := |a| - 1;
    assert a[n] in multiset(a);
    at :| 0 <= at < |b| && b[at] == a[n];
    WithoutAt(b, at);
    WithoutAt(a, n);
    assert a[..n] + a[n + 1..] == a[..n];
    assert multiset(a[..n]) == multiset(a) - multiset{a[n]};
    assert multiset(b[..at] + b[at + 1..]) == multiset(b) - multiset{b[at]};
  }

  /** rerankedChunks: how many items ended up at a different position. */
  function Displaced(order: seq<nat>): nat { DisplacedFrom(order, 0) }

  function DisplacedFrom(order: seq<nat>, from: nat): nat {
    if order == [] then 0
    else (if order[0] != from then 1 else 0) + DisplacedFrom(order[1..], from + 1)
  }

  lemma {:induction false} DisplacedZero(order: seq<nat>, from: nat)
    ensures DisplacedFrom(order, from) == 0 <==> forall k :: 0 <= k < |order| ==> order[k] == from + k
  {
    if order != [] {
      DisplacedZero(order[1..], from + 1);
      if forall k :: 0 <= k < |order[1..]| ==> order[1..][k] == from + 1 + k {
        assert forall k :: 1 <= k < |order| ==> order[k] == order[1..][k - 1];
      }
    }
  }

  /** Nothing is reported as reranked exactly when the scores already fell monotonically. */
  lemma NothingRerankedIffSorted(scores: seq<real>)
    ensures Displaced(Ranked(scores)) == 0 <==> forall i, j :: 0 <= i < j < |scores| ==> scores[i] >= scores[j]
  {
    var order := Ranked(scores);
    RankedFacts(scores);
    DisplacedZero(order, 0);
    if forall i, j :: 0 <= i < j < |scores| ==> scores[i] >= scores[j] {
      assert InOrder(scores, Upto(|scores|));
      RankingIsUnique(scores, order, Upto(|scores|));
    }
    if Displaced(order) == 0 {
      forall i, j | 0 <= i < j < |scores| ensures scores[i] >= scores[j] {
        assert order[i] == i && order[j] == j;
        assert Before(scores, order[i], order[j]);
      }
    }
  }

  // ---------------------------------------------------------------- the best k, in original order

  predicate Increasing(s: seq<nat>, bound: nat) {
    (forall k :: 0 <= k < |s| ==> s[k] < bound) && forall j, k :: 0 <= j < k < |s| ==> s[j] < s[k]
  }

  function InsertUp(i: nat, s: seq<nat>): (r: seq<nat>)
    ensures multiset(r) == multiset(s) + multiset{i}
  {
    if s == [] || i < s[0] then [i] + s
    else
      assert s == [s[0]] + s[1..];
      [s[0]] + InsertUp(i, s[1..])
  }

  function SortUp(s: seq<nat>): (r: seq<nat>)
    ensures multiset(r) == multiset(s)
  {
    if s == [] then []
    else
      assert s == [s[0]] + s[1..];
      InsertUp(s[0], SortUp(s[1..]))
  }

  lemma {:induction false} InsertUpSorts(i: nat, s: seq<nat>, bound: nat)
    requires Increasing(s, bound) && i !in s && i < bound
    ensures Increasing(InsertUp(i, s), bound)
  {
    if s != [] && !(i < s[0]) {
      var rest := InsertUp(i, s[1..]);
      InsertUpSorts(i, s[1..], bound);
      forall k | 0 <= k < |rest| ensures s[0] < rest[k] {
        assert rest[k] in multiset(rest);
        if rest[k] != i { assert rest[k] in s[1..]; }
      }
    }
  }

  lemma {:induction false} SortUpSorts(s: seq<nat>, bound: nat)
    requires Indices(s, bound) && forall a, b :: 0 <= a < b < |s| ==> s[a] != s[b]
    ensures Increasing(SortUp(s), bound)
  {
    if s != [] {
      var rest := SortUp(s[1..]);
      SortUpSorts(s[1..], bound);
      assert s[0] !in s[1..];
      assert s[0] !in multiset(rest);
      InsertUpSorts(s[0], rest, bound);
    }
  }

  /** slice(0, k) of the ranking, sorted back by index. */
  function TopK(scores: seq<real>, k: nat): seq<nat>
    requires k <= |scores|
  {
    SortUp(KeepFirst(Ranked(scores), k))
  }

  function KeepFirst(s: seq<nat>, k: nat): seq<nat> { if k <= |s| then s[..k] else s }

  /** The kept indices are in original order, k of them, and each outranks every dropped one. */
  lemma TopKFacts(scores: seq<real>, k: nat)
    requires k <= |scores|
    ensures Increasing(TopK(scores, k), |scores|) && |TopK(scores, k)| == k
    ensures forall i: nat, j: nat :: i in TopK(scores, k) && j < |scores| && j !in TopK(scores, k) ==>
              i < |scores| && Before(scores, i, j)
  {
    hide SortUp, Ranked;
    var order := Ranked(scores);
    RankedFacts(scores);
    var kept := order[..k];
    assert |multiset(TopK(scores, k))| == |multiset(kept)|;
    forall a, b | 0 <= a < b < k ensures kept[a] != kept[b] {
      assert Before(scores, order[a], order[b]);
    }
    SortUpSorts(kept, |scores|);
    forall i: nat, j: nat | i in TopK(scores, k) && j < |scores| && j !in TopK(scores, k)
      ensures i < |scores| && Before(scores, i, j)
    {
      KeptOutranks(scores, order, k, i, j);
    }
  }

  lemma KeptOutranks(scores: seq<real>, order: seq<nat>, k: nat, i: nat, j: nat)
    requires Indices(order, |scores|) && InOrder(scores, order) && Permutes(order, |scores|) && k <= |order|
    requires i in multiset(order[..k]) && j < |scores| && j !in multiset(order[..k])
    ensures i < |scores| && Before(scores, i, j)
  {
    assert order == order[..k] + order[k..];
    assert Upto(|scores|)[j] == j;
    assert j in multiset(Upto(|scores|));
    assert j in multiset(order);
    var a :| 0 <= a < k && order[..k][a] == i;
    var b :| 0 <= b < |order| && order[b] == j;
    assert forall c :: 0 <= c < k ==> order[c] == order[..k][c];
  }
}
