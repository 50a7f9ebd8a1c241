/** What a reported conflict says (context/optimizer.ts, sharedTopicTokens, findPairConflict). */
module ConflictFacts {
  import opened Options
  import opened Arithmetic
  import opened Sequences
  import opened Ranking
  import opened Dedupe
  import opened Conflicts

  // ---------------------------------------------------------------- topics

  /** Both chunks name one non-empty key. */
  predicate KeyShared(left: Signals, right: Signals) {
    left.metadataKey.Some? && left.metadataKey == right.metadataKey && left.metadataKey.value != ""
  }

  ghost predicate InOrder(c: seq<string>, left: seq<string>) {
    forall a, b :: 0 <= a < b < |c| ==> Apart(left, c[a], c[b])
  }

  ghost predicate Apart(left: seq<string>, x: string, y: string) {
    exists i, j :: 0 <= i < j < |left| && left[i] == x && left[j] == y
  }

  lemma {:induction false} CommonInOrder(left: seq<string>, right: seq<string>)
    ensures InOrder(Common(left, right), left) && forall x :: x in Common(left, right) ==> x in left
  {
    if left != [] {
      var front, last := left[..|left| - 1], left[|left| - 1];
      assert left == front + [last];
      CommonInOrder(front, right);
      var c := Common(left, right);
      forall a, b | 0 <= a < b < |c| ensures Apart(left, c[a], c[b]) {
        if b < |Common(front, right)| {
          assert Apart(front, c[a], c[b]);
        } else {
          assert c[a] == Common(front, right)[a] && c[a] in front;
          var i :| 0 <= i < |front| && front[i] == c[a];
          assert left[i] == c[a] && left[|left| - 1] == c[b];
        }
      }
    }
  }

  lemma InOrderLater(c: seq<string>, left: seq<string>, n: nat)
    requires n <= |left| && InOrder(c, left[..n])
    ensures InOrder(c, left)
  {
    forall a, b | 0 <= a < b < |c| ensures Apart(left, c[a], c[b]) {
      assert Apart(left[..n], c[a], c[b]);
    }
  }

  /** Up to some place in the left topics, the ones the right has too. */
  ghost predicate CommonUpTo(shared: seq<string>, left: seq<string>, right: seq<string>, n: nat) {
    n <= |left| && (forall t :: t in shared <==> t in left[..n] && t in right)
  }

  /** The topics compared: the left ones under a shared key; otherwise the common ones, in the left
      order. At most the first five of them. */
  lemma TopicsCompared(left: Signals, right: Signals)
    requires Distinct(left.topicTokens)
    ensures var shared := SharedTopics(left, right);
            Distinct(shared) && |shared| <= 5 && InOrder(shared, left.topicTokens)
            && if KeyShared(left, right) then
                 shared <= left.topicTokens && (|shared| < 5 ==> shared == left.topicTokens)
               else
                 exists n: nat :: CommonUpTo(shared, left.topicTokens, right.topicTokens, n)
                                  && (|shared| < 5 ==> n == |left.topicTokens|)
  {
    var tokens, others := left.topicTokens, right.topicTokens;
    if KeyShared(left, right) {
      var shared := SharedTopics(left, right);
      forall a, b | 0 <= a < b < |shared| ensures Apart(tokens, shared[a], shared[b]) {
        assert tokens[a] == shared[a] && tokens[b] == shared[b];
      }
    } else {
      if |Common(tokens, others)| <= 5 {
        CommonAsSet(tokens, others);
        CommonInOrder(tokens, others);
        assert tokens[..|tokens|] == tokens;
        assert CommonUpTo(SharedTopics(left, right), tokens, others, |tokens|);
      } else {
        var n := FirstFive(tokens, others);
        CommonAsSet(tokens[..n], others);
        CommonInOrder(tokens[..n], others);
        InOrderLater(SharedTopics(left, right), tokens, n);
        assert CommonUpTo(SharedTopics(left, right), tokens, others, n);
      }
    }
  }

  lemma {:induction false} FirstFive(left: seq<string>, right: seq<string>) returns (n: nat)
    requires |Common(left, right)| >= 5
    ensures n <= |left| && Common(left[..n], right) == Common(left, right)[..5]
  {
    var front := left[..|left| - 1];
    if |Common(front, right)| >= 5 {
      n := FirstFive(front, right);
      assert left[..n] == front[..n];
    } else {
      n := |left|;
      assert left[..n] == left;
    }
  }

  // ---------------------------------------------------------------- the first disagreement

  /** The pair of words opposes the two chunks, the first on the left. */
  predicate Opposes(pair: (string, string), left: set<string>, right: set<string>) {
    pair.0 in left && pair.1 in right
  }

  predicate OpposesEitherWay(pair: (string, string), left: set<string>, right: set<string>) {
    Opposes(pair, left, right) || Opposes(pair, right, left)
  }

  /** The first opposed pair of the table, in the table's orientation where that one holds. */
  lemma {:induction false} OpposedIsFirst(table: seq<(string, string)>, left: set<string>, right: set<string>) returns (k: nat)
    requires Opposed(table, left, right).Some?
    ensures k < |table| && OpposesEitherWay(table[k], left, right)
    ensures forall j :: 0 <= j < k ==> !OpposesEitherWay(table[j], left, right)
    ensures Opposed(table, left, right)
            == Some(if Opposes(table[k], left, right) then table[k] else (table[k].1, table[k].0))
  {
    if OpposesEitherWay(table[0], left, right) {
      k := 0;
    } else {
      var rest := OpposedIsFirst(table[1..], left, right);
      k := rest + 1;
    }
  }

  /** Two claims in one unit with different values. */
  predicate Differs(a: Claim, b: Claim) { a.unit == b.unit && a.value != b.value }

  lemma {:induction false} ClashIsFirst(left: Claim, rights: seq<Claim>) returns (j: nat)
    requires FirstClash(left, rights).Some?
    ensures j < |rights| && Differs(left, rights[j]) && FirstClash(left, rights) == Some(rights[j])
    ensures forall m :: 0 <= m < j ==> !Differs(left, rights[m])
  {
    if Clash(left, rights[0]) {
      j := 0;
    } else {
      var rest := ClashIsFirst(left, rights[1..]);
      j := rest + 1;
    }
  }

  /** The first of the left claims that differs from a right one, and the first right one it differs from. */
  lemma {:induction false} DisagreeingIsFirst(lefts: seq<Claim>, rights: seq<Claim>) returns (i: nat, j: nat)
    requires Disagreeing(lefts, rights).Some?
    ensures i < |lefts| && j < |rights| && Differs(lefts[i], rights[j])
    ensures Disagreeing(lefts, rights) == Some((lefts[i], rights[j]))
    ensures forall k, m :: 0 <= k < i && 0 <= m < |rights| ==> !Differs(lefts[k], rights[m])
    ensures forall m :: 0 <= m < j ==> !Differs(lefts[i], rights[m])
  {
    if FirstClash(lefts[0], rights).Some? {
      i := 0;
      j := ClashIsFirst(lefts[0], rights);
    } else {
      FirstClashIff(lefts[0], rights);
      var rest, at := DisagreeingIsFirst(lefts[1..], rights);
      i, j := rest + 1, at;
      forall k, m | 0 <= k < i && 0 <= m < |rights| ensures !Differs(lefts[k], rights[m]) {
        assert rights[m] in rights;
        assert Clash(lefts[0], rights[m]) == Differs(lefts[0], rights[m]);
        assert k > 0 ==> lefts[k] == lefts[1..][k - 1];
      }
    }
  }

  // ---------------------------------------------------------------- scores

  /** 35% of the difference over the larger magnitude, no less than 1 counted, and at most a quarter. */
  ghost predicate GainIs(gain: real, left: real, right: real) {
    var apart := if left >= right then left - right else right - left;
    exists largest: real :: LargestOf(largest, left, right)
      && if 0.35 * apart >= 0.25 * largest then gain == 0.25 else gain * largest == 0.35 * apart
  }

  predicate LargestOf(largest: real, left: real, right: real) {
    largest >= 1.0 && -largest <= left <= largest && -largest <= right <= largest
    && (largest == 1.0 || largest == left || largest == -left || largest == right || largest == -right)
  }

  lemma GainMeans(left: real, right: real)
    ensures GainIs(Gain(left, right), left, right)
  {
    var largest := MaxReal(MaxReal(Abs(left), Abs(right)), 1.0);
    assert LargestOf(largest, left, right);
    Quotient(Abs(left - right), largest, RelativeDelta(left, right), Gain(left, right));
  }

  lemma Quotient(apart: real, largest: real, delta: real, gain: real)
    requires largest >= 1.0 && delta == apart / largest && gain == MinReal(0.25, delta * 0.35)
    ensures if 0.35 * apart >= 0.25 * largest then gain == 0.25 else gain * largest == 0.35 * apart
  {
    assert delta * largest == apart;
    if 0.35 * apart >= 0.25 * largest {
      CancelFactor(0.25, delta * 0.35, largest);
    } else if 0.25 <= delta * 0.35 {
      Less(delta * 0.35, 0.25, largest);
    }
  }

  lemma Less(x: real, y: real, c: real)
    requires c > 0.0 && x >= y
    ensures x * c >= y * c
  {
  }

  /** A numeric score before rounding. */
  ghost predicate ScoredNumeric(score: real, left: real, right: real, keyShared: bool, topics: nat) {
    exists gain: real :: GainIs(gain, left, right)
      && -0.00005 < score - (0.55 + gain + (if keyShared then 0.12 else 0.0)
                             + (if topics >= 4 then 0.08 else topics as real * 0.02)) <= 0.00005
  }

  lemma NumericScored(keyShared: bool, topics: nat, left: real, right: real)
    ensures ScoredNumeric(Bounded(NumericScore(keyShared, topics, left, right)), left, right, keyShared, topics)
  {
    hide Gain, GainIs, Bounded, Round4;
    GainMeans(left, right);
    GainRange(left, right);
    NumericRange(keyShared, topics, left, right);
    Round4Near(NumericScore(keyShared, topics, left, right));
  }

  /** The scores of status conflicts off a shared key, by the topics in common. */
  const StatusScores: seq<real> := [0.75, 0.78, 0.81, 0.84, 0.84]

  lemma StatusScored(topics: nat)
    requires 1 <= topics <= 5
    ensures Bounded(StatusScore(false, topics)) == StatusScores[topics - 1]
  {
    hide Bounded;
    if topics >= 4 { RoundsTo(0.84, 8400); }
    else if topics == 3 { RoundsTo(0.81, 8100); }
    else if topics == 2 { RoundsTo(0.78, 7800); }
    else { RoundsTo(0.75, 7500); }
  }

  lemma KeyScores()
    ensures Bounded(0.94) == 0.94 && Bounded(StatusScore(true, 0)) == 0.88
    ensures forall n: nat :: StatusScore(true, n) == 0.88
  {
    hide Bounded;
    RoundsTo(0.94, 9400);
    RoundsTo(0.88, 8800);
  }

  // ---------------------------------------------------------------- what is found

  predicate StatusesApart(left: Signals, right: Signals) {
    KeyShared(left, right) && left.metadataStatus.Some? && right.metadataStatus.Some?
    && left.metadataStatus.value != "" && right.metadataStatus.value != ""
    && left.metadataStatus.value != right.metadataStatus.value
  }

  /** Each kind of conflict quotes the left chunk's words on the left and the right one's on the right:
      the two statuses; the first opposed pair of words; the first two claims that differ. */
  ghost predicate Quotes(table: seq<(string, string)>, left: Signals, right: Signals, f: PairConflict) {
    match f.kind
    case Metadata =>
      StatusesApart(left, right) && f.leftValue == "status:" + left.metadataStatus.value
      && f.rightValue == "status:" + right.metadataStatus.value && f.score == 0.94
    case Status =>
      !StatusesApart(left, right)
      && (exists k: nat :: k < |table|
            && (forall j :: 0 <= j < k ==> !OpposesEitherWay(table[j], left.statusTerms, right.statusTerms))
            && if Opposes(table[k], left.statusTerms, right.statusTerms) then table[k] == (f.leftValue, f.rightValue)
               else Opposes(table[k], right.statusTerms, left.statusTerms) && table[k] == (f.rightValue, f.leftValue))
      && (if KeyShared(left, right) then f.score == 0.88
          else 1 <= |f.topicTokens| <= 5 && f.score == StatusScores[|f.topicTokens| - 1])
    case Numeric =>
      !StatusesApart(left, right)
      && (forall k :: 0 <= k < |table| ==> !OpposesEitherWay(table[k], left.statusTerms, right.statusTerms))
      && exists i: nat, j: nat :: FirstToDiffer(left.claims, right.claims, i, j)
           && f.leftValue == left.claims[i].raw && f.rightValue == right.claims[j].raw
           && ScoredNumeric(f.score, left.claims[i].value, right.claims[j].value, KeyShared(left, right), |f.topicTokens|)
  }

  ghost predicate FirstToDiffer(lefts: seq<Claim>, rights: seq<Claim>, i: nat, j: nat) {
    i < |lefts| && j < |rights| && Differs(lefts[i], rights[j])
    && (forall k, m :: 0 <= k < i && 0 <= m < |rights| ==> !Differs(lefts[k], rights[m]))
    && forall m :: 0 <= m < j ==> !Differs(lefts[i], rights[m])
  }

  /** A conflict in full: enough topics in common or a shared key, the words it quotes, and a severity
      that is high from 0.85 and medium from 0.65. */
  lemma FoundIs(table: seq<(string, string)>, left: Signals, right: Signals, mode: Mode)
    ensures FindPair(table, left, right, mode).Some? ==>
              var f := FindPair(table, left, right, mode).value;
              f.topicTokens == SharedTopics(left, right)
              && (KeyShared(left, right) || |f.topicTokens| >= 2 || (mode == Scored && |f.topicTokens| == 1))
              && Quotes(table, left, right, f)
              && f.severity == (if f.score >= 0.85 then High else if f.score >= 0.65 then Medium else Low)
  {
    if FindPair(table, left, right, mode).Some? {
      hide Bounded, SharedTopics, Opposed, Disagreeing, NumericScore, StatusScore, ScoredNumeric;
      var f := FindPair(table, left, right, mode).value;
      assert |f.topicTokens| <= 5 by { TopicsBounded(left, right); }
      KeyScores();
      if StatusesApart(left, right) {
      } else if Opposed(table, left.statusTerms, right.statusTerms).Some? {
        var k := OpposedIsFirst(table, left.statusTerms, right.statusTerms);
        if !KeyShared(left, right) { StatusScored(|f.topicTokens|); }
        assert k < |table|;
      } else {
        NoneOpposed(table, left.statusTerms, right.statusTerms);
        var i, j := DisagreeingIsFirst(left.claims, right.claims);
        NumericScored(KeyShared(left, right), |f.topicTokens|, left.claims[i].value, right.claims[j].value);
        assert FirstToDiffer(left.claims, right.claims, i, j);
      }
    }
  }

  lemma TopicsBounded(left: Signals, right: Signals)
    ensures |SharedTopics(left, right)| <= 5
  {
  }

  lemma NoneOpposed(table: seq<(string, string)>, left: set<string>, right: set<string>)
    requires Opposed(table, left, right).None?
    ensures forall k :: 0 <= k < |table| ==> !OpposesEitherWay(table[k], left, right)
  {
    OpposedIff(table, left, right);
  }
}
