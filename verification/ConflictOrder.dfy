/** When the order of two chunks matters to a numeric conflict (context/optimizer.ts,
    sharedTopicTokens and the numeric rule of findPairConflict). Two things can differ: which clash
    is found first, and, under a shared metadata key, whose topics are counted. */
module ConflictOrder {
  import opened Options
  import opened Arithmetic
  import opened Sequences
  import opened Ranking
  import opened Dedupe
  import opened Conflicts

  // ---------------------------------------------------------------- which clash is found

  /** `l` is the first left claim clashing with any right one, `r` the first right claim clashing
      with it; the witnesses are their positions. */
  ghost predicate FirstFound(lefts: seq<Claim>, rights: seq<Claim>, i: nat, j: nat) {
    i < |lefts| && j < |rights| && Clash(lefts[i], rights[j])
    && (forall h, k :: 0 <= h < i && 0 <= k < |rights| ==> !Clash(lefts[h], rights[k]))
    && forall k :: 0 <= k < j ==> !Clash(lefts[i], rights[k])
  }

  lemma {:induction false} FirstClashAt(left: Claim, rights: seq<Claim>) returns (j: nat)
    requires FirstClash(left, rights).Some?
    ensures j < |rights| && rights[j] == FirstClash(left, rights).value
    ensures Clash(left, rights[j]) && forall k :: 0 <= k < j ==> !Clash(left, rights[k])
  {
    if Clash(left, rights[0]) {
      j := 0;
    } else {
      j := FirstClashAt(left, rights[1..]);
      j := j + 1;
    }
  }

  lemma {:induction false} FoundAt(lefts: seq<Claim>, rights: seq<Claim>) returns (i: nat, j: nat)
    requires Disagreeing(lefts, rights).Some?
    ensures FirstFound(lefts, rights, i, j) && Disagreeing(lefts, rights) == Some((lefts[i], rights[j]))
  {
    if FirstClash(lefts[0], rights).Some? {
      i := 0;
      j := FirstClashAt(lefts[0], rights);
    } else {
      FirstClashIff(lefts[0], rights);
      i, j := FoundAt(lefts[1..], rights);
      i := i + 1;
      forall h, k | 0 <= h < i && 0 <= k < |rights| ensures !Clash(lefts[h], rights[k]) {
        if h == 0 { assert rights[k] in rights; } else { assert lefts[h] == lefts[1..][h - 1]; }
      }
    }
  }

  /** Both orders measure the same pair of claims exactly when the left claim found one way clashes
      with the right claim found the other way. */
  lemma SamePairIff(lefts: seq<Claim>, rights: seq<Claim>)
    requires Disagreeing(lefts, rights).Some?
    ensures Disagreeing(rights, lefts).Some?
    ensures var ((l, r), (r', l')) := (Disagreeing(lefts, rights).value, Disagreeing(rights, lefts).value);
            l == l' && r == r' <==> Clash(l, r')
  {
    DisagreeingIff(lefts, rights);
    DisagreeingIff(rights, lefts);
    var (a, b) := Disagreeing(lefts, rights).value;
    assert Clash(b, a);
    var i, j := FoundAt(lefts, rights);
    var j', i' := FoundAt(rights, lefts);
  }

  // ---------------------------------------------------------------- what it scores

  /** Topics are worth 0.02 each up to four. */
  function CountedTopics(left: Signals, right: Signals): nat {
    if |SharedTopics(left, right)| < 4 then |SharedTopics(left, right)| else 4
  }

  function KeyBonus(sameKey: bool): real { if sameKey then 0.12 else 0.0 }

  lemma Shift(x: real, n: int)
    ensures (x + n as real).Floor == x.Floor + n
  {
  }

  /** Everything but the gain is a multiple of 0.0001, so only the gain is rounded. */
  lemma NumericScoreParts(sameKey: bool, topics: nat, left: real, right: real)
    ensures Bounded(NumericScore(sameKey, topics, left, right))
            == 0.55 + KeyBonus(sameKey) + 0.02 * Min(topics, 4) as real + Round4(Gain(left, right))
  {
    hide Gain, Bounded;
    NumericRange(sameKey, topics, left, right);
    var x := Gain(left, right) * 10000.0 + 0.5;
    var n := 5500 + (if sameKey then 1200 else 0) + 200 * Min(topics, 4);
    Shift(x, n);
    assert NumericScore(sameKey, topics, left, right) * 10000.0 + 0.5 == x + n as real;
  }

  /** Whether a gain lifts the score to a cut, rounding included. */
  predicate Reaches(cut: real, sameKey: bool, topics: nat, left: real, right: real) {
    Gain(left, right) >= cut - 0.55 - KeyBonus(sameKey) - 0.02 * Min(topics, 4) as real - 0.00005
  }

  lemma RoundedAtLeast(g: real, n: int)
    ensures Round4(g) >= n as real / 10000.0 <==> g >= n as real / 10000.0 - 0.00005
  {
    var x := g * 10000.0 + 0.5;
    assert x.Floor >= n <==> x >= n as real;
  }

  lemma NumericSeverity(sameKey: bool, topics: nat, left: real, right: real)
    ensures Band(Bounded(NumericScore(sameKey, topics, left, right)))
            == if Reaches(0.85, sameKey, topics, left, right) then High
               else if Reaches(0.65, sameKey, topics, left, right) then Medium
               else Low
  {
    hide Gain, Bounded, NumericScore, Round4;
    NumericScoreParts(sameKey, topics, left, right);
    var lifted := (if sameKey then 1200 else 0) + 200 * Min(topics, 4);
    RoundedAtLeast(Gain(left, right), 3000 - lifted);
    RoundedAtLeast(Gain(left, right), 1000 - lifted);
  }

  lemma GainSymmetric(left: real, right: real)
    ensures Gain(left, right) == Gain(right, left)
  {
    assert Abs(left - right) == Abs(right - left);
  }

  /** Whose topics count: without a shared key the same number both ways; with one, each side's own. */
  lemma TopicsCounted(left: Signals, right: Signals)
    requires Distinct(left.topicTokens) && Distinct(right.topicTokens)
    ensures if SameKey(left, right) then
              CountedTopics(left, right) == Min(|left.topicTokens|, 4)
              && CountedTopics(right, left) == Min(|right.topicTokens|, 4)
            else CountedTopics(left, right) == CountedTopics(right, left)
  {
    hide Common;
    CommonSizeSymmetric(left.topicTokens, right.topicTokens);
  }

  // ---------------------------------------------------------------- main results

  /** What a numeric conflict is found to be, in the terms above. */
  lemma NumericFound(table: seq<(string, string)>, left: Signals, right: Signals, mode: Mode)
    requires var there := FindPair(table, left, right, mode); there.Some? && there.value.kind == Numeric
    ensures Disagreeing(left.claims, right.claims).Some?
    ensures var (l, r) := Disagreeing(left.claims, right.claims).value;
            var there, key, topics := FindPair(table, left, right, mode).value, SameKey(left, right),
                                      CountedTopics(left, right);
            there.score == 0.55 + KeyBonus(key) + 0.02 * topics as real + Round4(Gain(l.value, r.value))
            && there.severity == (if Reaches(0.85, key, topics, l.value, r.value) then High
                                  else if Reaches(0.65, key, topics, l.value, r.value) then Medium else Low)
  {
    hide Bounded, NumericScore, Disagreeing, Opposed, SharedTopics, Gain, Round4, Band, OnTopic, StatusesDiffer;
    var (l, r) := Disagreeing(left.claims, right.claims).value;
    var n := |SharedTopics(left, right)|;
    NumericScoreParts(SameKey(left, right), n, l.value, r.value);
    NumericSeverity(SameKey(left, right), n, l.value, r.value);
  }

  /** When the order of two numerically conflicting chunks matters, exactly. The score agrees if and
      only if rounded gain and counted topics balance; the severity if and only if both orders fall
      on the same side of each cut. When both measure the same pair of claims, the score agrees if
      and only if as many topics count: always without a shared key, and with one exactly when both
      chunks have as many topic tokens, or both at least four. */
  lemma NumericOrderIff(table: seq<(string, string)>, left: Signals, right: Signals, mode: Mode)
    requires Distinct(left.topicTokens) && Distinct(right.topicTokens)
    requires var there := FindPair(table, left, right, mode); there.Some? && there.value.kind == Numeric
    ensures FindPair(table, right, left, mode).Some?
    ensures Disagreeing(left.claims, right.claims).Some? && Disagreeing(right.claims, left.claims).Some?
    ensures var there, back := FindPair(table, left, right, mode).value, FindPair(table, right, left, mode).value;
            var ((l, r), (r', l')) := (Disagreeing(left.claims, right.claims).value,
                                       Disagreeing(right.claims, left.claims).value);
            var key, m, n := SameKey(left, right), CountedTopics(left, right), CountedTopics(right, left);
            (there.score == back.score <==>
               Round4(Gain(l.value, r.value)) + 0.02 * m as real == Round4(Gain(l'.value, r'.value)) + 0.02 * n as real)
            && (there.severity == back.severity <==>
                  (Reaches(0.85, key, m, l.value, r.value) <==> Reaches(0.85, key, n, l'.value, r'.value))
                  && (Reaches(0.65, key, m, l.value, r.value) <==> Reaches(0.65, key, n, l'.value, r'.value)))
            && (Clash(l, r') ==>
                  (there.score == back.score <==> !key || Min(|left.topicTokens|, 4) == Min(|right.topicTokens|, 4)))
  {
    hide FindPair, Disagreeing, Gain, Round4, CountedTopics;
    ConflictIsSymmetric(table, left, right, mode);
    NumericFound(table, left, right, mode);
    NumericFound(table, right, left, mode);
    SamePairIff(left.claims, right.claims);
    TopicsCounted(left, right);
    var ((l, r), (r', l')) := (Disagreeing(left.claims, right.claims).value, Disagreeing(right.claims, left.claims).value);
    GainSymmetric(l'.value, r'.value);
    CutsInOrder(SameKey(left, right), CountedTopics(left, right), l.value, r.value);
    CutsInOrder(SameKey(left, right), CountedTopics(right, left), l'.value, r'.value);
  }

  lemma CutsInOrder(sameKey: bool, topics: nat, left: real, right: real)
    ensures Reaches(0.85, sameKey, topics, left, right) ==> Reaches(0.65, sameKey, topics, left, right)
  {
    hide Gain;
  }

  // ---------------------------------------------------------------- both things happen

  lemma NoTermsOppose(table: seq<(string, string)>)
    ensures Opposed(table, {}, {}).None?
  {
    OpposedIff(table, {}, {});
  }

  /** Three topics in common, the fourth of each chunk its own. */
  lemma ThreeInCommon(a: string, b: string, c: string, d: string, e: string)
    requires Distinct([a, b, c, d, e])
    ensures Common([a, b, c, d], [a, b, c, e]) == [a, b, c]
  {
    var left, right, all := [a, b, c, d], [a, b, c, e], [a, b, c, d, e];
    assert all[0] == a && all[1] == b && all[2] == c && all[3] == d && all[4] == e;
    assert left[..3] == [a, b, c] && left[..3][..2] == [a, b] && left[..3][..2][..1] == [a];
    assert left[..3][..2][..1][..0] == [];
    assert Common([a], right) == [a];
    assert Common([a, b], right) == [a, b];
    assert Common([a, b, c], right) == [a, b, c];
    assert d !in right;
  }

  const A := Claim(10.0, "days", "10 days")
  const B := Claim(11.0, "days", "11 days")
  const C := Claim(50.0, "days", "50 days")
  const D := Claim(15.0, "days", "15 days")

  /** What is read off a chunk claiming 10 days and `other` days about one topic. */
  function Claiming(topic: string, ten: string, day: string, number: string, other: Claim): Signals {
    Signals([topic, ten, day, number], None, None, {}, [A, other])
  }

  /** A different clash comes first each way: 10 against 50 days is high, 10 against 11 low. */
  lemma FirstClash3Topics(topic: string, ten: string, day: string, eleven: string, fifty: string)
    requires Distinct([topic, ten, day, eleven, fifty])
    ensures var left, right := Claiming(topic, ten, day, eleven, B), Claiming(topic, ten, day, fifty, C);
            var there := FindPair(StatusConflicts, left, right, Scored);
            var back := FindPair(StatusConflicts, right, left, Scored);
            there.Some? && back.Some? && there.value.severity == High && back.value.severity == Low
  {
    hide Bounded, Common, Gain, Round4, Opposed;
    var left, right := Claiming(topic, ten, day, eleven, B), Claiming(topic, ten, day, fifty, C);
    ThreeInCommon(topic, ten, day, eleven, fifty);
    assert Distinct([topic, ten, day, fifty, eleven]) by { Swapped(topic, ten, day, eleven, fifty); }
    ThreeInCommon(topic, ten, day, fifty, eleven);
    NoTermsOppose(StatusConflicts);
    assert FirstClash(A, [A, C]) == Some(C) by { assert [A, C][1..] == [C]; }
    assert FirstClash(A, [A, B]) == Some(B) by { assert [A, B][1..] == [B]; }
    NumericFound(StatusConflicts, left, right, Scored);
    NumericFound(StatusConflicts, right, left, Scored);
    GainIs(10.0, 50.0, 0.8);
    GainOfTenAndEleven();
  }

  lemma Swapped(a: string, b: string, c: string, d: string, e: string)
    requires Distinct([a, b, c, d, e])
    ensures Distinct([a, b, c, e, d])
  {
    var all := [a, b, c, d, e];
    assert all[0] == a && all[1] == b && all[2] == c && all[3] == d && all[4] == e;
  }

  /** As read off "refund: 10 days, 11 days" and "refund: 10 days, 50 days". */
  lemma FirstClashDependsOnOrder()
    ensures var left := Claiming("refund", "10", "day", "11", B);
            var right := Claiming("refund", "10", "day", "50", C);
            var there := FindPair(StatusConflicts, left, right, Scored);
            var back := FindPair(StatusConflicts, right, left, Scored);
            there.Some? && back.Some? && there.value.severity == High && back.value.severity == Low
  {
    hide FindPair;
    var refund, ten, day, eleven, fifty := "refund", "10", "day", "11", "50";
    assert ten[1] == '0' && eleven[1] == '1' && fifty[0] == '5' && ten[0] == '1' && eleven[0] == '1';
    assert |refund| == 6 && |day| == 3;
    FirstClash3Topics(refund, ten, day, eleven, fifty);
  }

  lemma GainIs(left: real, right: real, delta: real)
    requires delta == RelativeDelta(left, right)
    ensures Gain(left, right) == MinReal(0.25, delta * 0.35)
  {
  }

  lemma GainOfTenAndEleven()
    ensures 0.0318 <= Gain(10.0, 11.0) <= 0.0319
  {
    assert RelativeDelta(10.0, 11.0) == 1.0 / 11.0;
  }

  lemma GainOfTenAndFifteen()
    ensures 0.1166 <= Gain(10.0, 15.0) <= 0.1167 && Gain(15.0, 10.0) == Gain(10.0, 15.0)
  {
    assert RelativeDelta(10.0, 15.0) == 5.0 / 15.0;
    GainSymmetric(10.0, 15.0);
  }

  /** The same pair both ways, 10 against 15 days under one metadata key: medium when the chunk
      with three topics comes first, high when the one with four does. */
  lemma CountedTopicsDependOnOrder(key: string, t: seq<string>, u: seq<string>)
    requires key != "" && Distinct(t) && Distinct(u) && |t| == 3 && |u| == 4
    ensures var left, right := Signals(t, Some(key), None, {}, [A]), Signals(u, Some(key), None, {}, [D]);
            var there := FindPair(StatusConflicts, left, right, Scored);
            var back := FindPair(StatusConflicts, right, left, Scored);
            there.Some? && back.Some? && there.value.severity == Medium && back.value.severity == High
  {
    hide Bounded, Common, Gain, Round4, Opposed;
    var left, right := Signals(t, Some(key), None, {}, [A]), Signals(u, Some(key), None, {}, [D]);
    NoTermsOppose(StatusConflicts);
    assert FirstClash(A, [D]) == Some(D) && FirstClash(D, [A]) == Some(A);
    NumericFound(StatusConflicts, left, right, Scored);
    NumericFound(StatusConflicts, right, left, Scored);
    GainOfTenAndFifteen();
  }
}
