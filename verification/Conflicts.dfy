/** When two chunks conflict (context/optimizer.ts, sharedTopicTokens, findPairConflict). */
module Conflicts {
  import opened Options
  import opened Arithmetic
  import opened Sequences
  import opened Ranking
  import opened Dedupe
  import opened Tokens

  datatype Claim = Claim(value: real, unit: string, raw: string)

  /** What is read off one chunk. Topic tokens are a set in insertion order, so free of repeats. */
  datatype Signals = Signals(
    topicTokens: seq<string>, metadataKey: Option<string>, metadataStatus: Option<string>,
    statusTerms: set<string>, claims: seq<Claim>)

  datatype Mode = Heuristic | Scored
  datatype Kind = Metadata | Status | Numeric

  datatype PairConflict = PairConflict(
    kind: Kind, topicTokens: seq<string>, leftValue: string, rightValue: string, score: real, severity: Severity)

  /** The pairs of status words that exclude each other. */
  const StatusConflicts: seq<(string, string)> := [
    ("active", "inactive"), ("enabled", "disabled"), ("available", "unavailable"), ("current", "deprecated"),
    ("current", "legacy"), ("supported", "unsupported"), ("allowed", "blocked"), ("public", "private")]

  // ---------------------------------------------------------------- topics

  predicate SameKey(left: Signals, right: Signals) {
    Given(left.metadataKey) && left.metadataKey == right.metadataKey
  }

  function AtMost(s: seq<string>, n: nat): seq<string> { if |s| <= n then s else s[..n] }

  function Common(left: seq<string>, right: seq<string>): seq<string> {
    if left == [] then []
    else Common(left[..|left| - 1], right) + if left[|left| - 1] in right then [left[|left| - 1]] else []
  }

  function SharedTopics(left: Signals, right: Signals): seq<string> {
    if SameKey(left, right) then AtMost(left.topicTokens, 5)
    else AtMost(Common(left.topicTokens, right.topicTokens), 5)
  }

  lemma {:induction false} CommonPrefix(left: seq<string>, right: seq<string>, n: nat)
    requires n <= |left|
    ensures Common(left[..n], right) <= Common(left, right)
    decreases |left|
  {
    if n < |left| {
      assert left[..|left| - 1][..n] == left[..n];
      CommonPrefix(left[..|left| - 1], right, n);
    } else {
      assert left[..n] == left;
    }
  }

  /** The loop that stops at the fifth shared token. */
  method SharedTopicTokens(left: Signals, right: Signals) returns (shared: seq<string>)
    ensures shared == SharedTopics(left, right)
  {
    if SameKey(left, right) {
      return AtMost(left.topicTokens, 5);
    }
    shared := [];
    var tokens, i := left.topicTokens, 0;
    while i < |tokens|
      invariant 0 <= i <= |tokens| && shared == Common(tokens[..i], right.topicTokens) && |shared| < 5
    {
      assert tokens[..i + 1][..i] == tokens[..i];
      var token := tokens[i];
      i := i + 1;
      if token in right.topicTokens {
        shared := shared + [token];
        if |shared| >= 5 {
          CommonPrefix(tokens, right.topicTokens, i);
          return;
        }
      }
    }
    assert tokens[..i] == tokens;
  }

  // ---------------------------------------------------------------- the three rules

  function Opposed(table: seq<(string, string)>, left: set<string>, right: set<string>): Option<(string, string)> {
    if table == [] then None
    else
      var (a, b) := table[0];
      if a in left && b in right then Some((a, b))
      else if b in left && a in right then Some((b, a))
      else Opposed(table[1..], left, right)
  }

  predicate Clash(left: Claim, right: Claim) { left.unit == right.unit && left.value != right.value }

  function FirstClash(left: Claim, rights: seq<Claim>): (r: Option<Claim>)
    ensures r.Some? ==> Clash(left, r.value) && r.value in rights
  {
    if rights == [] then None
    else if Clash(left, rights[0]) then Some(rights[0])
    else FirstClash(left, rights[1..])
  }

  function Disagreeing(lefts: seq<Claim>, rights: seq<Claim>): (r: Option<(Claim, Claim)>)
    ensures r.Some? ==> Clash(r.value.0, r.value.1) && r.value.0 in lefts && r.value.1 in rights
  {
    if lefts == [] then None
    else
      match FirstClash(lefts[0], rights)
      case Some(right) => Some((lefts[0], right))
      case None => Disagreeing(lefts[1..], rights)
  }

  function Band(score: real): Severity {
    if score >= 0.85 then High else if score >= 0.65 then Medium else Low
  }

  function Bounded(score: real): real { Round4(MaxReal(0.0, MinReal(1.0, score))) }

  function StatusScore(sameKey: bool, topics: nat): real {
    if sameKey then 0.88 else 0.72 + MinReal(0.12, topics as real * 0.03)
  }

  function RelativeDelta(left: real, right: real): real {
    Abs(left - right) / MaxReal(MaxReal(Abs(left), Abs(right)), 1.0)
  }

  function Gain(left: real, right: real): real { MinReal(0.25, RelativeDelta(left, right) * 0.35) }

  function NumericScore(sameKey: bool, topics: nat, left: real, right: real): real {
    0.55 + Gain(left, right) + (if sameKey then 0.12 else 0.0) + MinReal(0.08, topics as real * 0.02)
  }

  function Found(kind: Kind, topics: seq<string>, left: string, right: string, score: real): PairConflict {
    PairConflict(kind, topics, left, right, Bounded(score), Band(Bounded(score)))
  }

  predicate OnTopic(left: Signals, right: Signals, mode: Mode) {
    SameKey(left, right) || |SharedTopics(left, right)| >= if mode == Scored then 1 else 2
  }

  predicate StatusesDiffer(left: Signals, right: Signals) {
    SameKey(left, right) && Given(left.metadataStatus) && Given(right.metadataStatus)
    && left.metadataStatus != right.metadataStatus
  }

  /** findPairConflict, for any table of opposed status words. */
  function FindPair(table: seq<(string, string)>, left: Signals, right: Signals, mode: Mode): Option<PairConflict> {
    var topics := SharedTopics(left, right);
    if !OnTopic(left, right, mode) then None
    else if StatusesDiffer(left, right) then
      Some(Found(Metadata, topics, "status:" + left.metadataStatus.value, "status:" + right.metadataStatus.value, 0.94))
    else
      match Opposed(table, left.statusTerms, right.statusTerms)
      case Some(terms) =>
        Some(Found(Status, topics, terms.0, terms.1, StatusScore(SameKey(left, right), |topics|)))
      case None =>
        match Disagreeing(left.claims, right.claims)
        case Some(claims) =>
          Some(Found(Numeric, topics, claims.0.raw, claims.1.raw,
                     NumericScore(SameKey(left, right), |topics|, claims.0.value, claims.1.value)))
        case None => None
  }

  // ---------------------------------------------------------------- what the rules find

  lemma {:induction false} OpposedIff(table: seq<(string, string)>, left: set<string>, right: set<string>)
    ensures Opposed(table, left, right).Some? <==>
            exists k :: 0 <= k < |table| && ((table[k].0 in left && table[k].1 in right)
                                             || (table[k].1 in left && table[k].0 in right))
  {
    if table != [] {
      OpposedIff(table[1..], left, right);
      assert forall k :: 1 <= k < |table| ==> table[k] == table[1..][k - 1];
    }
  }

  lemma {:induction false} FirstClashIff(left: Claim, rights: seq<Claim>)
    ensures FirstClash(left, rights).Some? <==> exists r :: r in rights && Clash(left, r)
  {
    if rights != [] {
      FirstClashIff(left, rights[1..]);
      assert rights == [rights[0]] + rights[1..];
    }
  }

  lemma {:induction false} DisagreeingIff(lefts: seq<Claim>, rights: seq<Claim>)
    ensures Disagreeing(lefts, rights).Some? <==> exists l, r :: l in lefts && r in rights && Clash(l, r)
  {
    if lefts != [] {
      FirstClashIff(lefts[0], rights);
      DisagreeingIff(lefts[1..], rights);
      assert lefts == [lefts[0]] + lefts[1..];
    }
  }

  lemma {:induction false} CommonAsSet(left: seq<string>, right: seq<string>)
    requires Distinct(left)
    ensures var c := Common(left, right);
            Distinct(c) && forall t :: t in c <==> t in left && t in right
  {
    if left != [] {
      var front := left[..|left| - 1];
      CommonAsSet(front, right);
      assert left == front + [left[|left| - 1]];
    }
  }

  lemma {:induction false} DistinctSize(s: seq<string>)
    requires Distinct(s)
    ensures |set t | t in s| == |s|
  {
    if s != [] {
      var last, front := s[|s| - 1], s[..|s| - 1];
      DistinctSize(front);
      assert s == front + [last];
      assert last !in front;
      assert (set t | t in s) == (set t | t in front) + {last};
    }
  }

  lemma CommonSizeSymmetric(left: seq<string>, right: seq<string>)
    requires Distinct(left) && Distinct(right)
    ensures |Common(left, right)| == |Common(right, left)|
  {
    CommonAsSet(left, right);
    CommonAsSet(right, left);
    DistinctSize(Common(left, right));
    DistinctSize(Common(right, left));
    assert (set t | t in Common(left, right)) == (set t | t in Common(right, left));
  }

  /** Two chunks conflict exactly when they are on one topic and disagree on it. */
  lemma ConflictIff(table: seq<(string, string)>, left: Signals, right: Signals, mode: Mode)
    ensures FindPair(table, left, right, mode).Some? <==>
              (SameKey(left, right) || |SharedTopics(left, right)| >= (if mode == Scored then 1 else 2))
              && (StatusesDiffer(left, right)
                  || (exists k :: 0 <= k < |table| &&
                        ((table[k].0 in left.statusTerms && table[k].1 in right.statusTerms)
                         || (table[k].1 in left.statusTerms && table[k].0 in right.statusTerms)))
                  || (exists l, r :: l in left.claims && r in right.claims && Clash(l, r)))
  {
    hide StatusesDiffer, SharedTopics, Clash, Opposed, Disagreeing;
    OpposedIff(table, left.statusTerms, right.statusTerms);
    DisagreeingIff(left.claims, right.claims);
  }

  /** Whether two chunks conflict, and of which kind, does not depend on their order; nor does the
      score, unless the conflict is numeric. */
  lemma ConflictIsSymmetric(table: seq<(string, string)>, left: Signals, right: Signals, mode: Mode)
    requires Distinct(left.topicTokens) && Distinct(right.topicTokens)
    ensures var there, back := FindPair(table, left, right, mode), FindPair(table, right, left, mode);
            there.Some? == back.Some?
            && (there.Some? ==> there.value.kind == back.value.kind)
            && (there.Some? && there.value.kind != Numeric ==>
                  there.value.score == back.value.score && there.value.severity == back.value.severity)
  {
    hide Bounded, Band, NumericScore, Common, Opposed, Disagreeing, Distinct;
    CommonSizeSymmetric(left.topicTokens, right.topicTokens);
    OpposedIff(table, left.statusTerms, right.statusTerms);
    OpposedIff(table, right.statusTerms, left.statusTerms);
    DisagreeingIff(left.claims, right.claims);
    DisagreeingIff(right.claims, left.claims);
    forall l, r | l in left.claims && r in right.claims ensures Clash(l, r) == Clash(r, l) {
    }
  }

  lemma RoundsTo(x: real, n: int)
    requires 0.0 <= x <= 1.0 && n as real <= x * 10000.0 + 0.5 < n as real + 1.0
    ensures Bounded(x) == n as real / 10000.0
  {
    assert Bounded(x) == Round4(x) by { hide Round4; }
    FloorIs(x * 10000.0 + 0.5, n);
  }

  lemma FloorIs(y: real, n: int)
    requires n as real <= y < n as real + 1.0
    ensures y.Floor == n
  {
  }

  /** The score tells the kind: metadata conflicts are always high; status conflicts high under a
      shared key and medium otherwise; a numeric score lies in [0.55, 1], so no bound ever clips. */
  lemma ScoreRange(table: seq<(string, string)>, left: Signals, right: Signals, mode: Mode)
    ensures var found := FindPair(table, left, right, mode);
            found.Some? ==>
              match found.value.kind
              case Metadata => found.value.score == 0.94 && found.value.severity == High
              case Status => found.value.severity == if SameKey(left, right) then High else Medium
              case Numeric => 0.55 <= found.value.score <= 1.0
  {
    hide Bounded, Opposed, Disagreeing, NumericScore, Common;
    RoundsTo(0.94, 9400);
    RoundsTo(0.88, 8800);
    var n := |SharedTopics(left, right)|;
    var s := StatusScore(false, n);
    if OnTopic(left, right, mode) && !SameKey(left, right) {
      TopicScore(n);
    }
    match Disagreeing(left.claims, right.claims)
    case Some(c) =>
      NumericRange(SameKey(left, right), n, c.0.value, c.1.value);
    case None =>
  }

  lemma TopicScore(n: nat)
    requires 1 <= n <= 5
    ensures Band(Bounded(StatusScore(false, n))) == Medium
  {
    hide Bounded;
    if n >= 4 { RoundsTo(0.84, 8400); }
    else if n == 3 { RoundsTo(0.81, 8100); }
    else if n == 2 { RoundsTo(0.78, 7800); }
    else { RoundsTo(0.75, 7500); }
  }

  lemma GainRange(left: real, right: real)
    ensures 0.0 <= Gain(left, right) <= 0.25
  {
    assert RelativeDelta(left, right) >= 0.0;
  }

  lemma NumericRange(sameKey: bool, topics: nat, left: real, right: real)
    ensures 0.55 <= NumericScore(sameKey, topics, left, right) <= 1.0
    ensures Bounded(NumericScore(sameKey, topics, left, right)) == Round4(NumericScore(sameKey, topics, left, right))
    ensures 0.55 <= Bounded(NumericScore(sameKey, topics, left, right)) <= 1.0
  {
    hide Gain;
    GainRange(left, right);
    var x := NumericScore(sameKey, topics, left, right);
    assert 0.55 <= x <= 1.0;
    assert (0.55 * 10000.0 + 0.5).Floor == 5500 && (1.0 * 10000.0 + 0.5).Floor == 10000;
    Round4Monotone(0.55, x);
    Round4Monotone(x, 1.0);
  }

  // ---------------------------------------------------------------- words that can never match

  /** A status term is looked up among normalised tokens, and is the normal form of its own
      spelling exactly when it does not end in -ed. */
  lemma TermsFoundBySpellingIff(k: nat)
    requires k < |StatusConflicts|
    ensures var (a, b) := StatusConflicts[k];
            (NormalizeToken(a) == a <==> !EndsWith(a, "ed")) && (NormalizeToken(b) == b <==> !EndsWith(b, "ed"))
  {
    var (a, b) := StatusConflicts[k];
    hide NormalizeToken, EndsWith;
    TermShape(k);
    EndsIn(a, a[|a| - 1]);
    EndsIn(b, b[|b| - 1]);
    UnchangedIff(a);
    UnchangedIff(b);
  }

  lemma TermShape(k: nat)
    requires k < |StatusConflicts|
    ensures var (a, b) := StatusConflicts[k];
            |a| > 4 && |b| > 4 && a[|a| - 1] != 'g' && b[|b| - 1] != 'g' && a[|a| - 1] != 's' && b[|b| - 1] != 's'
  {
  }

  /** Which terms those are: the missing ones are enabled, disabled, deprecated, supported,
      unsupported, allowed and blocked. */
  lemma TermsEndingInEd(k: nat)
    requires k < |StatusConflicts|
    ensures EndsWith(StatusConflicts[k].0, "ed") <==> k == 1 || k == 5 || k == 6
    ensures EndsWith(StatusConflicts[k].1, "ed") <==> k == 1 || k == 3 || k == 5 || k == 6
  {
  }
}
