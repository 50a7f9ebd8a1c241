/** Sentence splitting and joining (context/optimizer.ts, splitSentences), and why joining any
    in-order choice of sentences and splitting again gives the same sentences back. */
module Sentences {
  import opened Ranking

  const MIN_SENTENCE := 12
  const MAX_SENTENCES := 64

  // ---------------------------------------------------------------- whitespace

  /** The characters matched by \s, which are also those String.prototype.trim removes. */
  predicate IsSpace(c: char) {
    var n := c as int;
    9 <= n <= 13 || n == 32 || n == 0xA0 || n == 0x1680 || 0x2000 <= n <= 0x200A
    || n == 0x2028 || n == 0x2029 || n == 0x202F || n == 0x205F || n == 0x3000 || n == 0xFEFF
  }

  function TrimLeft(s: string): string {
    if s != "" && IsSpace(s[0]) then TrimLeft(s[1..]) else s
  }

  function TrimRight(s: string): string {
    if s != "" && IsSpace(s[|s| - 1]) then TrimRight(s[..|s| - 1]) else s
  }

  function Trim(s: string): string { TrimRight(TrimLeft(s)) }

  /** replace(/\s+/g, " ") */
  function Collapse(s: string): string
    decreases |s|
  {
    if s == "" then ""
    else if IsSpace(s[0]) then
      TrimLeftShorter(s);
      [' '] + Collapse(TrimLeft(s))
    else [s[0]] + Collapse(s[1..])
  }

  function Normalize(s: string): string { Trim(Collapse(s)) }

  lemma {:induction false} TrimLeftShorter(s: string)
    ensures |TrimLeft(s)| <= |s|
    ensures s != "" && IsSpace(s[0]) ==> |TrimLeft(s)| < |s|
  {
    if s != "" && IsSpace(s[0]) { TrimLeftShorter(s[1..]); }
  }

  // ---------------------------------------------------------------- splitting

  predicate Stop(c: char) { c == '.' || c == '!' || c == '?' }

  /** Length of the leading run of characters that do not end a sentence. */
  function Run(s: string): (n: nat)
    ensures n <= |s| && (forall i :: 0 <= i < n ==> !Stop(s[i])) && (n < |s| ==> Stop(s[n]))
  {
    if s == "" || Stop(s[0]) then 0 else 1 + Run(s[1..])
  }

  /** match(/[^.!?]+[.!?]?/g): runs of non-stops, each with the stop that follows it. */
  function Matches(s: string): seq<string>
    decreases |s|
  {
    if s == "" then []
    else if Stop(s[0]) then Matches(s[1..])
    else
      var n := Run(s);
      if n < |s| then [s[..n + 1]] + Matches(s[n + 1..]) else [s]
  }

  /** A text without any match stands for itself. */
  function Raw(normalized: string): seq<string> {
    if Matches(normalized) == [] then [normalized] else Matches(normalized)
  }

  function Kept(raw: seq<string>): seq<string> {
    if raw == [] then []
    else if |Trim(raw[0])| < MIN_SENTENCE then Kept(raw[1..])
    else [Trim(raw[0])] + Kept(raw[1..])
  }

  function Cap(s: seq<string>): seq<string> {
    if |s| > MAX_SENTENCES then s[..MAX_SENTENCES] else s
  }

  function Split(content: string): seq<string> {
    var normalized := Normalize(content);
    if normalized == "" then [] else Cap(Kept(Raw(normalized)))
  }

  lemma {:induction false} KeptSnoc(raw: seq<string>, last: string)
    ensures Kept(raw + [last])
         == Kept(raw) + if |Trim(last)| < MIN_SENTENCE then [] else [Trim(last)]
  {
    if raw != [] {
      assert (raw + [last])[1..] == raw[1..] + [last];
      KeptSnoc(raw[1..], last);
    }
  }

  lemma {:induction false} KeptPrefix(raw: seq<string>, n: nat)
    requires n <= |raw|
    ensures Kept(raw[..n]) <= Kept(raw)
    decreases |raw| - n
  {
    if n < |raw| {
      assert raw[..n + 1] == raw[..n] + [raw[n]];
      KeptSnoc(raw[..n], raw[n]);
      KeptPrefix(raw, n + 1);
    } else {
      assert raw[..n] == raw;
    }
  }

  /** The loop as written: skip short pieces, stop at the 64th sentence. */
  method SplitSentences(content: string) returns (sentences: seq<string>)
    ensures sentences == Split(content)
  {
    var normalized := Normalize(content);
    if normalized == "" {
      return [];
    }
    var raw := Raw(normalized);
    sentences := [];
    var i := 0;
    while i < |raw|
      invariant 0 <= i <= |raw|
      invariant sentences == Kept(raw[..i]) && |sentences| < MAX_SENTENCES
    {
      assert raw[..i + 1] == raw[..i] + [raw[i]];
      KeptSnoc(raw[..i], raw[i]);
      var text := Trim(raw[i]);
      i := i + 1;
      if |text| >= MIN_SENTENCE {
        sentences := sentences + [text];
        if |sentences| >= MAX_SENTENCES {
          KeptPrefix(raw, i);
          return;
        }
      }
    }
    assert raw[..i] == raw;
  }

  /** Join with single spaces. */
  function Join(s: seq<string>): string {
    if s == [] then "" else s[0] + Tail(s[1..])
  }

  function Tail(s: seq<string>): string {
    if s == [] then "" else [' '] + s[0] + Tail(s[1..])
  }

  // ---------------------------------------------------------------- tidy texts

  /** Every space is a plain one and none follows another. */
  ghost predicate Spaced(s: string) {
    forall i :: 0 <= i < |s| && IsSpace(s[i]) ==> s[i] == ' ' && (i + 1 < |s| ==> !IsSpace(s[i + 1]))
  }

  /** Spaced, and no space at either end. */
  ghost predicate Tidy(s: string) {
    Spaced(s) && (s != "" ==> !IsSpace(s[0]) && !IsSpace(s[|s| - 1]))
  }

  lemma {:induction false} TrimLeftCuts(s: string)
    ensures var t := TrimLeft(s);
            |t| <= |s| && t == s[|s| - |t|..] && (t != "" ==> !IsSpace(t[0]))
            && forall i :: 0 <= i < |s| - |t| ==> IsSpace(s[i])
  {
    hide IsSpace;
    if s != "" && IsSpace(s[0]) {
      var t := TrimLeft(s[1..]);
      TrimLeftCuts(s[1..]);
      assert s[1..][|s| - 1 - |t|..] == s[|s| - |t|..];
    }
  }

  lemma {:induction false} TrimRightCuts(s: string)
    ensures var t := TrimRight(s);
            |t| <= |s| && t == s[..|t|] && (t != "" ==> !IsSpace(t[|t| - 1]))
            && forall i :: |t| <= i < |s| ==> IsSpace(s[i])
  {
    hide IsSpace;
    if s != "" && IsSpace(s[|s| - 1]) { TrimRightCuts(s[..|s| - 1]); }
  }

  lemma TrimTidies(s: string)
    requires Spaced(s)
    ensures Tidy(Trim(s)) && |Trim(s)| <= |s|
  {
    hide IsSpace;
    TrimLeftCuts(s);
    TrimRightCuts(TrimLeft(s));
  }

  lemma {:induction false} CollapseSpaces(s: string)
    ensures Spaced(Collapse(s)) && |Collapse(s)| <= |s|
    ensures (Collapse(s) == "" <==> s == "") && (s != "" && !IsSpace(s[0]) ==> Collapse(s)[0] == s[0])
    decreases |s|
  {
    hide IsSpace;
    if s != "" {
      if IsSpace(s[0]) {
        TrimLeftShorter(s);
        TrimLeftCuts(s);
        CollapseSpaces(TrimLeft(s));
      } else {
        CollapseSpaces(s[1..]);
      }
    }
  }

  lemma NormalizeTidies(s: string)
    ensures Tidy(Normalize(s)) && |Normalize(s)| <= |s|
  {
    CollapseSpaces(s);
    TrimTidies(Collapse(s));
  }

  lemma {:induction false} CollapseFixed(s: string)
    requires Spaced(s)
    ensures Collapse(s) == s
    decreases |s|
  {
    hide IsSpace;
    if s != "" {
      CollapseFixed(s[1..]);
      if IsSpace(s[0]) { assert TrimLeft(s) == TrimLeft(s[1..]) == s[1..]; }
    }
  }

  lemma TidyFixed(s: string)
    requires Tidy(s)
    ensures Normalize(s) == s && Trim(s) == s
  {
    CollapseFixed(s);
  }

  // ---------------------------------------------------------------- the shape of sentences

  ghost predicate AllStops(s: string) { forall i :: 0 <= i < |s| ==> Stop(s[i]) }

  /** No stop before the last character. */
  ghost predicate OneStop(s: string) { forall i :: 0 <= i < |s| - 1 ==> !Stop(s[i]) }

  predicate Closed(s: string) { s != "" && Stop(s[|s| - 1]) }

  ghost predicate Proper(s: string) { Tidy(s) && |s| >= MIN_SENTENCE && OneStop(s) }

  /** Proper sentences, all but the last of them closed by a stop. */
  ghost predicate ProperList(s: seq<string>) {
    forall i :: 0 <= i < |s| ==> Proper(s[i]) && (i < |s| - 1 ==> Closed(s[i]))
  }

  ghost predicate RawList(raw: seq<string>) {
    forall i :: 0 <= i < |raw| ==> Spaced(raw[i]) && OneStop(raw[i]) && (i < |raw| - 1 ==> Closed(raw[i]))
  }

  lemma {:induction false} MatchesShape(s: string)
    requires Spaced(s)
    ensures RawList(Matches(s))
    decreases |s|
  {
    hide IsSpace, Stop;
    if s != "" {
      if Stop(s[0]) {
        MatchesShape(s[1..]);
      } else {
        var n := Run(s);
        if n < |s| { MatchesShape(s[n + 1..]); }
      }
    }
  }

  lemma TrimmedShape(s: string)
    requires Spaced(s) && OneStop(s) && |Trim(s)| >= MIN_SENTENCE
    ensures Proper(Trim(s)) && (Closed(s) ==> Closed(Trim(s)))
  {
    hide IsSpace;
    TrimTidies(s);
    TrimLeftCuts(s);
    TrimRightCuts(TrimLeft(s));
  }

  lemma {:induction false} KeptShape(raw: seq<string>)
    requires RawList(raw)
    ensures ProperList(Kept(raw))
  {
    if raw != [] {
      KeptShape(raw[1..]);
      if |Trim(raw[0])| >= MIN_SENTENCE { TrimmedShape(raw[0]); }
    }
  }

  lemma {:induction false} NoMatchMeansStops(s: string)
    requires Matches(s) == []
    ensures AllStops(s)
  {
    if s != "" { NoMatchMeansStops(s[1..]); }
  }

  /** What splitting produces: proper sentences, or one text made of stops only. */
  lemma SplitShape(content: string)
    ensures var s := Split(content);
            |s| <= MAX_SENTENCES
            && (ProperList(s) || (|s| == 1 && AllStops(s[0]) && Tidy(s[0]) && |s[0]| >= MIN_SENTENCE))
  {
    var normalized := Normalize(content);
    NormalizeTidies(content);
    if normalized != "" {
      if Matches(normalized) == [] {
        NoMatchMeansStops(normalized);
        TidyFixed(normalized);
        assert Kept([normalized][1..]) == [];
      } else {
        MatchesShape(normalized);
        KeptShape(Matches(normalized));
      }
    }
  }

  // ---------------------------------------------------------------- splitting the join

  lemma {:induction false} RunOf(body: string, rest: string)
    requires (forall i :: 0 <= i < |body| ==> !Stop(body[i])) && (rest == "" || Stop(rest[0]))
    ensures Run(body + rest) == |body|
  {
    if body != "" {
      assert (body + rest)[1..] == body[1..] + rest;
      RunOf(body[1..], rest);
    }
  }

  /** A run ended by a stop is the first match of any text it begins. */
  lemma ClosedFirst(piece: string, rest: string)
    requires |piece| >= 2 && OneStop(piece) && Closed(piece)
    ensures Matches(piece + rest) == [piece] + Matches(rest)
  {
    var n := |piece| - 1;
    var s := piece + rest;
    RunOf(piece[..n], [piece[n]] + rest);
    assert s == piece[..n] + ([piece[n]] + rest);
    assert s[..n + 1] == piece && s[n + 1..] == rest;
  }

  /** The last piece may lack its stop. */
  lemma LastMatch(piece: string)
    requires |piece| >= 2 && OneStop(piece)
    ensures Matches(piece) == [piece]
  {
    if Closed(piece) {
      ClosedFirst(piece, "");
      assert piece + "" == piece;
    } else {
      RunOf(piece, "");
      assert piece + "" == piece;
    }
  }

  lemma SpacedOut(t: string)
    requires Proper(t)
    ensures Trim([' '] + t) == t && OneStop([' '] + t) && (Closed(t) ==> Closed([' '] + t))
  {
    var s := [' '] + t;
    assert s[1..] == t;
    assert TrimLeft(s) == TrimLeft(t) == t;
  }

  lemma {:induction false} SplitTail(s: seq<string>)
    requires ProperList(s)
    ensures Kept(Matches(Tail(s))) == s
  {
    if s != [] {
      var piece := [' '] + s[0];
      SpacedOut(s[0]);
      SplitTail(s[1..]);
      if |s| > 1 {
        assert Tail(s) == piece + Tail(s[1..]);
        ClosedFirst(piece, Tail(s[1..]));
      } else {
        assert s[1..] == [] && Tail(s) == piece;
        LastMatch(piece);
      }
      assert Matches(Tail(s))[1..] == Matches(Tail(s[1..]));
    }
  }

  lemma SplitJoin(s: seq<string>)
    requires ProperList(s) && s != []
    ensures Kept(Matches(Join(s))) == s && Matches(Join(s)) != []
  {
    hide IsSpace, Stop, Run, TrimLeft, TrimRight;
    TidyFixed(s[0]);
    SplitTail(s[1..]);
    if |s| > 1 {
      ClosedFirst(s[0], Tail(s[1..]));
    } else {
      assert s[1..] == [] && Join(s) == s[0];
      LastMatch(s[0]);
    }
    assert Matches(Join(s))[1..] == Matches(Tail(s[1..]));
  }

  lemma {:induction false} TailTidy(s: seq<string>)
    requires ProperList(s)
    ensures Spaced(Tail(s))
    ensures s != [] ==> Tail(s) != "" && Tail(s)[0] == ' ' && !IsSpace(Tail(s)[|Tail(s)| - 1])
  {
    hide IsSpace;
    if s != [] {
      TailTidy(s[1..]);
      var piece := [' '] + s[0];
      assert Tail(s) == piece + Tail(s[1..]);
    }
  }

  lemma JoinTidy(s: seq<string>)
    requires ProperList(s)
    ensures Tidy(Join(s))
  {
    if s != [] { TailTidy(s[1..]); }
  }

  /** An in-order selection, given by its strictly increasing indices. */
  function Select(s: seq<string>, indices: seq<nat>): seq<string>
    requires Increasing(indices, |s|)
  {
    seq(|indices|, k requires 0 <= k < |indices| => s[indices[k]])
  }

  lemma {:induction false} IncreasingLength(indices: seq<nat>, bound: nat)
    requires Increasing(indices, bound)
    ensures |indices| <= bound && forall k :: 0 <= k < |indices| ==> k <= indices[k]
  {
    if indices != [] {
      var n := |indices| - 1;
      IncreasingLength(indices[..n], indices[n]);
    }
  }

  lemma SelectProper(s: seq<string>, indices: seq<nat>)
    requires ProperList(s) && Increasing(indices, |s|)
    ensures ProperList(Select(s, indices))
  {
    forall k | 0 <= k < |indices| - 1 ensures Closed(s[indices[k]]) {
      assert indices[k] < indices[k + 1];
    }
  }

  /** Main result: re-splitting the space-joined text of any in-order selection of a text's
      sentences returns exactly the selected sentences. */
  lemma ResplitSelection(content: string, indices: seq<nat>)
    requires Increasing(indices, |Split(content)|)
    ensures Split(Join(Select(Split(content), indices))) == Select(Split(content), indices)
  {
    var s := Split(content);
    var sel := Select(s, indices);
    SplitShape(content);
    IncreasingLength(indices, |s|);
    if sel == [] {
      assert Normalize("") == "";
    } else if ProperList(s) {
      SelectProper(s, indices);
      JoinTidy(sel);
      TidyFixed(Join(sel));
      SplitJoin(sel);
    } else {
      assert sel == [s[0]] && Join(sel) == s[0] + Tail([]) == s[0];
      TidyFixed(s[0]);
      NoMatchInStops(s[0]);
      assert Kept([s[0]][1..]) == [];
    }
  }

  lemma {:induction false} NoMatchInStops(s: string)
    requires AllStops(s)
    ensures Matches(s) == []
  {
    if s != "" { NoMatchInStops(s[1..]); }
  }

  // ---------------------------------------------------------------- lengths

  function TotalLength(s: seq<string>): nat {
    if s == [] then 0 else |s[0]| + TotalLength(s[1..])
  }

  lemma {:induction false} TailLength(s: seq<string>)
    ensures |Tail(s)| == TotalLength(s) + |s|
  {
    if s != [] { TailLength(s[1..]); }
  }

  lemma {:induction false} MatchesLength(s: string)
    ensures TotalLength(Matches(s)) <= |s|
    decreases |s|
  {
    hide IsSpace, Stop;
    if s != "" {
      if Stop(s[0]) {
        MatchesLength(s[1..]);
      } else if Run(s) < |s| {
        MatchesLength(s[Run(s) + 1..]);
      } else {
        assert TotalLength([s][1..]) == 0;
      }
    }
  }

  lemma {:induction false} KeptLength(raw: seq<string>)
    ensures TotalLength(Kept(raw)) <= TotalLength(raw)
  {
    hide IsSpace;
    if raw != [] {
      KeptLength(raw[1..]);
      TrimLeftCuts(raw[0]);
      TrimRightCuts(TrimLeft(raw[0]));
    }
  }

  lemma {:induction false} PrefixLength(s: seq<string>, n: nat)
    requires n <= |s|
    ensures TotalLength(s[..n]) <= TotalLength(s)
  {
    if n > 0 {
      assert s[..n][1..] == s[1..][..n - 1];
      PrefixLength(s[1..], n - 1);
    }
  }

  /** A text's sentences are disjoint pieces of it. */
  lemma SplitLength(content: string)
    ensures TotalLength(Split(content)) <= |content|
  {
    var normalized := Normalize(content);
    NormalizeTidies(content);
    if normalized != "" {
      MatchesLength(normalized);
      assert TotalLength([normalized]) == |normalized| + TotalLength([normalized][1..]);
      KeptLength(Raw(normalized));
      var kept := Kept(Raw(normalized));
      if |kept| > MAX_SENTENCES { PrefixLength(kept, MAX_SENTENCES); }
    }
  }
}
