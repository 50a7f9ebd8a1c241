/** What splitting a text into sentences loses, and what it keeps (context/optimizer.ts, splitSentences). */
module SentenceFacts {
  import opened Sentences

  // ---------------------------------------------------------------- characters

  /** WhiteSpace and LineTerminator of ECMA-262 (sections 12.2 and 12.3). */
  const Blanks :=
    "\t\n\U{0B}\U{0C}\r \U{A0}\U{1680}\U{2000}\U{2001}\U{2002}\U{2003}\U{2004}\U{2005}\U{2006}\U{2007}\U{2008}\U{2009}"
    + "\U{200A}\U{2028}\U{2029}\U{202F}\U{205F}\U{3000}\U{FEFF}"

  lemma SpaceIff(c: char)
    ensures IsSpace(c) <==> c in Blanks
  {
    if IsSpace(c) {
      var n := c as int;
      var k := if n <= 13 then n - 9 else if n == 32 then 5 else if n == 0xA0 then 6 else if n == 0x1680 then 7
               else if n <= 0x200A then n - 0x2000 + 8 else if n <= 0x2029 then n - 0x2028 + 19
               else if n == 0x202F then 21 else if n == 0x205F then 22 else if n == 0x3000 then 23 else 24;
      assert Blanks[k] == c;
    }
  }

  predicate Letter(c: char) { c !in Blanks && c != '.' && c != '!' && c != '?' }

  /** The characters of a text that are neither space nor stop, in order. */
  function Letters(s: string): string { if s == "" then "" else LetterOf(s[0]) + Letters(s[1..]) }

  function LetterOf(c: char): string { if Letter(c) then [c] else "" }

  lemma {:induction false} LettersOfJoin(a: string, b: string)
    ensures Letters(a + b) == Letters(a) + Letters(b)
  {
    hide LetterOf;
    if a == "" {
      assert a + b == b;
      assert "" + Letters(b) == Letters(b);
    } else {
      assert (a + b)[1..] == a[1..] + b && (a + b)[0] == a[0];
      LettersOfJoin(a[1..], b);
      assert LetterOf(a[0]) + (Letters(a[1..]) + Letters(b)) == LetterOf(a[0]) + Letters(a[1..]) + Letters(b);
    }
  }

  lemma {:induction false} NoLetters(s: string)
    requires forall i :: 0 <= i < |s| ==> !Letter(s[i])
    ensures Letters(s) == ""
  {
    hide Letter;
    if s != "" { NoLetters(s[1..]); }
  }

  lemma NotLetter(c: char)
    requires IsSpace(c) || Stop(c)
    ensures !Letter(c)
  {
    SpaceIff(c);
  }

  lemma TrimLeftKeepsLetters(s: string)
    ensures Letters(TrimLeft(s)) == Letters(s)
  {
    hide IsSpace, Letter, TrimLeft, Letters;
    var left := TrimLeft(s);
    TrimLeftCuts(s);
    CutKeepsLetters(s[..|s| - |left|], left);
    assert s == s[..|s| - |left|] + left;
  }

  lemma TrimRightKeepsLetters(s: string)
    ensures Letters(TrimRight(s)) == Letters(s)
  {
    hide IsSpace, Letter, TrimRight, Letters;
    var right := TrimRight(s);
    TrimRightCuts(s);
    assert s == right + s[|right|..];
    LettersOfJoin(right, s[|right|..]);
    SpacesHaveNone(s[|right|..]);
    assert Letters(right) + "" == Letters(right);
  }

  /** Trimming takes spaces off both ends only. */
  lemma TrimKeepsLetters(s: string)
    ensures Letters(TrimLeft(s)) == Letters(s) && Letters(Trim(s)) == Letters(s)
  {
    hide TrimLeft, TrimRight, Letters;
    TrimLeftKeepsLetters(s);
    TrimRightKeepsLetters(TrimLeft(s));
  }

  lemma SpacesHaveNone(s: string)
    requires forall i :: 0 <= i < |s| ==> IsSpace(s[i])
    ensures Letters(s) == ""
  {
    hide IsSpace, Letter;
    forall i | 0 <= i < |s| ensures !Letter(s[i]) {
      NotLetter(s[i]);
    }
    NoLetters(s);
  }

  lemma CutKeepsLetters(spaces: string, rest: string)
    requires forall i :: 0 <= i < |spaces| ==> IsSpace(spaces[i])
    ensures Letters(spaces + rest) == Letters(rest)
  {
    SpacesHaveNone(spaces);
    LettersOfJoin(spaces, rest);
    assert "" + Letters(rest) == Letters(rest);
  }

  lemma {:induction false} CollapseKeepsLetters(s: string)
    ensures Letters(Collapse(s)) == Letters(s)
    decreases |s|
  {
    hide IsSpace, Letter;
    if s != "" {
      if IsSpace(s[0]) {
        TrimLeftShorter(s);
        CollapseKeepsLetters(TrimLeft(s));
        TrimKeepsLetters(s);
        SpaceIsBlank();
        CutKeepsLetters([' '], Collapse(TrimLeft(s)));
      } else {
        CollapseKeepsLetters(s[1..]);
        assert Collapse(s)[1..] == Collapse(s[1..]);
      }
    }
  }

  lemma SpaceIsBlank()
    ensures IsSpace(' ')
  {
  }

  lemma NormalizeKeepsLetters(s: string)
    ensures Letters(Normalize(s)) == Letters(s)
  {
    CollapseKeepsLetters(s);
    TrimKeepsLetters(Collapse(s));
  }

  // ---------------------------------------------------------------- pieces

  function Flat(pieces: seq<string>): string { if pieces == [] then "" else pieces[0] + Flat(pieces[1..]) }

  /** Matching passes over stops that follow stops, and nothing else. */
  lemma {:induction false} MatchesKeepLetters(s: string)
    ensures Letters(Flat(Matches(s))) == Letters(s)
    decreases |s|
  {
    hide IsSpace, Letter, Stop;
    if s != "" {
      if Stop(s[0]) {
        MatchesKeepLetters(s[1..]);
        NotLetter(s[0]);
        assert "" + Letters(s[1..]) == Letters(s[1..]);
      } else {
        var n := Run(s);
        if n < |s| {
          MatchesKeepLetters(s[n + 1..]);
          var pieces := Matches(s);
          assert pieces[0] == s[..n + 1] && pieces[1..] == Matches(s[n + 1..]);
          LettersOfJoin(s[..n + 1], Flat(Matches(s[n + 1..])));
          LettersOfJoin(s[..n + 1], s[n + 1..]);
          assert s == s[..n + 1] + s[n + 1..];
        } else {
          assert [s][1..] == [] && s + "" == s;
        }
      }
    }
  }

  /** A piece: no stop before its last character, and not a stop alone. */
  ghost predicate Piece(s: string) {
    s != "" && s[0] !in ".!?" && forall i :: 0 <= i < |s| - 1 ==> s[i] !in ".!?"
  }

  predicate EndsInStop(s: string) { s != "" && s[|s| - 1] in ".!?" }

  lemma {:induction false} MatchesArePieces(s: string)
    ensures forall i :: 0 <= i < |Matches(s)| ==> Piece(Matches(s)[i]) && (i < |Matches(s)| - 1 ==> EndsInStop(Matches(s)[i]))
    decreases |s|
  {
    if s != "" {
      if Stop(s[0]) {
        MatchesArePieces(s[1..]);
      } else {
        var n := Run(s);
        if n < |s| {
          MatchesArePieces(s[n + 1..]);
          assert Piece(s[..n + 1]) && EndsInStop(s[..n + 1]);
        } else {
          assert Piece(s);
        }
      }
    }
  }

  // ---------------------------------------------------------------- sentences

  /** The sentences are those pieces, trimmed, that have twelve characters or more. */
  lemma {:induction false} KeptIff(raw: seq<string>, x: string)
    ensures x in Kept(raw) <==> |x| >= 12 && exists i :: 0 <= i < |raw| && Trim(raw[i]) == x
  {
    if raw != [] {
      KeptIff(raw[1..], x);
      assert forall i :: 1 <= i < |raw| ==> raw[i] == raw[1..][i - 1];
      if |x| >= 12 && exists i :: 0 <= i < |raw[1..]| && Trim(raw[1..][i]) == x {
        var i :| 0 <= i < |raw[1..]| && Trim(raw[1..][i]) == x;
        assert Trim(raw[i + 1]) == x;
      }
    }
  }

  /** Splitting in full. A text with more than stops and spaces in it falls into pieces that hold all
      its letters in order, each running to its stop; the sentences are the pieces that keep twelve
      characters or more once trimmed, the first sixty-four of them. */
  lemma SplitInPlainTerms(content: string)
    requires Letters(content) != ""
    ensures var pieces, sentences := Matches(Normalize(content)), Split(content);
            Letters(Flat(pieces)) == Letters(content)
            && (forall i :: 0 <= i < |pieces| ==> Piece(pieces[i]) && (i < |pieces| - 1 ==> EndsInStop(pieces[i])))
            && (forall x :: x in Kept(pieces) <==> |x| >= 12 && exists i :: 0 <= i < |pieces| && Trim(pieces[i]) == x)
            && sentences <= Kept(pieces) && |sentences| <= 64 && (|sentences| < 64 ==> sentences == Kept(pieces))
  {
    hide Normalize, Matches, Kept, Trim, Letters, Piece;
    var normalized := Normalize(content);
    NormalizeKeepsLetters(content);
    MatchesKeepLetters(normalized);
    MatchesArePieces(normalized);
    assert Flat([]) == "" && Letters("") == "" by { NoLetters(""); }
    SplitIs(content);
    forall x ensures x in Kept(Matches(normalized)) <==>
                     |x| >= 12 && exists i :: 0 <= i < |Matches(normalized)| && Trim(Matches(normalized)[i]) == x
    {
      KeptIff(Matches(normalized), x);
    }
  }

  lemma SplitIs(content: string)
    requires Normalize(content) != "" && Matches(Normalize(content)) != []
    ensures var kept := Kept(Matches(Normalize(content)));
            Split(content) == if |kept| > 64 then kept[..64] else kept
  {
    hide Normalize, Matches, Kept;
  }
}
