/** Tokens of a text (context/optimizer.ts, normalizeToken, tokenizeForSimilarity, tokenSet). */
module Tokens {
  import opened Sentences

  // ---------------------------------------------------------------- one word

  predicate EndsWith(word: string, suffix: string) {
    |word| >= |suffix| && word[|word| - |suffix|..] == suffix
  }

  /** normalizeToken: strip -ing, -ed or -s from a long enough word. */
  function NormalizeToken(token: string): string {
    if |token| > 5 && EndsWith(token, "ing") then token[..|token| - 3]
    else if |token| > 4 && EndsWith(token, "ed") then token[..|token| - 2]
    else if |token| > 3 && EndsWith(token, "s") then token[..|token| - 1]
    else token
  }

  /** A word is its own normal form exactly when no suffix is taken off it. */
  lemma UnchangedIff(token: string)
    ensures NormalizeToken(token) == token <==>
              !(|token| > 5 && EndsWith(token, "ing")) && !(|token| > 4 && EndsWith(token, "ed"))
              && !(|token| > 3 && EndsWith(token, "s"))
  {
    assert |NormalizeToken(token)| == |token| <==>
             !(|token| > 5 && EndsWith(token, "ing")) && !(|token| > 4 && EndsWith(token, "ed"))
             && !(|token| > 3 && EndsWith(token, "s"));
  }

  lemma EndsIn(token: string, last: char)
    requires token != "" && token[|token| - 1] == last
    ensures EndsWith(token, "ing") ==> last == 'g'
    ensures EndsWith(token, "ed") ==> last == 'd'
    ensures EndsWith(token, "s") ==> last == 's'
  {
    if EndsWith(token, "ing") { assert token[|token| - 3..][2] == last; }
    if EndsWith(token, "ed") { assert token[|token| - 2..][1] == last; }
    if EndsWith(token, "s") { assert token[|token| - 1..][0] == last; }
  }

  /** A term in -ed is the normal form of exactly three words: itself with another suffix added. */
  lemma TermsInEdNeedASecondSuffix(term: string, word: string)
    requires |term| > 4 && EndsWith(term, "ed")
    ensures NormalizeToken(word) == term <==> word == term + "ing" || word == term + "ed" || word == term + "s"
  {
    var n := |term|;
    if word == term + "ing" { assert word[n..] == "ing" && word[..n] == term; }
    if word == term + "ed" {
      assert word[n..] == "ed" && word[..n] == term;
      assert word[|word| - 3..][0] == 'd';
    }
    if word == term + "s" {
      assert word[n..] == "s" && word[..n] == term;
      assert word[|word| - 1] == 's';
      assert word[|word| - 3..][2] == 's' && word[|word| - 2..][1] == 's';
    }
    if NormalizeToken(word) == term {
      if |word| > 5 && EndsWith(word, "ing") { assert word == term + word[|word| - 3..]; }
      else if |word| > 4 && EndsWith(word, "ed") { assert word == term + word[|word| - 2..]; }
      else if |word| > 3 && EndsWith(word, "s") { assert word == term + word[|word| - 1..]; }
    }
  }

  // ---------------------------------------------------------------- a text

  predicate WordChar(c: char) { 'a' <= c <= 'z' || '0' <= c <= '9' }

  /** toLowerCase, character by character; `lower` says what one character becomes. */
  function Lower(lower: char -> string, s: string): string {
    if s == "" then "" else lower(s[0]) + Lower(lower, s[1..])
  }

  /** Length of the leading run of word characters. */
  function WordLength(s: string): (n: nat)
    ensures n <= |s| && (forall i :: 0 <= i < n ==> WordChar(s[i])) && (n < |s| ==> !WordChar(s[n]))
  {
    if s == "" || !WordChar(s[0]) then 0 else 1 + WordLength(s[1..])
  }

  /** match(/[a-z0-9]+/g) */
  function Words(s: string): seq<string>
    decreases |s|
  {
    if s == "" then []
    else if !WordChar(s[0]) then Words(s[1..])
    else [s[..WordLength(s)]] + Words(s[WordLength(s)..])
  }

  const STOPWORDS := {
    "a", "an", "and", "are", "as", "at", "be", "by", "can", "for", "from", "in", "is", "it", "of", "on", "or", "that",
    "the", "this", "to", "with", "within", "you", "your"}

  /** The words that count, normalised. */
  function Counted(words: seq<string>): set<string> {
    if words == [] then {}
    else
      var token := NormalizeToken(words[0]);
      (if |token| > 1 && token !in STOPWORDS then {token} else {}) + Counted(words[1..])
  }

  function TokenSet(lower: char -> string, content: string): set<string> { Counted(Words(Lower(lower, content))) }

  // ---------------------------------------------------------------- tokens of joined texts

  lemma {:induction false} LowerConcat(lower: char -> string, a: string, b: string)
    ensures Lower(lower, a + b) == Lower(lower, a) + Lower(lower, b)
  {
    if a == "" {
      assert a + b == b;
    } else {
      assert (a + b)[1..] == a[1..] + b;
      LowerConcat(lower, a[1..], b);
    }
  }

  lemma {:induction false} WordLengthConcat(a: string, b: string)
    requires b != "" && !WordChar(b[0])
    ensures WordLength(a + b) == WordLength(a)
  {
    if a != "" && WordChar(a[0]) {
      assert (a + b)[1..] == a[1..] + b;
      WordLengthConcat(a[1..], b);
    }
  }

  lemma WordFirst(s: string)
    requires s != "" && WordChar(s[0])
    ensures var n := WordLength(s); n > 0 && Words(s) == [s[..n]] + Words(s[n..])
  {
  }

  lemma NoWordFirst(s: string)
    requires s != "" && !WordChar(s[0])
    ensures Words(s) == Words(s[1..])
  {
  }

  lemma WordThen(a: string, b: string)
    requires a != "" && WordChar(a[0]) && b != "" && !WordChar(b[0])
    ensures Words(a + b) == [a[..WordLength(a)]] + Words(a[WordLength(a)..] + b)
  {
    hide Words, WordChar, WordLength;
    var n := WordLength(a);
    WordLengthConcat(a, b);
    assert (a + b)[0] == a[0];
    WordFirst(a + b);
    assert (a + b)[..n] == a[..n] && (a + b)[n..] == a[n..] + b;
  }

  lemma NoWordThen(a: string, b: string)
    requires a != "" && !WordChar(a[0])
    ensures Words(a + b) == Words(a[1..] + b)
  {
    hide Words, WordChar;
    assert (a + b)[0] == a[0] && (a + b)[1..] == a[1..] + b;
    NoWordFirst(a + b);
  }

  /** No word spans a character that is not a word character. */
  lemma {:induction false} WordsConcat(a: string, b: string)
    requires b != "" && !WordChar(b[0])
    ensures Words(a + b) == Words(a) + Words(b)
    decreases |a|
  {
    if a == "" {
      assert a + b == b;
    } else {
      hide Words, WordChar, WordLength;
      if WordChar(a[0]) {
        WordFirst(a);
        WordThen(a, b);
        WordsConcat(a[WordLength(a)..], b);
      } else {
        NoWordFirst(a);
        NoWordThen(a, b);
        WordsConcat(a[1..], b);
      }
    }
  }

  lemma {:induction false} CountedConcat(a: seq<string>, b: seq<string>)
    ensures Counted(a + b) == Counted(a) + Counted(b)
  {
    hide NormalizeToken;
    if a == [] {
      assert a + b == b;
    } else {
      assert (a + b)[1..] == a[1..] + b;
      CountedConcat(a[1..], b);
    }
  }

  /** A space between two texts keeps their tokens apart. */
  lemma TokensAcrossSpace(lower: char -> string, a: string, b: string)
    requires lower(' ') == " "
    ensures TokenSet(lower, a + ([' '] + b)) == TokenSet(lower, a) + TokenSet(lower, b)
  {
    var la, lb := Lower(lower, a), Lower(lower, b);
    LowerConcat(lower, a, [' '] + b);
    LowerConcat(lower, [' '], b);
    LowerSpace(lower);
    WordsConcat(la, [' '] + lb);
    assert ([' '] + lb)[1..] == lb;
    assert Words([' '] + lb) == Words(lb);
    CountedConcat(Words(la), Words(lb));
  }

  lemma LowerSpace(lower: char -> string)
    requires lower(' ') == " "
    ensures Lower(lower, [' ']) == [' ']
  {
    assert [' '][1..] == "";
  }

  function TokensOfAll(lower: char -> string, sentences: seq<string>): set<string> {
    if sentences == [] then {} else TokenSet(lower, sentences[0]) + TokensOfAll(lower, sentences[1..])
  }

  lemma {:induction false} TokensOfTail(lower: char -> string, a: string, s: seq<string>)
    requires lower(' ') == " "
    ensures TokenSet(lower, a + Tail(s)) == TokenSet(lower, a) + TokensOfAll(lower, s)
    decreases |s|
  {
    hide TokenSet;
    if s == [] {
      assert a + Tail(s) == a;
    } else {
      assert a + Tail(s) == a + ([' '] + (s[0] + Tail(s[1..])));
      TokensAcrossSpace(lower, a, s[0] + Tail(s[1..]));
      TokensOfTail(lower, s[0], s[1..]);
    }
  }

  /** The tokens of joined sentences are those of the sentences. */
  lemma TokensOfJoin(lower: char -> string, s: seq<string>)
    requires lower(' ') == " "
    ensures TokenSet(lower, Join(s)) == TokensOfAll(lower, s)
  {
    if s != [] { TokensOfTail(lower, s[0], s[1..]); }
  }
}
