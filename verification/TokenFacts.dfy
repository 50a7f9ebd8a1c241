/** Which tokens a text has (context/optimizer.ts, tokenizeForSimilarity, tokenSet). */
module TokenFacts {
  import opened Sentences
  import opened Tokens

  predicate LetterOrDigit(c: char) { 'a' <= c <= 'z' || '0' <= c <= '9' }

  lemma SameChars(c: char)
    ensures WordChar(c) == LetterOrDigit(c)
  {
  }

  /** A run of letters a to z and digits that cannot be made longer. */
  ghost predicate WordAt(s: string, i: nat, j: nat) {
    i < j <= |s| && (forall k :: i <= k < j ==> LetterOrDigit(s[k]))
    && (i == 0 || !LetterOrDigit(s[i - 1])) && (j == |s| || !LetterOrDigit(s[j]))
  }

  lemma Shift(s: string, k: nat, i: nat, j: nat)
    requires k <= |s| && k <= i && k <= j && (i > k || k == 0 || !LetterOrDigit(s[k - 1]))
    ensures WordAt(s, i, j) <==> WordAt(s[k..], i - k, j - k)
    ensures WordAt(s, i, j) ==> s[i..j] == s[k..][i - k..j - k]
  {
    hide LetterOrDigit;
    var t := s[k..];
    assert forall m :: k <= m < |s| ==> s[m] == t[m - k];
    if WordAt(t, i - k, j - k) {
      forall m | i <= m < j ensures LetterOrDigit(s[m]) {
        assert LetterOrDigit(t[m - k]);
      }
    }
  }

  ghost predicate Occurs(s: string, w: string) { exists i: nat, j: nat :: WordAt(s, i, j) && w == s[i..j] }

  /** Dropping the first character, where no word starts, or the first word loses nothing else. */
  lemma OccursAfter(s: string, k: nat, w: string)
    requires k <= |s| && (forall m :: 0 < m < k ==> LetterOrDigit(s[m]))
    requires k < |s| ==> !LetterOrDigit(s[0]) || !LetterOrDigit(s[k])
    requires k > 0 && (k == 1 || LetterOrDigit(s[0]))
    requires !LetterOrDigit(s[0]) ==> k == 1
    ensures Occurs(s, w) <==> Occurs(s[k..], w) || (LetterOrDigit(s[0]) && w == s[..k])
  {
    hide LetterOrDigit;
    if i: nat, j: nat :| WordAt(s, i, j) && w == s[i..j] {
      assert i < k ==> i == 0 && j == k;
      if i >= k {
        Shift(s, k, i, j);
        assert WordAt(s[k..], i - k, j - k);
      }
    }
    if i: nat, j: nat :| WordAt(s[k..], i, j) && w == s[k..][i..j] {
      assert s[k..][0] == s[k];
      Shift(s, k, i + k, j + k);
      assert WordAt(s, i + k, j + k);
    }
    if LetterOrDigit(s[0]) { assert WordAt(s, 0, k); }
  }

  /** The words of a text are its maximal runs. */
  lemma {:induction false} WordsAre(s: string, w: string)
    ensures w in Words(s) <==> Occurs(s, w)
    decreases |s|
  {
    if s != "" {
      hide LetterOrDigit, WordChar, Occurs;
      var k := if LetterOrDigit(s[0]) then WordLength(s) else 1;
      forall m | 0 <= m < |s| ensures WordChar(s[m]) == LetterOrDigit(s[m]) {
        SameChars(s[m]);
      }
      OccursAfter(s, k, w);
      WordsAre(s[k..], w);
      if LetterOrDigit(s[0]) { WordFirst(s); } else { NoWordFirst(s); }
    }
  }

  lemma {:induction false} CountedIff(words: seq<string>, t: string)
    ensures t in Counted(words) <==>
              |t| > 1 && t !in STOPWORDS && exists k :: 0 <= k < |words| && NormalizeToken(words[k]) == t
  {
    if words != [] {
      CountedIff(words[1..], t);
      assert forall k :: 1 <= k < |words| ==> words[k] == words[1..][k - 1];
    }
  }

  /** A text's tokens are the normal forms, of two characters or more and no stop word, of the maximal
      runs of letters and digits in its lower-cased form. */
  lemma TokenIff(lower: char -> string, content: string, t: string)
    ensures t in TokenSet(lower, content) <==>
              |t| > 1 && t !in STOPWORDS
              && exists w :: Occurs(Lower(lower, content), w) && NormalizeToken(w) == t
  {
    hide Occurs, NormalizeToken, Words;
    var text := Lower(lower, content);
    CountedIff(Words(text), t);
    if k :| 0 <= k < |Words(text)| && NormalizeToken(Words(text)[k]) == t { WordsAre(text, Words(text)[k]); }
    if w :| Occurs(text, w) && NormalizeToken(w) == t {
      WordsAre(text, w);
      var k :| 0 <= k < |Words(text)| && Words(text)[k] == w;
    }
  }
}
