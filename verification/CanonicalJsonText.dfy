/** The canonical text written out (cache/index.ts, stableStringify and JSON.stringify). */
module CanonicalJsonText {
  import opened CanonicalJson

  /** The escapes written out; every other character stands for itself. */
  lemma EscapesAre(c: char)
    ensures Escape('"') == "\\\"" && Escape('\\') == "\\\\"
    ensures Escape('\n') == "\\n" && Escape('\r') == "\\r" && Escape('\t') == "\\t"
    ensures Escape(8 as char) == "\\b" && Escape(12 as char) == "\\f"
    ensures Escape(1 as char) == "\\u0001" && Escape(31 as char) == "\\u001f"
    ensures c as int >= 32 && c != '"' && c != '\\' ==> Escape(c) == [c]
  {
  }

  lemma {:induction false} EscapesInTurn(a: string, c: char)
    ensures EscapeAll(a + [c]) == EscapeAll(a) + Escape(c) && EscapeAll("") == ""
  {
    hide Escape;
    if a == "" {
      assert [c][1..] == "" && a + [c] == [c];
    } else {
      assert (a + [c])[1..] == a[1..] + [c];
      EscapesInTurn(a[1..], c);
    }
  }

  lemma PrintedTwo(a: Json, b: Json)
    ensures PrintItems([a, b]) == [StableStringify(a), StableStringify(b)]
  {
    hide StableStringify;
    assert [b][1..] == [] && [a, b][1..] == [b];
    assert PrintItems([b]) == [StableStringify(b)];
  }

  /** Items stand between brackets, in order, with commas between them. */
  lemma ArrayText(a: Json, b: Json)
    ensures StableStringify(Array([])) == "[]" && StableStringify(Object([])) == "{}"
    ensures StableStringify(Array([a, b])) == "[" + StableStringify(a) + "," + StableStringify(b) + "]"
  {
    var x, y := StableStringify(a), StableStringify(b);
    PrintedTwo(a, b);
    Joined(x, y);
    hide JoinCommas, PrintItems;
    assert "[" + (x + "," + y) + "]" == "[" + x + "," + y + "]";
    NothingPrinted();
  }

  lemma NothingPrinted()
    ensures PrintItems([]) == [] && Members(Sort(PrintFields([]))) == [] && JoinCommas([]) == ""
  {
  }

  lemma Joined(x: string, y: string)
    ensures JoinCommas([x, y]) == x + "," + y
  {
    assert [x, y][1..] == [y];
  }

  /** Members stand between braces, each its quoted key, a colon and its value, in code unit order of the
      keys whichever came first. */
  lemma ObjectText(a: Json, b: Json)
    ensures StableStringify(Object([Entry("b", b), Entry("a", a)]))
            == "{" + Quote("a") + ":" + StableStringify(a) + "," + Quote("b") + ":" + StableStringify(b) + "}"
  {
    var x, y := StableStringify(a), StableStringify(b);
    var fields := [Entry("b", b), Entry("a", a)];
    hide Quote;
    assert fields[1..] == [Entry("a", a)] && [Entry("a", a)][1..] == [];
    assert PrintFields(fields[1..]) == [Entry("a", x)];
    var texts := [Entry("b", y), Entry("a", x)];
    assert PrintFields(fields) == texts;
    assert texts[1..] == [Entry("a", x)] && [Entry("a", x)][1..] == [];
    assert Sort(texts[1..]) == [Entry("a", x)];
    assert Less("a", "b") && !Less("b", "a");
    var one := [Entry("a", x)];
    assert Insert(texts[0], []) == [texts[0]];
    assert Insert(texts[0], one) == [one[0]] + Insert(texts[0], one[1..]);
    assert Sort(texts) == [Entry("a", x), Entry("b", y)];
    assert [Entry("a", x), Entry("b", y)][1..] == [Entry("b", y)];
    assert Members([Entry("b", y)]) == [Member(Entry("b", y))];
    assert Members(Sort(texts)) == [Member(Entry("a", x)), Member(Entry("b", y))];
    Joined(Member(Entry("a", x)), Member(Entry("b", y)));
  }
}
