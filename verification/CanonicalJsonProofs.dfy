/** Faithfulness of canonical printing (cache/index.ts, stableStringify): sorting gives a normal
    form, and the printed normal form can be read back in only one way. */
module CanonicalJsonProofs {
  import opened Sequences
  import opened CanonicalJson

  // ---------------------------------------------------------------- key order

  lemma {:induction false} LessIrreflexive(a: string)
    ensures !Less(a, a)
  {
    if a != "" { LessIrreflexive(a[1..]); }
  }

  lemma {:induction false} LessTransitive(a: string, b: string, c: string)
    requires Less(a, b) && Less(b, c)
    ensures Less(a, c)
  {
    if a != "" && a[0] == b[0] && b[0] == c[0] { LessTransitive(a[1..], b[1..], c[1..]); }
  }

  lemma {:induction false} LessTotal(a: string, b: string)
    requires a != b
    ensures Less(a, b) || Less(b, a)
  {
    if a != "" && b != "" && a[0] == b[0] {
      assert a == [a[0]] + a[1..] && b == [b[0]] + b[1..];
      LessTotal(a[1..], b[1..]);
    }
  }

  ghost predicate StrictlySorted(s: seq<Entry<Json>>) {
    forall i, j :: 0 <= i < j < |s| ==> Less(s[i].key, s[j].key)
  }

  lemma {:induction false} InsertSorts(e: Entry<Json>, s: seq<Entry<Json>>)
    requires StrictlySorted(s) && forall i :: 0 <= i < |s| ==> s[i].key != e.key
    ensures StrictlySorted(Insert(e, s)) && multiset(Insert(e, s)) == multiset(s) + multiset{e}
  {
    if s != [] && Less(s[0].key, e.key) {
      assert s == [s[0]] + s[1..];
      InsertSorts(e, s[1..]);
      var rest := Insert(e, s[1..]);
      forall i | 0 <= i < |rest| ensures Less(s[0].key, rest[i].key) {
        assert rest[i] in multiset(rest);
        if rest[i] != e {
          assert rest[i] in s[1..];
        }
      }
    } else if s != [] {
      LessTotal(s[0].key, e.key);
      forall i | 0 <= i < |s| ensures Less(e.key, s[i].key) {
        hide Less;
        if i > 0 { LessTransitive(e.key, s[0].key, s[i].key); }
      }
    }
  }

  ghost predicate DistinctKeys(s: seq<Entry<Json>>) {
    forall i, j :: 0 <= i < j < |s| ==> s[i].key != s[j].key
  }

  lemma {:induction false} SortSorts(s: seq<Entry<Json>>)
    requires DistinctKeys(s)
    ensures StrictlySorted(Sort(s)) && multiset(Sort(s)) == multiset(s)
  {
    hide Less, Insert;
    if s != [] {
      var rest := Sort(s[1..]);
      SortSorts(s[1..]);
      assert s == [s[0]] + s[1..];
      forall i | 0 <= i < |rest| ensures rest[i].key != s[0].key {
        assert rest[i] in multiset(rest);
        assert rest[i] in s[1..];
      }
      InsertSorts(s[0], rest);
    }
  }

  /** Of two strictly sorted lists one inside the other, equal lengths mean equal lists. */
  lemma {:induction false} SortedInside(a: seq<Entry<Json>>, b: seq<Entry<Json>>)
    requires StrictlySorted(a) && StrictlySorted(b)
    requires forall x :: x in a ==> x in b
    ensures |a| <= |b| && (|a| == |b| ==> a == b)
  {
    if a != [] {
      assert a[0] in b;
      assert b == [b[0]] + b[1..];
      forall i | 1 <= i < |a| ensures a[i] in b[1..] {
        assert a[i] in a && a[i] in b && Less(a[0].key, a[i].key);
        if a[i] == b[0] {
          if a[0] != b[0] { LessTransitive(a[0].key, b[0].key, a[0].key); }
          LessIrreflexive(a[0].key);
        }
      }
      if a[0] == b[0] {
        SortedInside(a[1..], b[1..]);
        assert a == [a[0]] + a[1..];
      } else {
        SortedInside(a, b[1..]);
      }
    }
  }

  // ---------------------------------------------------------------- the normal form

  /** Keys sorted at every depth. */
  function Canon(v: Json): Json
    decreases v, 1
  {
    match v
    case Array(items) => Array(CanonItems(items))
    case Object(fields) => Object(Sort(CanonFields(fields)))
    case _ => v
  }

  function CanonItems(items: seq<Json>): (r: seq<Json>)
    ensures |r| == |items|
    decreases items, 0
  {
    if items == [] then [] else [Canon(items[0])] + CanonItems(items[1..])
  }

  function CanonFields(fields: seq<Entry<Json>>): (r: seq<Entry<Json>>)
    ensures |r| == |fields|
    decreases fields, 0
  {
    if fields == [] then [] else [Entry(fields[0].key, Canon(fields[0].val))] + CanonFields(fields[1..])
  }

  lemma {:induction false} CanonItemAt(items: seq<Json>, i: nat)
    requires i < |items|
    ensures CanonItems(items)[i] == Canon(items[i])
  {
    if i > 0 { CanonItemAt(items[1..], i - 1); }
  }

  lemma {:induction false} CanonFieldAt(fields: seq<Entry<Json>>, i: nat)
    requires i < |fields|
    ensures CanonFields(fields)[i] == Entry(fields[i].key, Canon(fields[i].val))
  {
    if i > 0 { CanonFieldAt(fields[1..], i - 1); }
  }

  lemma CanonFieldsDistinct(fields: seq<Entry<Json>>)
    requires Distinct(Keys(fields))
    ensures DistinctKeys(CanonFields(fields))
  {
    forall i, j | 0 <= i < j < |fields| ensures CanonFields(fields)[i].key != CanonFields(fields)[j].key {
      CanonFieldAt(fields, i);
      CanonFieldAt(fields, j);
      assert Keys(fields)[i] != Keys(fields)[j];
    }
  }

  /** The canonical fields of an object, in sorted order: strictly sorted, nothing added or lost. */
  lemma ObjectNormalForm(fields: seq<Entry<Json>>)
    requires Distinct(Keys(fields))
    ensures StrictlySorted(Sort(CanonFields(fields))) && |Sort(CanonFields(fields))| == |fields|
    ensures multiset(Sort(CanonFields(fields))) == multiset(CanonFields(fields))
  {
    CanonFieldsDistinct(fields);
    SortSorts(CanonFields(fields));
    assert |multiset(Sort(CanonFields(fields)))| == |fields|;
  }

  lemma {:induction false} CanonWellFormed(v: Json)
    requires WellFormed(v)
    ensures WellFormed(Canon(v))
  {
    hide Less, Sort, CanonItems, CanonFields, Numeral;
    match v {
      case Array(items) =>
        forall i | 0 <= i < |items| ensures WellFormed(CanonItems(items)[i]) {
          CanonItemAt(items, i);
          CanonWellFormed(items[i]);
        }
      case Object(fields) =>
        var sorted := Sort(CanonFields(fields));
        ObjectNormalForm(fields);
        forall i | 0 <= i < |sorted| ensures WellFormed(sorted[i].val) {
          assert sorted[i] in multiset(sorted);
          var j :| 0 <= j < |fields| && CanonFields(fields)[j] == sorted[i];
          CanonFieldAt(fields, j);
          CanonWellFormed(fields[j].val);
        }
        forall i, j | 0 <= i < j < |sorted| ensures Keys(sorted)[i] != Keys(sorted)[j] {
          LessIrreflexive(sorted[i].key);
        }
      case _ =>
    }
  }

  /** The normal form decides equality up to key order. */
  lemma {:induction false} CanonDecides(v: Json, w: Json)
    requires WellFormed(v) && WellFormed(w)
    ensures Canon(v) == Canon(w) <==> Equivalent(v, w)
    decreases v
  {
    match (v, w) {
      case (Array(xs), Array(ys)) => ArraysDecide(v, w, xs, ys);
      case (Object(fs), Object(gs)) => ObjectsDecide(v, w, fs, gs);
      case _ =>
    }
  }

  lemma {:induction false} ArraysDecide(v: Json, w: Json, xs: seq<Json>, ys: seq<Json>)
    requires v == Array(xs) && w == Array(ys) && WellFormed(v) && WellFormed(w)
    ensures Canon(v) == Canon(w) <==> Equivalent(v, w)
    decreases v, 0
  {
    if |xs| == |ys| {
      forall i | 0 <= i < |xs|
        ensures CanonItems(xs)[i] == CanonItems(ys)[i] <==> Equivalent(xs[i], ys[i])
      {
        CanonItemAt(xs, i);
        CanonItemAt(ys, i);
        CanonDecides(xs[i], ys[i]);
      }
      assert CanonItems(xs) == CanonItems(ys)
        <==> forall i :: 0 <= i < |xs| ==> CanonItems(xs)[i] == CanonItems(ys)[i];
    } else {
      assert |CanonItems(xs)| != |CanonItems(ys)|;
    }
  }

  lemma {:induction false} ObjectsDecide(v: Json, w: Json, fs: seq<Entry<Json>>, gs: seq<Entry<Json>>)
    requires v == Object(fs) && w == Object(gs) && WellFormed(v) && WellFormed(w)
    ensures Canon(v) == Canon(w) <==> Equivalent(v, w)
    decreases v, 0
  {
    hide Sort, StrictlySorted, CanonFields;
    var cf, cg := CanonFields(fs), CanonFields(gs);
    ObjectNormalForm(fs);
    ObjectNormalForm(gs);
    forall i, j | 0 <= i < |fs| && 0 <= j < |gs| ensures cf[i] == cg[j] <==> SameField(fs[i], gs[j]) {
      CanonFieldAt(fs, i);
      CanonFieldAt(gs, j);
      CanonDecides(fs[i].val, gs[j].val);
    }
    if |fs| == |gs| && forall i :: 0 <= i < |fs| ==> exists j :: 0 <= j < |gs| && SameField(fs[i], gs[j]) {
      forall x | x in Sort(cf) ensures x in Sort(cg) {
        assert x in multiset(cf);
        var i :| 0 <= i < |fs| && cf[i] == x;
        var j :| 0 <= j < |gs| && SameField(fs[i], gs[j]);
        assert cg[j] in multiset(cg);
      }
      SortedInside(Sort(cf), Sort(cg));
    }
    if Sort(cf) == Sort(cg) {
      forall i | 0 <= i < |fs| ensures exists j :: 0 <= j < |gs| && SameField(fs[i], gs[j]) {
        assert cf[i] in multiset(cf);
        assert cf[i] in multiset(cg);
        var j :| 0 <= j < |gs| && cg[j] == cf[i];
      }
    }
  }

  // ---------------------------------------------------------------- printing in written order

  /** The text of a value with its fields in the order they are in. */
  function Plain(v: Json): string
    decreases v, 1
  {
    match v
    case Array(items) => ['['] + (if items == [] then [']'] else Plain(items[0]) + ItemsTail(items[1..]))
    case Object(fields) =>
      ['{'] + (if fields == [] then ['}'] else Pair(fields[0].key, Plain(fields[0].val)) + FieldsTail(fields[1..]))
    case _ => Primitive(v)
  }

  function Pair(key: string, text: string): string { Quote(key) + [':'] + text }

  function ItemsTail(items: seq<Json>): string
    decreases items, 0
  {
    if items == [] then [']'] else [','] + Plain(items[0]) + ItemsTail(items[1..])
  }

  function FieldsTail(fields: seq<Entry<Json>>): string
    decreases fields, 0
  {
    if fields == [] then ['}'] else [','] + Pair(fields[0].key, Plain(fields[0].val)) + FieldsTail(fields[1..])
  }

  function PlainFields(fields: seq<Entry<Json>>): (r: seq<Entry<string>>)
    ensures |r| == |fields|
  {
    if fields == [] then [] else [Entry(fields[0].key, Plain(fields[0].val))] + PlainFields(fields[1..])
  }

  lemma Regroup(a: string, b: string, c: string, d: string)
    ensures a + b + c + d == a + (b + (c + d))
  {
  }

  lemma {:induction false} JoinedItems(items: seq<Json>, texts: seq<string>)
    requires items != [] && |texts| == |items|
    requires forall i :: 0 <= i < |items| ==> texts[i] == Plain(items[i])
    ensures JoinCommas(texts) + [']'] == Plain(items[0]) + ItemsTail(items[1..])
  {
    hide Plain;
    if |items| > 1 {
      var rest := items[1..];
      JoinedItems(rest, texts[1..]);
      Regroup(texts[0], [','], JoinCommas(texts[1..]), [']']);
      assert ItemsTail(rest) == [','] + (Plain(rest[0]) + ItemsTail(rest[1..]));
    }
  }

  lemma {:induction false} JoinedFields(fields: seq<Entry<Json>>)
    requires fields != []
    ensures JoinCommas(Members(PlainFields(fields))) + ['}']
         == Pair(fields[0].key, Plain(fields[0].val)) + FieldsTail(fields[1..])
  {
    hide Plain, Quote;
    var parts, rest := Members(PlainFields(fields)), fields[1..];
    var restParts := Members(PlainFields(rest));
    assert PlainFields(fields)[1..] == PlainFields(rest);
    assert parts == [Pair(fields[0].key, Plain(fields[0].val))] + restParts;
    assert parts[1..] == restParts;
    if rest != [] {
      JoinedFields(rest);
      assert |parts| > 1;
      Regroup(parts[0], [','], JoinCommas(restParts), ['}']);
      assert FieldsTail(rest) == [','] + (Pair(rest[0].key, Plain(rest[0].val)) + FieldsTail(rest[1..]));
    } else {
      assert restParts == [];
    }
  }

  lemma {:induction false} InsertPlain(e: Entry<Json>, s: seq<Entry<Json>>)
    ensures Insert(Entry(e.key, Plain(e.val)), PlainFields(s)) == PlainFields(Insert(e, s))
  {
    if s != [] && Less(s[0].key, e.key) {
      InsertPlain(e, s[1..]);
      assert PlainFields(s)[1..] == PlainFields(s[1..]);
      assert ([s[0]] + Insert(e, s[1..]))[1..] == Insert(e, s[1..]);
    } else {
      assert ([e] + s)[1..] == s;
    }
  }

  lemma {:induction false} SortPlain(s: seq<Entry<Json>>)
    ensures Sort(PlainFields(s)) == PlainFields(Sort(s))
  {
    if s != [] {
      SortPlain(s[1..]);
      assert PlainFields(s)[1..] == PlainFields(s[1..]);
      InsertPlain(s[0], Sort(s[1..]));
    }
  }

  /** The code's printer is: sort at every depth, then print in order. */
  lemma {:induction false} StringifyIsPlainCanon(v: Json)
    ensures StableStringify(v) == Plain(Canon(v))
    decreases v, 1
  {
    match v {
      case Array(items) =>
        ItemsPrinted(items);
        var cs := CanonItems(items);
        if items != [] {
          JoinedItems(cs, PrintItems(items));
          assert ['['] + JoinCommas(PrintItems(items)) + [']'] == ['['] + (JoinCommas(PrintItems(items)) + [']']);
        }
      case Object(fields) =>
        FieldsPrinted(fields);
        SortPlain(CanonFields(fields));
        var sorted := Sort(CanonFields(fields));
        var text := JoinCommas(Members(PlainFields(sorted)));
        assert StableStringify(v) == ['{'] + text + ['}'] == ['{'] + (text + ['}']);
        if sorted != [] { JoinedFields(sorted); }
      case _ =>
    }
  }

  lemma {:induction false} ItemsPrinted(items: seq<Json>)
    ensures forall i :: 0 <= i < |items| ==> PrintItems(items)[i] == Plain(CanonItems(items)[i])
    decreases items, 0
  {
    if items != [] {
      StringifyIsPlainCanon(items[0]);
      ItemsPrinted(items[1..]);
    }
  }

  lemma {:induction false} FieldsPrinted(fields: seq<Entry<Json>>)
    ensures PrintFields(fields) == PlainFields(CanonFields(fields))
    decreases fields, 0
  {
    if fields != [] {
      StringifyIsPlainCanon(fields[0].val);
      FieldsPrinted(fields[1..]);
      assert CanonFields(fields)[1..] == CanonFields(fields[1..]);
    }
  }

  // ---------------------------------------------------------------- reading it back

  /** What can follow a value inside a text. */
  predicate Ends(rest: string) {
    rest == "" || rest[0] == ',' || rest[0] == ']' || rest[0] == '}'
  }

  lemma {:induction false} ReadNumeral(a: string, b: string, r: string, s: string)
    requires (forall i :: 0 <= i < |a| ==> NumeralChar(a[i])) && (forall i :: 0 <= i < |b| ==> NumeralChar(b[i]))
    requires Ends(r) && Ends(s) && a + r == b + s
    ensures a == b && r == s
  {
    assert a != "" ==> (a + r)[0] == a[0];
    assert b != "" ==> (b + s)[0] == b[0];
    assert (a == "" ==> a + r == r) && (b == "" ==> b + s == s);
    if a != "" && b != "" {
      assert (a + r)[1..] == a[1..] + r && (b + s)[1..] == b[1..] + s;
      ReadNumeral(a[1..], b[1..], r, s);
      assert a == [a[0]] + a[1..] && b == [b[0]] + b[1..];
    }
  }

  lemma HexInjective(m: nat, n: nat)
    requires m < 16 && n < 16 && Hex(m) == Hex(n)
    ensures m == n
  {
  }

  /** Escapes are prefix-free and never look like a closing quote. */
  lemma EscapeShape(c: char)
    ensures Escape(c) != [] && Escape(c)[0] != '"'
    ensures |Escape(c)| > 1 <==> Escape(c)[0] == '\\'
    ensures |Escape(c)| > 1 ==> |Escape(c)| == if Escape(c)[1] == 'u' then 6 else 2
  {
  }

  lemma EscapeInjective(c: char, d: char)
    requires Escape(c) == Escape(d)
    ensures c == d
  {
    if |Escape(c)| == 6 {
      HexInjective(c as int / 16, d as int / 16);
      HexInjective(c as int % 16, d as int % 16);
    }
  }

  lemma {:induction false} ReadString(a: string, b: string, r: string, s: string)
    requires EscapeAll(a) + ['"'] + r == EscapeAll(b) + ['"'] + s
    ensures a == b && r == s
  {
    hide Hex;
    var left, right := EscapeAll(a) + ['"'] + r, EscapeAll(b) + ['"'] + s;
    if a != "" { EscapeShape(a[0]); }
    if b != "" { EscapeShape(b[0]); }
    assert left[0] == if a == "" then '"' else Escape(a[0])[0];
    assert right[0] == if b == "" then '"' else Escape(b[0])[0];
    if a == "" {
      assert left[1..] == r && right[1..] == s;
    } else {
      var ea, eb := Escape(a[0]), Escape(b[0]);
      var ta, tb := EscapeAll(a[1..]) + ['"'] + r, EscapeAll(b[1..]) + ['"'] + s;
      assert left == ea + ta && right == eb + tb;
      assert left[0] == ea[0] && right[0] == eb[0];
      if |ea| > 1 { assert left[1] == ea[1] && right[1] == eb[1]; }
      assert |ea| == |eb|;
      assert left[..|ea|] == ea && right[..|eb|] == eb;
      assert left[|ea|..] == ta && right[|eb|..] == tb;
      EscapeInjective(a[0], b[0]);
      ReadString(a[1..], b[1..], r, s);
      assert a == [a[0]] + a[1..] && b == [b[0]] + b[1..];
    }
  }

  lemma ReadQuoted(a: string, b: string, r: string, s: string)
    requires Quote(a) + r == Quote(b) + s
    ensures a == b && r == s
  {
    var left, right := Quote(a) + r, Quote(b) + s;
    assert left[1..] == EscapeAll(a) + ['"'] + r && right[1..] == EscapeAll(b) + ['"'] + s;
    ReadString(a, b, r, s);
  }

  /** The first character tells what kind of value follows. */
  function Kind(v: Json): nat {
    match v case Null => 0 case Bool(b) => if b then 1 else 2 case Number(_) => 3
            case Str(_) => 4 case Array(_) => 5 case Object(_) => 6
  }

  function KindOf(c: char): nat {
    if c == 'n' then 0 else if c == 't' then 1 else if c == 'f' then 2 else if NumeralChar(c) then 3
    else if c == '"' then 4 else if c == '[' then 5 else if c == '{' then 6 else 7
  }

  lemma FirstChar(v: Json)
    requires WellFormed(v)
    ensures Plain(v) != "" && KindOf(Plain(v)[0]) == Kind(v)
  {
  }

  lemma ReadKind(v: Json, w: Json, r: string, s: string)
    requires WellFormed(v) && WellFormed(w) && Plain(v) + r == Plain(w) + s
    ensures Kind(v) == Kind(w)
  {
    FirstChar(v);
    FirstChar(w);
    assert (Plain(v) + r)[0] == Plain(v)[0] && (Plain(w) + s)[0] == Plain(w)[0];
  }

  lemma SamePrefix(a: string, r: string, s: string)
    requires a + r == a + s
    ensures r == s
  {
    assert (a + r)[|a|..] == r && (a + s)[|a|..] == s;
  }

  function ItemsBody(items: seq<Json>): string {
    if items == [] then [']'] else Plain(items[0]) + ItemsTail(items[1..])
  }

  function FieldsBody(fields: seq<Entry<Json>>): string {
    if fields == [] then ['}'] else Pair(fields[0].key, Plain(fields[0].val)) + FieldsTail(fields[1..])
  }

  ghost predicate AllWellFormed(items: seq<Json>) {
    forall i :: 0 <= i < |items| ==> WellFormed(items[i])
  }

  ghost predicate FieldsWellFormed(fields: seq<Entry<Json>>) {
    forall i :: 0 <= i < |fields| ==> WellFormed(fields[i].val)
  }

  lemma {:induction false} ReadValue(v: Json, w: Json, r: string, s: string)
    requires WellFormed(v) && WellFormed(w) && Ends(r) && Ends(s) && Plain(v) + r == Plain(w) + s
    ensures v == w && r == s
    decreases v, 2
  {
    ReadKind(v, w, r, s);
    PlainShape(v);
    PlainShape(w);
    hide Plain, Quote, ItemsBody, FieldsBody, Ends, KindOf;
    match v {
      case Number(n) => ReadNumeral(n, w.numeral, r, s);
      case Str(a) => ReadQuoted(a, w.s, r, s);
      case Array(xs) =>
        Strip(['['], ItemsBody(xs), ItemsBody(w.items), r, s);
        ReadItems(xs, w.items, r, s);
      case Object(fs) =>
        Strip(['{'], FieldsBody(fs), FieldsBody(w.fields), r, s);
        ReadFields(fs, w.fields, r, s);
      case _ => SamePrefix(Plain(v), r, s);
    }
  }

  lemma PlainShape(v: Json)
    ensures v.Array? ==> Plain(v) == ['['] + ItemsBody(v.items)
    ensures v.Object? ==> Plain(v) == ['{'] + FieldsBody(v.fields)
    ensures !v.Array? && !v.Object? ==> Plain(v) == Primitive(v)
  {
  }

  lemma Strip(open: string, a: string, b: string, r: string, s: string)
    requires open + a + r == open + b + s
    ensures a + r == b + s
  {
    assert open + a + r == open + (a + r) && open + b + s == open + (b + s);
    SamePrefix(open, a + r, b + s);
  }

  lemma {:induction false} ReadItems(xs: seq<Json>, ys: seq<Json>, r: string, s: string)
    requires AllWellFormed(xs) && AllWellFormed(ys) && ItemsBody(xs) + r == ItemsBody(ys) + s
    ensures xs == ys && r == s
    decreases xs, 1
  {
    if xs != [] { FirstChar(xs[0]); assert (ItemsBody(xs) + r)[0] == Plain(xs[0])[0]; }
    if ys != [] { FirstChar(ys[0]); assert (ItemsBody(ys) + s)[0] == Plain(ys[0])[0]; }
    if xs == [] || ys == [] {
      assert xs == [] ==> (ItemsBody(xs) + r)[0] == ']';
      assert ys == [] ==> (ItemsBody(ys) + s)[0] == ']';
      assert xs == ys;
      SamePrefix([']'], r, s);
    } else {
      ReadItemsFrom(xs, ys, r, s);
    }
  }

  lemma {:induction false} ReadItemsFrom(xs: seq<Json>, ys: seq<Json>, r: string, s: string)
    requires AllWellFormed(xs) && AllWellFormed(ys) && xs != [] && ys != []
    requires Plain(xs[0]) + ItemsTail(xs[1..]) + r == Plain(ys[0]) + ItemsTail(ys[1..]) + s
    ensures xs == ys && r == s
    decreases xs, 0
  {
    hide Plain, WellFormed;
    var tx, ty := xs[1..], ys[1..];
    assert Plain(xs[0]) + ItemsTail(tx) + r == Plain(xs[0]) + (ItemsTail(tx) + r);
    assert Plain(ys[0]) + ItemsTail(ty) + s == Plain(ys[0]) + (ItemsTail(ty) + s);
    ReadValue(xs[0], ys[0], ItemsTail(tx) + r, ItemsTail(ty) + s);
    assert xs == [xs[0]] + tx && ys == [ys[0]] + ty;
    assert (ItemsTail(tx) + r)[0] == (ItemsTail(ty) + s)[0];
    if tx == [] {
      SamePrefix([']'], r, s);
    } else {
      assert ItemsTail(tx) + r == [','] + (Plain(tx[0]) + ItemsTail(tx[1..]) + r);
      assert ItemsTail(ty) + s == [','] + (Plain(ty[0]) + ItemsTail(ty[1..]) + s);
      SamePrefix([','], Plain(tx[0]) + ItemsTail(tx[1..]) + r, Plain(ty[0]) + ItemsTail(ty[1..]) + s);
      ReadItemsFrom(tx, ty, r, s);
    }
  }

  lemma {:induction false} ReadFields(fs: seq<Entry<Json>>, gs: seq<Entry<Json>>, r: string, s: string)
    requires FieldsWellFormed(fs) && FieldsWellFormed(gs) && FieldsBody(fs) + r == FieldsBody(gs) + s
    ensures fs == gs && r == s
    decreases fs, 1
  {
    assert (FieldsBody(fs) + r)[0] == if fs == [] then '}' else '"';
    assert (FieldsBody(gs) + s)[0] == if gs == [] then '}' else '"';
    if fs == [] {
      SamePrefix(['}'], r, s);
    } else {
      ReadFieldsFrom(fs, gs, r, s);
    }
  }

  lemma {:induction false} ReadFieldsFrom(fs: seq<Entry<Json>>, gs: seq<Entry<Json>>, r: string, s: string)
    requires FieldsWellFormed(fs) && FieldsWellFormed(gs) && fs != [] && gs != []
    requires Pair(fs[0].key, Plain(fs[0].val)) + FieldsTail(fs[1..]) + r
          == Pair(gs[0].key, Plain(gs[0].val)) + FieldsTail(gs[1..]) + s
    ensures fs == gs && r == s
    decreases fs, 0
  {
    hide Plain, Quote, WellFormed, EscapeAll;
    var f, g, tf, tg := fs[0], gs[0], fs[1..], gs[1..];
    var rf, rg := FieldsTail(tf) + r, FieldsTail(tg) + s;
    assert Pair(f.key, Plain(f.val)) + FieldsTail(tf) + r == Quote(f.key) + ([':'] + (Plain(f.val) + rf));
    assert Pair(g.key, Plain(g.val)) + FieldsTail(tg) + s == Quote(g.key) + ([':'] + (Plain(g.val) + rg));
    ReadQuoted(f.key, g.key, [':'] + (Plain(f.val) + rf), [':'] + (Plain(g.val) + rg));
    SamePrefix([':'], Plain(f.val) + rf, Plain(g.val) + rg);
    ReadValue(f.val, g.val, rf, rg);
    assert fs == [f] + tf && gs == [g] + tg;
    assert rf[0] == rg[0];
    if tf == [] {
      SamePrefix(['}'], r, s);
    } else {
      var bf := Pair(tf[0].key, Plain(tf[0].val)) + FieldsTail(tf[1..]) + r;
      var bg := Pair(tg[0].key, Plain(tg[0].val)) + FieldsTail(tg[1..]) + s;
      assert rf == [','] + bf && rg == [','] + bg;
      SamePrefix([','], bf, bg);
      ReadFieldsFrom(tf, tg, r, s);
    }
  }

  // ---------------------------------------------------------------- main result

  /** Two JSON values print to the same canonical text exactly when they are the same value up to
      the order of object keys at any depth. */
  lemma CanonicalPrintingIsFaithful(v: Json, w: Json)
    requires WellFormed(v) && WellFormed(w)
    ensures StableStringify(v) == StableStringify(w) <==> Equivalent(v, w)
  {
    StringifyIsPlainCanon(v);
    StringifyIsPlainCanon(w);
    CanonDecides(v, w);
    if Plain(Canon(v)) == Plain(Canon(w)) {
      CanonWellFormed(v);
      CanonWellFormed(w);
      assert Plain(Canon(v)) + "" == Plain(Canon(w)) + "";
      ReadValue(Canon(v), Canon(w), "", "");
    }
  }
}
