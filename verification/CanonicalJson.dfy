/** The canonical printer used inside cache keys (cache/index.ts, stableStringify) over JSON values
    (RFC 8259), and why equal text means equal value up to the order of object keys. */
module CanonicalJson {
  import opened Sequences

  // ---------------------------------------------------------------- values

  datatype Entry<T> = Entry(key: string, val: T)

  /** A JSON value as parsed: objects remember the order their keys were written in. A number is
      its shortest decimal numeral, which determines it. */
  datatype Json =
    | Null
    | Bool(b: bool)
    | Number(numeral: string)
    | Str(s: string)
    | Array(items: seq<Json>)
    | Object(fields: seq<Entry<Json>>)

  predicate NumeralChar(c: char) {
    '0' <= c <= '9' || c == '-' || c == '+' || c == '.' || c == 'e'
  }

  predicate Numeral(s: string) {
    s != [] && forall i :: 0 <= i < |s| ==> NumeralChar(s[i])
  }

  function Keys<T>(fields: seq<Entry<T>>): seq<string> {
    seq(|fields|, i requires 0 <= i < |fields| => fields[i].key)
  }

  predicate WellFormed(v: Json) {
    match v
    case Number(n) => Numeral(n)
    case Array(items) => forall i :: 0 <= i < |items| ==> WellFormed(items[i])
    case Object(fields) =>
      Distinct(Keys(fields)) && forall i :: 0 <= i < |fields| ==> WellFormed(fields[i].val)
    case _ => true
  }

  /** Equal up to the order of object keys, at every depth. */
  ghost predicate Equivalent(v: Json, w: Json) {
    match (v, w)
    case (Array(xs), Array(ys)) =>
      |xs| == |ys| && forall i :: 0 <= i < |xs| ==> Equivalent(xs[i], ys[i])
    case (Object(fs), Object(gs)) =>
      |fs| == |gs|
      && forall i :: 0 <= i < |fs| ==>
           exists j :: 0 <= j < |gs| && SameField(fs[i], gs[j])
    case _ => v == w
  }

  ghost predicate SameField(f: Entry<Json>, g: Entry<Json>) {
    f.key == g.key && Equivalent(f.val, g.val)
  }

  // ---------------------------------------------------------------- printing

  predicate Less(a: string, b: string) {
    if b == "" then false
    else if a == "" then true
    else a[0] < b[0] || (a[0] == b[0] && Less(a[1..], b[1..]))
  }

  /** Keys in code unit order, as Array.prototype.sort leaves them. */
  function Insert<T>(e: Entry<T>, sorted: seq<Entry<T>>): seq<Entry<T>> {
    if sorted == [] || !Less(sorted[0].key, e.key) then [e] + sorted
    else [sorted[0]] + Insert(e, sorted[1..])
  }

  function Sort<T>(fields: seq<Entry<T>>): seq<Entry<T>> {
    if fields == [] then [] else Insert(fields[0], Sort(fields[1..]))
  }

  function Hex(n: nat): char
    requires n < 16
  {
    if n < 10 then '0' + n as char else 'a' + (n - 10) as char
  }

  /** JSON.stringify's escapes. */
  function Escape(c: char): string {
    if c == '"' then ['\\', '"']
    else if c == '\\' then ['\\', '\\']
    else if c as int == 8 then ['\\', 'b']
    else if c as int == 12 then ['\\', 'f']
    else if c == '\n' then ['\\', 'n']
    else if c == '\r' then ['\\', 'r']
    else if c == '\t' then ['\\', 't']
    else if c as int < 32 then ['\\', 'u', '0', '0', Hex(c as int / 16), Hex(c as int % 16)]
    else [c]
  }

  function EscapeAll(s: string): string {
    if s == "" then "" else Escape(s[0]) + EscapeAll(s[1..])
  }

  function Quote(s: string): string {
    ['"'] + EscapeAll(s) + ['"']
  }

  function Primitive(v: Json): string
    requires !v.Array? && !v.Object?
  {
    match v
    case Null => "null"
    case Bool(b) => if b then "true" else "false"
    case Number(n) => n
    case Str(s) => Quote(s)
  }

  function Member(e: Entry<string>): string {
    Quote(e.key) + [':'] + e.val
  }

  function Members(fields: seq<Entry<string>>): seq<string> {
    if fields == [] then [] else [Member(fields[0])] + Members(fields[1..])
  }

  function JoinCommas(parts: seq<string>): string {
    if parts == [] then ""
    else if |parts| == 1 then parts[0]
    else parts[0] + [','] + JoinCommas(parts[1..])
  }

  function StableStringify(v: Json): string
    decreases v, 1
  {
    match v
    case Array(items) => ['['] + JoinCommas(PrintItems(items)) + [']']
    case Object(fields) => ['{'] + JoinCommas(Members(Sort(PrintFields(fields)))) + ['}']
    case _ => Primitive(v)
  }

  function PrintItems(items: seq<Json>): (texts: seq<string>)
    ensures |texts| == |items|
    decreases items, 0
  {
    if items == [] then [] else [StableStringify(items[0])] + PrintItems(items[1..])
  }

  function PrintFields(fields: seq<Entry<Json>>): (texts: seq<Entry<string>>)
    ensures |texts| == |fields|
    decreases fields, 0
  {
    if fields == [] then []
    else [Entry(fields[0].key, StableStringify(fields[0].val))] + PrintFields(fields[1..])
  }
}
