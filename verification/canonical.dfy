/**
 * The canonical form of a value: `json.dumps(value, sort_keys=True)`, separators and ASCII
 * escapes included, and the proof that it identifies exactly the values that are the same.
 */
module CanonicalForm {
  import opened Sorting
  import opened Texts
  import opened Values

  // ---------------------------------------------------------------- strings

  function HexDigit(n: int): char
    requires 0 <= n < 16
  {
    if n < 10 then '0' + n as char else 'a' + (n - 10) as char
  }

  function Hex4(n: int): string
    requires 0 <= n < 0x10000
  {
    [HexDigit(n / 16 / 16 / 16), HexDigit(n / 16 / 16 % 16), HexDigit(n / 16 % 16), HexDigit(n % 16)]
  }

  /** One code point inside a JSON string; beyond the BMP it is spelled as a surrogate pair. */
  function EscapedCode(c: Code): string {
    if c == 0x22 then "\\\""
    else if c == 0x5C then "\\\\"
    else if 0x20 <= c <= 0x7E then [c as char]
    else if c == 0x08 then "\\b"
    else if c == 0x09 then "\\t"
    else if c == 0x0A then "\\n"
    else if c == 0x0C then "\\f"
    else if c == 0x0D then "\\r"
    else if c < 0x10000 then "\\u" + Hex4(c)
    else "\\u" + Hex4(0xD800 + (c - 0x10000) / 0x400) + "\\u" + Hex4(0xDC00 + (c - 0x10000) % 0x400)
  }

  function Escaped(s: Text): string {
    if s == [] then "" else EscapedCode(s[0]) + Escaped(s[1..])
  }

  function Quoted(s: Text): string { "\"" + Escaped(s) + "\"" }

  // ---------------------------------------------------------------- numbers

  function Digits(n: nat): string {
    if n < 10 then [HexDigit(n)] else Digits(n / 10) + [HexDigit(n % 10)]
  }

  function Decimal(n: int): string {
    if n < 0 then "-" + Digits(-n) else Digits(n)
  }

  function InfiniteText(w: Infinite): string {
    match w
    case PlusInfinity => "Infinity"
    case MinusInfinity => "-Infinity"
    case NotANumber => "NaN"
  }

  // ---------------------------------------------------------------- values

  /** One rendered mapping entry, waiting to be put in key order. */
  datatype Member = Member(key: Text, text: string)

  function KeyOf(m: Member): Text { m.key }

  function Canonical(v: Value): string
    requires Encodable(v)
  {
    match v
    case Null => "null"
    case Bool(b) => if b then "true" else "false"
    case Int(n) => Decimal(n)
    case Float(text) => text
    case NonFinite(w) => InfiniteText(w)
    case Str(s) => Quoted(s)
    case List(items) => "[" + Joined(Rendered(items)) + "]"
    case Tuple(items) => "[" + Joined(Rendered(items)) + "]"
    case Dict(entries) =>
      "{" + Joined(Spelled(SortBy(Members(entries), KeyOf, TextLe))) + "}"
  }

  function Rendered(items: seq<Value>): (ts: seq<string>)
    requires AllEncodable(items)
    ensures |ts| == |items|
  {
    if items == [] then [] else [Canonical(items[0])] + Rendered(items[1..])
  }

  function Members(es: seq<Entry>): (ms: seq<Member>)
    requires EntriesEncodable(es)
    ensures |ms| == |es|
  {
    if es == [] then [] else
      assert es[0].value < es[0];
      [Member(es[0].key.name, Canonical(es[0].value))] + Members(es[1..])
  }

  function Spelled(ms: seq<Member>): (ts: seq<string>)
    ensures |ts| == |ms|
  {
    if ms == [] then [] else [Quoted(ms[0].key) + ": " + ms[0].text] + Spelled(ms[1..])
  }

  function Joined(ts: seq<string>): string {
    if ts == [] then "" else ts[0] + JoinedRest(ts[1..])
  }

  function JoinedRest(ts: seq<string>): string {
    if ts == [] then "" else ", " + ts[0] + JoinedRest(ts[1..])
  }

  // ---------------------------------------------------------------- same values, same text

  lemma {:induction false} RenderedAt(items: seq<Value>, i: nat)
    requires AllEncodable(items)
    requires i < |items|
    ensures Rendered(items)[i] == Canonical(items[i])
  {
    if i > 0 { RenderedAt(items[1..], i - 1); }
  }

  lemma {:induction false} MembersAt(es: seq<Entry>, i: nat)
    requires EntriesEncodable(es)
    requires i < |es|
    ensures Members(es)[i] == Member(es[i].key.name, Canonical(es[i].value))
  {
    if i > 0 { MembersAt(es[1..], i - 1); }
  }

  lemma {:induction false} MembersDistinct(es: seq<Entry>)
    requires EntriesEncodable(es)
    ensures NoRepeats(Keys(Members(es), KeyOf))
  {
    forall i, j | 0 <= i < j < |es|
      ensures Keys(Members(es), KeyOf)[i] != Keys(Members(es), KeyOf)[j]
    {
      MembersAt(es, i);
      MembersAt(es, j);
      assert es[i].key != es[j].key;
    }
  }

  lemma {:induction false} SameText(a: Value, b: Value)
    requires Encodable(a) && Encodable(b) && Same(a, b)
    ensures Canonical(a) == Canonical(b)
    decreases a
  {
    if a.Listlike() {
      SameRendered(a, a.items, b.items);
    } else if a.Dict? {
      SameMembers(a, a.entries, b.entries);
      MembersDistinct(a.entries);
      MembersDistinct(b.entries);
      TextOrder();
      SortByIgnoresOrder(Members(a.entries), Members(b.entries), KeyOf, TextLe);
    }
  }

  lemma {:induction false} SameMembers(a: Value, es: seq<Entry>, fs: seq<Entry>)
    requires a.Dict? && a.entries == es && Encodable(a)
    requires Encodable(Dict(fs)) && SameEntries(es, fs)
    ensures forall m :: m in Members(es) <==> m in Members(fs)
    decreases a, 0
  {
    forall m | m in Members(es) ensures m in Members(fs) {
      var i :| 0 <= i < |es| && Members(es)[i] == m;
      assert AgreesWithin(es[i], fs);
      var j :| 0 <= j < |fs| && es[i].key == fs[j].key && Same(es[i].value, fs[j].value);
      SameMember(a, es, i, fs, j);
      assert Members(fs)[j] in Members(fs);
    }
    forall m | m in Members(fs) ensures m in Members(es) {
      var j :| 0 <= j < |fs| && Members(fs)[j] == m;
      assert AgreedBy(es, fs[j]);
      var i :| 0 <= i < |es| && es[i].key == fs[j].key && Same(es[i].value, fs[j].value);
      SameMember(a, es, i, fs, j);
      assert Members(es)[i] in Members(es);
    }
  }

  lemma {:induction false} SameMember(a: Value, es: seq<Entry>, i: nat, fs: seq<Entry>, j: nat)
    requires a.Dict? && a.entries == es && Encodable(a) && Encodable(Dict(fs))
    requires i < |es| && j < |fs| && es[i].key == fs[j].key && Same(es[i].value, fs[j].value)
    ensures Members(es)[i] == Members(fs)[j]
    decreases a, 0, 0
  {
    MembersAt(es, i);
    MembersAt(fs, j);
    assert es[i].value < es[i];
    SameText(es[i].value, fs[j].value);
  }

  lemma {:induction false} SameRendered(a: Value, xs: seq<Value>, ys: seq<Value>)
    requires forall i :: 0 <= i < |xs| ==> xs[i] < a
    requires AllEncodable(xs) && AllEncodable(ys)
    requires SameItems(xs, ys)
    ensures Rendered(xs) == Rendered(ys)
    decreases a, 0
  {
    forall i | 0 <= i < |xs| ensures Rendered(xs)[i] == Rendered(ys)[i] {
      RenderedAt(xs, i);
      RenderedAt(ys, i);
      SameText(xs[i], ys[i]);
    }
  }
}
