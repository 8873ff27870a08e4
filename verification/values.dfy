/** Attribute values as either plane may hand them over, and when two of them are one value. */
module Values {
  import opened Texts

  /** How Python spells a finite float: never the spelling of an int. */
  predicate IsFloatText(s: string) {
    && s != ""
    && (IsDigit(s[0]) || s[0] == '-')
    && (forall i :: 0 <= i < |s| ==> IsNumberChar(s[i]))
    && (exists i :: 0 <= i < |s| && (s[i] == '.' || s[i] == 'e'))
  }

  predicate IsDigit(c: char) { '0' <= c <= '9' }
  predicate IsNumberChar(c: char) { IsDigit(c) || c == '-' || c == '+' || c == '.' || c == 'e' }

  type FloatText = s: string | IsFloatText(s) ghost witness FloatWitness()

  function FloatWitness(): (s: string)
    ensures IsFloatText(s)
  {
    assert "0.0"[1] == '.';
    "0.0"
  }

  datatype Infinite = PlusInfinity | MinusInfinity | NotANumber

  /** A mapping key: text, or some other hashable object shown by its `repr`. */
  datatype Key = Name(name: Text) | Odd(repr: string)

  datatype Entry = Entry(key: Key, value: Value)

  /** A mapping lists its entries in insertion order. */
  datatype Value =
    | Null
    | Bool(b: bool)
    | Int(n: int)
    | Float(text: FloatText)
    | NonFinite(which: Infinite)
    | Str(s: Text)
    | List(items: seq<Value>)
    | Tuple(items: seq<Value>)
    | Dict(entries: seq<Entry>)
    | Foreign(typeName: string)
  {
    predicate Listlike() { List? || Tuple? }
  }

  /** No mapping states a key twice, which Python's `dict` guarantees. */
  predicate DistinctKeys(es: seq<Entry>) {
    forall i, j :: 0 <= i < j < |es| ==> es[i].key != es[j].key
  }

  predicate NamedKeys(es: seq<Entry>) {
    forall i :: 0 <= i < |es| ==> es[i].key.Name?
  }

  /** What `json.dumps` renders faithfully: JSON's types, with every mapping key a string. */
  predicate Encodable(v: Value) {
    match v
    case List(items) => AllEncodable(items)
    case Tuple(items) => AllEncodable(items)
    case Dict(entries) => EntriesEncodable(entries)
    case Foreign(_) => false
    case _ => true
  }

  predicate AllEncodable(vs: seq<Value>) {
    forall i :: 0 <= i < |vs| ==> Encodable(vs[i])
  }

  predicate EntriesEncodable(es: seq<Entry>) {
    && DistinctKeys(es)
    && NamedKeys(es)
    && forall i :: 0 <= i < |es| ==> assert es[i].value < es[i]; Encodable(es[i].value)
  }

  /** What both planes admit: encodable, finite, and with every string storable at every depth. */
  predicate Storable(v: Value)
    ensures Storable(v) ==> Encodable(v)
  {
    match v
    case Str(s) => StorableText(s)
    case List(items) => AllStorable(items)
    case Tuple(items) => AllStorable(items)
    case Dict(entries) => EntriesStorable(entries)
    case NonFinite(_) => false
    case Foreign(_) => false
    case _ => true
  }

  predicate AllStorable(vs: seq<Value>)
    ensures AllStorable(vs) ==> AllEncodable(vs)
  {
    forall i :: 0 <= i < |vs| ==> Storable(vs[i])
  }

  predicate EntriesStorable(es: seq<Entry>)
    ensures EntriesStorable(es) ==> EntriesEncodable(es)
  {
    && DistinctKeys(es)
    && NamedKeys(es)
    && forall i :: 0 <= i < |es| ==>
         assert es[i].value < es[i]; StorableText(es[i].key.name) && Storable(es[i].value)
  }

  /** The value of an entry, no larger than its mapping and no less encodable or storable. */
  function FieldOf(v: Value, i: nat): (r: Value)
    requires v.Dict? && Encodable(v) && i < |v.entries|
    ensures r == v.entries[i].value && r < v
    ensures Encodable(r) && (Storable(v) ==> Storable(r))
  {
    assert EntriesEncodable(v.entries);
    assert Storable(v) ==> EntriesStorable(v.entries);
    assert v.entries[i].value < v.entries[i];
    v.entries[i].value
  }

  /** One value: the same structure, with scalar types kept apart and mapping order ignored. */
  ghost predicate Same(a: Value, b: Value) {
    match a
    case List(items) => b.Listlike() && SameItems(items, b.items)
    case Tuple(items) => b.Listlike() && SameItems(items, b.items)
    case Dict(entries) => b.Dict? && SameEntries(entries, b.entries)
    case _ => a == b
  }

  ghost predicate SameEntries(es: seq<Entry>, fs: seq<Entry>) {
    && (forall i :: 0 <= i < |es| ==> AgreesWithin(es[i], fs))
    && (forall j :: 0 <= j < |fs| ==> AgreedBy(es, fs[j]))
  }

  /** `fs` states the key of `e`, and with the same value. */
  ghost predicate AgreesWithin(e: Entry, fs: seq<Entry>) {
    exists j :: 0 <= j < |fs| && e.key == fs[j].key && Same(e.value, fs[j].value)
  }

  ghost predicate AgreedBy(es: seq<Entry>, f: Entry) {
    exists i :: 0 <= i < |es| && es[i].key == f.key &&
                assert es[i].value < es[i]; Same(es[i].value, f.value)
  }

  ghost predicate SameItems(xs: seq<Value>, ys: seq<Value>) {
    |xs| == |ys| && forall i :: 0 <= i < |xs| ==> Same(xs[i], ys[i])
  }
}
