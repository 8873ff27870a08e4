/** The three list modes, and exactly when the set mode compares what its name says. */
module Lists {
  import opened Options
  import opened Sorting
  import opened Texts
  import opened Values
  import opened CanonicalForm
  import opened Identity
  import opened Dedup

  predicate NoTuples(v: Value) {
    match v
    case List(items) => forall i :: 0 <= i < |items| ==> NoTuples(items[i])
    case Tuple(_) => false
    case Dict(entries) =>
      forall i :: 0 <= i < |entries| ==> assert entries[i].value < entries[i]; NoTuples(entries[i].value)
    case _ => true
  }

  /** A JSON-native value, the only kind either plane stores. */
  type Native = v: Value | Storable(v) && NoTuples(v) witness Null

  function TextOf(v: Native): string { Canonical(v) }

  function TypeOrder(v: Value): nat {
    match v
    case Null => 0
    case Bool(_) => 1
    case Int(_) => 2
    case Float(_) => 3
    case Str(_) => 4
    case List(_) => 5
    case Dict(_) => 6
    case _ => 99
  }

  datatype SortKey = SortKey(order: nat, text: string)

  function SortKeyOf(v: Native): SortKey { SortKey(TypeOrder(v), Canonical(v)) }

  predicate SortKeyLe(a: SortKey, b: SortKey) {
    a.order < b.order || (a.order == b.order && StringLe(a.text, b.text))
  }

  function KeyTextOf(k: SortKey): string { k.text }

  function CanonicalForms(xs: seq<Native>): seq<string> { Keys(xs, TextOf) }

  function SetOf<T>(ts: seq<T>): set<T> { set t | t in ts }

  // ---------------------------------------------------------------- ordered and multiset

  /** The loop the three modes share: same length, and equal canonical forms at every position. */
  method PairwiseAgree(xs: seq<Native>, ys: seq<Native>) returns (agree: bool)
    ensures agree <==> CanonicalForms(xs) == CanonicalForms(ys)
  {
    agree := |xs| == |ys|;
    if agree {
      var i := 0;
      while i < |xs|
        invariant 0 <= i <= |xs| == |ys|
        invariant agree <==> CanonicalForms(xs[..i]) == CanonicalForms(ys[..i])
        invariant !agree ==> CanonicalForms(xs) != CanonicalForms(ys)
      {
        assert CanonicalForms(xs[..i + 1]) == CanonicalForms(xs[..i]) + [TextOf(xs[i])];
        assert CanonicalForms(ys[..i + 1]) == CanonicalForms(ys[..i]) + [TextOf(ys[i])];
        if Canonical(xs[i]) != Canonical(ys[i]) {
          assert CanonicalForms(xs)[i] != CanonicalForms(ys)[i];
          return false;
        }
        i := i + 1;
      }
      assert xs[..i] == xs && ys[..i] == ys;
    }
  }

  lemma {:induction false} SortKeyOrder()
    ensures TotalOrder(SortKeyLe)
  {
    StringOrder();
    forall a, b ensures SortKeyLe(a, b) || SortKeyLe(b, a) {
      assert StringLe(a.text, b.text) || StringLe(b.text, a.text);
    }
    forall a, b | SortKeyLe(a, b) && SortKeyLe(b, a) ensures a == b {
      assert StringLe(a.text, b.text) && StringLe(b.text, a.text) ==> a.text == b.text;
    }
    forall a, b, c | SortKeyLe(a, b) && SortKeyLe(b, c) ensures SortKeyLe(a, c) {
      assert StringLe(a.text, b.text) && StringLe(b.text, c.text) ==> StringLe(a.text, c.text);
    }
  }

  /** Among JSON-native values the canonical form determines the type. */
  lemma {:induction false} TextDeterminesKey(x: Native, y: Native)
    requires TextOf(x) == TextOf(y)
    ensures SortKeyOf(x) == SortKeyOf(y)
  {
    CanonicalIsIdentity(x, y);
  }

  lemma {:induction false} TextsOfKeys(xs: seq<Native>)
    ensures Keys(Keys(xs, SortKeyOf), KeyTextOf) == CanonicalForms(xs)
  {}

  /** Sorting both lists lines up equal canonical forms exactly when the multisets are equal. */
  lemma {:induction false} SortedAgreeIffMultisetsEqual(xs: seq<Native>, ys: seq<Native>)
    ensures CanonicalForms(SortBy(xs, SortKeyOf, SortKeyLe)) == CanonicalForms(SortBy(ys, SortKeyOf, SortKeyLe))
       <==> multiset(CanonicalForms(xs)) == multiset(CanonicalForms(ys))
  {
    var sx, sy := SortBy(xs, SortKeyOf, SortKeyLe), SortBy(ys, SortKeyOf, SortKeyLe);
    KeysOfMultiset(sx, xs, TextOf);
    KeysOfMultiset(sy, ys, TextOf);
    if multiset(CanonicalForms(xs)) == multiset(CanonicalForms(ys)) {
      SameTextsSameKeys(xs, ys);
      SortedTexts(xs, ys);
    }
  }

  lemma {:induction false} SameTextsSameKeys(xs: seq<Native>, ys: seq<Native>)
    requires multiset(CanonicalForms(xs)) == multiset(CanonicalForms(ys))
    ensures multiset(Keys(xs, SortKeyOf)) == multiset(Keys(ys, SortKeyOf))
  {
    var kx, ky := Keys(xs, SortKeyOf), Keys(ys, SortKeyOf);
    TextsOfKeys(xs);
    TextsOfKeys(ys);
    forall a, b | a in kx && b in ky && KeyTextOf(a) == KeyTextOf(b) ensures a == b {
      var i :| 0 <= i < |kx| && kx[i] == a;
      var j :| 0 <= j < |ky| && ky[j] == b;
      TextDeterminesKey(xs[i], ys[j]);
    }
    KeysReflectMultiset(kx, ky, KeyTextOf);
  }

  lemma {:induction false} SortedTexts(xs: seq<Native>, ys: seq<Native>)
    requires multiset(Keys(xs, SortKeyOf)) == multiset(Keys(ys, SortKeyOf))
    ensures CanonicalForms(SortBy(xs, SortKeyOf, SortKeyLe)) == CanonicalForms(SortBy(ys, SortKeyOf, SortKeyLe))
  {
    SortKeyOrder();
    SortByKeys(xs, SortKeyOf, SortKeyLe);
    SortByKeys(ys, SortKeyOf, SortKeyLe);
    SortForgetsOrder(Keys(xs, SortKeyOf), Keys(ys, SortKeyOf), SortKeyLe);
    TextsOfKeys(SortBy(xs, SortKeyOf, SortKeyLe));
    TextsOfKeys(SortBy(ys, SortKeyOf, SortKeyLe));
  }

  method CompareOrdered(declared: seq<Native>, discovered: seq<Native>) returns (agree: bool)
    ensures agree <==> CanonicalForms(declared) == CanonicalForms(discovered)
  {
    agree := PairwiseAgree(declared, discovered);
  }

  method CompareMultiset(declared: seq<Native>, discovered: seq<Native>) returns (agree: bool)
    ensures agree <==> multiset(CanonicalForms(declared)) == multiset(CanonicalForms(discovered))
  {
    agree := PairwiseAgree(SortBy(declared, SortKeyOf, SortKeyLe), SortBy(discovered, SortKeyOf, SortKeyLe));
    SortedAgreeIffMultisetsEqual(declared, discovered);
  }

  // ---------------------------------------------------------------- set: what Python deduplicates by

  /** A hashable stand-in for a value, compared the way Python compares dictionary keys. */
  datatype HashKey = Atom(value: Value) | Parts(parts: seq<HashKey>)

  datatype Pair = Pair(name: Text, value: Value)

  function PairName(p: Pair): Text { p.name }

  function Pairs(es: seq<Entry>): (ps: seq<Pair>)
    requires NamedKeys(es)
    ensures |ps| == |es| && forall i :: 0 <= i < |es| ==> ps[i] == Pair(es[i].key.name, es[i].value)
  {
    seq(|es|, i requires 0 <= i < |es| => Pair(es[i].key.name, es[i].value))
  }

  predicate IsAtom(v: Value) { !v.List? && !v.Dict? }

  predicate AllAtoms(es: seq<Entry>) { forall i :: 0 <= i < |es| ==> IsAtom(es[i].value) }

  function PairKey(p: Pair): HashKey { Parts([Atom(Str(p.name)), Atom(p.value)]) }

  /** None where Python raises: a mapping's values are left as they are, so one holding a list has no hash. */
  function MakeHashable(v: Value): Option<HashKey>
    requires Encodable(v)
  {
    match v
    case Dict(entries) =>
      assert EntriesEncodable(entries);
      if AllAtoms(entries)
      then Some(Parts(Keys(SortBy(Pairs(entries), PairName, TextLe), PairKey)))
      else None
    case List(items) =>
      (match HashableItems(items) case None => None case Some(parts) => Some(Parts(parts)))
    case _ => Some(Atom(v))
  }

  function HashableItems(vs: seq<Value>): (r: Option<seq<HashKey>>)
    requires AllEncodable(vs)
    ensures r.Some? ==> |r.value| == |vs|
  {
    if vs == [] then Some([])
    else if MakeHashable(vs[0]) == None || HashableItems(vs[1..]) == None then None
    else Some([MakeHashable(vs[0]).value] + HashableItems(vs[1..]).value)
  }

  predicate Numeric(v: Value) { v.Bool? || v.Int? || v.Float? }

  /** The number a bool, int or float stands for; `worth` gives what a float's spelling is worth. */
  function Number(v: Value, worth: FloatText -> real): real
    requires Numeric(v)
  {
    match v
    case Bool(b) => if b then 1.0 else 0.0
    case Int(n) => n as real
    case Float(text) => worth(text)
  }

  /** Python's `==` on dictionary keys: numbers by value whatever their type, tuples item by item. */
  predicate KeysEqual(a: HashKey, b: HashKey, worth: FloatText -> real) {
    match a
    case Atom(v) =>
      b.Atom? && (if Numeric(v) && Numeric(b.value) then Number(v, worth) == Number(b.value, worth) else v == b.value)
    case Parts(ps) =>
      b.Parts? && |ps| == |b.parts| && forall i :: 0 <= i < |ps| ==> KeysEqual(ps[i], b.parts[i], worth)
  }

  lemma {:induction false} KeysEqualReflexive(a: HashKey, worth: FloatText -> real)
    ensures KeysEqual(a, a, worth)
  {
    if a.Parts? {
      forall i | 0 <= i < |a.parts| ensures KeysEqual(a.parts[i], a.parts[i], worth) {
        KeysEqualReflexive(a.parts[i], worth);
      }
    }
  }

  lemma {:induction false} KeysEqualSymmetric(a: HashKey, b: HashKey, worth: FloatText -> real)
    requires KeysEqual(a, b, worth)
    ensures KeysEqual(b, a, worth)
  {
    if a.Parts? {
      forall i | 0 <= i < |a.parts| ensures KeysEqual(b.parts[i], a.parts[i], worth) {
        KeysEqualSymmetric(a.parts[i], b.parts[i], worth);
      }
    }
  }

  lemma {:induction false} KeysEqualTransitive(a: HashKey, b: HashKey, c: HashKey, worth: FloatText -> real)
    requires KeysEqual(a, b, worth) && KeysEqual(b, c, worth)
    ensures KeysEqual(a, c, worth)
  {
    if a.Parts? {
      forall i | 0 <= i < |a.parts| ensures KeysEqual(a.parts[i], c.parts[i], worth) {
        KeysEqualTransitive(a.parts[i], b.parts[i], c.parts[i], worth);
      }
    }
  }

  predicate Hashable(v: Native) { MakeHashable(v).Some? }

  predicate AllHashable(vs: seq<Native>) { forall i :: 0 <= i < |vs| ==> Hashable(vs[i]) }

  /** Python's set construction cannot tell `x` from `y`. */
  predicate Alike(x: Native, y: Native, worth: FloatText -> real) {
    Hashable(x) && Hashable(y) && KeysEqual(MakeHashable(x).value, MakeHashable(y).value, worth)
  }

  function AlikeBy(worth: FloatText -> real): ((Native, Native) -> bool) {
    (x: Native, y: Native) => Alike(x, y, worth)
  }

  lemma {:induction false} AlikeIsEquivalence(worth: FloatText -> real)
    ensures PartialEquivalence(AlikeBy(worth))
    ensures forall x: Native :: Hashable(x) ==> Alike(x, x, worth)
  {
    var alike := AlikeBy(worth);
    forall x: Native, y: Native | alike(x, y) ensures alike(y, x) {
      KeysEqualSymmetric(MakeHashable(x).value, MakeHashable(y).value, worth);
    }
    forall x: Native, y: Native, z: Native | alike(x, y) && alike(y, z) ensures alike(x, z) {
      KeysEqualTransitive(MakeHashable(x).value, MakeHashable(y).value, MakeHashable(z).value, worth);
    }
    forall x: Native | Hashable(x) ensures Alike(x, x, worth) {
      KeysEqualReflexive(MakeHashable(x).value, worth);
    }
  }

  datatype SetVerdict = Unhashable | Verdict(agree: bool)

  /** The set mode: deduplicate, sort, compare. Raises when an item of either list has no hash. */
  method CompareSet(declared: seq<Native>, discovered: seq<Native>, worth: FloatText -> real)
    returns (verdict: SetVerdict)
    ensures verdict == Unhashable <==> !AllHashable(declared) || !AllHashable(discovered)
    ensures verdict.Verdict? ==> (verdict.agree <==> SetModeAgrees(declared, discovered, worth))
  {
    if !AllHashable(declared) || !AllHashable(discovered) {
      return Unhashable;
    }
    var a := DedupeLoop(declared, worth);
    var b := DedupeLoop(discovered, worth);
    var agree := PairwiseAgree(SortBy(a, SortKeyOf, SortKeyLe), SortBy(b, SortKeyOf, SortKeyLe));
    SortedAgreeIffMultisetsEqual(a, b);
    return Verdict(agree);
  }

  method DedupeLoop(xs: seq<Native>, worth: FloatText -> real) returns (kept: seq<Native>)
    ensures kept == Deduped(xs, AlikeBy(worth))
  {
    kept := [];
    var i := 0;
    while i < |xs|
      invariant 0 <= i <= |xs|
      invariant kept == Deduped(xs[..i], AlikeBy(worth))
    {
      assert xs[..i + 1][..i] == xs[..i];
      kept := Put(kept, xs[i], AlikeBy(worth));
      i := i + 1;
    }
    assert xs[..i] == xs;
  }

  /** The kept items have the same canonical forms, whatever order they were met in. */
  ghost predicate SetModeAgrees(xs: seq<Native>, ys: seq<Native>, worth: FloatText -> real) {
    multiset(CanonicalForms(Deduped(xs, AlikeBy(worth)))) == multiset(CanonicalForms(Deduped(ys, AlikeBy(worth))))
  }

  /** Deduplication merges nothing but equal values. */
  ghost predicate Faithful(xs: seq<Native>, worth: FloatText -> real) {
    FaithfulTo(xs, AlikeBy(worth))
  }

  ghost predicate FaithfulTo(xs: seq<Native>, alike: (Native, Native) -> bool) {
    forall i, j :: 0 <= i < |xs| && 0 <= j < |xs| && alike(xs[i], xs[j]) ==> TextOf(xs[i]) == TextOf(xs[j])
  }

  // ---------------------------------------------------------------- set: what the mode compares

  lemma {:induction false} SameHashKey(a: Value, b: Value)
    requires Storable(a) && Storable(b) && NoTuples(a) && NoTuples(b) && Same(a, b)
    ensures MakeHashable(a) == MakeHashable(b)
    decreases a, 1
  {
    if a.List? {
      SameItemsHash(a.items, b.items);
    } else if a.Dict? {
      SamePairs(a, b);
    }
  }

  lemma {:induction false} SameItemsHash(xs: seq<Value>, ys: seq<Value>)
    requires AllStorable(xs) && AllStorable(ys) && SameItems(xs, ys)
    requires forall i :: 0 <= i < |xs| ==> NoTuples(xs[i]) && NoTuples(ys[i])
    ensures HashableItems(xs) == HashableItems(ys)
    decreases xs, 0
  {
    if xs != [] {
      assert Same(xs[0], ys[0]);
      SameHashKey(xs[0], ys[0]);
      assert SameItems(xs[1..], ys[1..]) by {
        forall i | 0 <= i < |xs| - 1 ensures Same(xs[1..][i], ys[1..][i]) {
          assert Same(xs[i + 1], ys[i + 1]);
        }
      }
      SameItemsHash(xs[1..], ys[1..]);
    }
  }

  lemma {:induction false} SameAtoms(a: Value, b: Value)
    requires NoTuples(a) && NoTuples(b) && Same(a, b)
    ensures IsAtom(a) <==> IsAtom(b)
    ensures IsAtom(a) ==> a == b
  {}

  lemma {:induction false} SamePairs(a: Value, b: Value)
    requires a.Dict? && b.Dict? && Storable(a) && Storable(b) && NoTuples(a) && NoTuples(b) && Same(a, b)
    ensures MakeHashable(a) == MakeHashable(b)
    decreases a, 0
  {
    var es, fs := a.entries, b.entries;
    assert EntriesStorable(es) && EntriesStorable(fs);
    forall i | 0 <= i < |es| ensures Echoed(es[i], fs) {
      assert AgreesWithin(es[i], fs);
      var j :| 0 <= j < |fs| && es[i].key == fs[j].key && Same(es[i].value, fs[j].value);
      SameAtoms(es[i].value, fs[j].value);
    }
    forall j | 0 <= j < |fs| ensures Echoed(fs[j], es) {
      assert AgreedBy(es, fs[j]);
      var i :| 0 <= i < |es| && es[i].key == fs[j].key && Same(es[i].value, fs[j].value);
      SameAtoms(es[i].value, fs[j].value);
    }
    EchoedMappings(es, fs);
  }

  lemma {:induction false} EchoedMappings(es: seq<Entry>, fs: seq<Entry>)
    requires EntriesStorable(es) && EntriesStorable(fs)
    requires forall i :: 0 <= i < |es| ==> Echoed(es[i], fs)
    requires forall j :: 0 <= j < |fs| ==> Echoed(fs[j], es)
    ensures MakeHashable(Dict(es)) == MakeHashable(Dict(fs))
  {
    if AllAtoms(fs) { EchoedAtoms(es, fs); }
    if AllAtoms(es) {
      EchoedAtoms(fs, es);
      EchoedPairs(es, fs);
      EchoedPairs(fs, es);
      PairNamesDistinct(es);
      PairNamesDistinct(fs);
      TextOrder();
      SortByIgnoresOrder(Pairs(es), Pairs(fs), PairName, TextLe);
    }
  }

  /** `fs` states the key of `e`, with an equal value if either is an atom. */
  predicate Echoed(e: Entry, fs: seq<Entry>) {
    exists j :: 0 <= j < |fs| && Echoes(e, fs[j])
  }

  predicate Echoes(e: Entry, f: Entry) {
    e.key == f.key && (IsAtom(e.value) <==> IsAtom(f.value)) && (IsAtom(e.value) ==> e.value == f.value)
  }

  lemma {:induction false} EchoedAtoms(es: seq<Entry>, fs: seq<Entry>)
    requires forall i :: 0 <= i < |es| ==> Echoed(es[i], fs)
    requires AllAtoms(fs)
    ensures AllAtoms(es)
  {
    forall i | 0 <= i < |es| ensures IsAtom(es[i].value) {
      var j :| 0 <= j < |fs| && Echoes(es[i], fs[j]);
    }
  }

  lemma {:induction false} EchoedPairs(es: seq<Entry>, fs: seq<Entry>)
    requires NamedKeys(es) && NamedKeys(fs)
    requires forall i :: 0 <= i < |es| ==> Echoed(es[i], fs) && IsAtom(es[i].value)
    ensures forall p :: p in Pairs(es) ==> p in Pairs(fs)
  {
    forall p | p in Pairs(es) ensures p in Pairs(fs) {
      var i :| 0 <= i < |es| && Pairs(es)[i] == p;
      var j :| 0 <= j < |fs| && Echoes(es[i], fs[j]);
      assert Pairs(fs)[j] == p;
    }
  }

  lemma {:induction false} PairNamesDistinct(es: seq<Entry>)
    requires DistinctKeys(es) && NamedKeys(es)
    ensures NoRepeats(Keys(Pairs(es), PairName))
  {
    forall i, j | 0 <= i < j < |es| ensures Keys(Pairs(es), PairName)[i] != Keys(Pairs(es), PairName)[j] {
      assert es[i].key != es[j].key;
    }
  }

  /** Every item is alike to itself, and so to any item with its canonical form. */
  ghost predicate TextRespected(alike: (Native, Native) -> bool, vs: seq<Native>) {
    && PartialEquivalence(alike)
    && forall x: Native, y: Native :: x in vs && TextOf(x) == TextOf(y) ==> alike(x, y)
  }

  /** Equal values are always alike: deduplication may merge too much, never too little. */
  lemma {:induction false} EqualTextIsAlike(vs: seq<Native>, worth: FloatText -> real)
    requires AllHashable(vs)
    ensures TextRespected(AlikeBy(worth), vs)
  {
    AlikeIsEquivalence(worth);
    forall x: Native, y: Native | x in vs && TextOf(x) == TextOf(y) ensures Alike(x, y, worth) {
      CanonicalIsIdentity(x, y);
      SameHashKey(x, y);
      KeysEqualReflexive(MakeHashable(x).value, worth);
    }
  }

  lemma {:induction false} DedupedTexts(xs: seq<Native>, alike: (Native, Native) -> bool)
    requires TextRespected(alike, xs)
    ensures NoRepeats(CanonicalForms(Deduped(xs, alike)))
    ensures FaithfulTo(xs, alike) ==> SetOf(CanonicalForms(Deduped(xs, alike))) == SetOf(CanonicalForms(xs))
  {
    var kept := Deduped(xs, alike);
    KeepsOnePerClass(xs, alike);
    forall i, j | 0 <= i < j < |kept| ensures CanonicalForms(kept)[i] != CanonicalForms(kept)[j] {
      assert kept[i] in kept;
    }
    if FaithfulTo(xs, alike) {
      forall t ensures t in CanonicalForms(kept) <==> t in CanonicalForms(xs) {
        if t in CanonicalForms(kept) {
          var i :| 0 <= i < |kept| && TextOf(kept[i]) == t;
          assert kept[i] in kept;
          var j :| 0 <= j < |xs| && xs[j] == kept[i];
          assert CanonicalForms(xs)[j] == t;
        }
        if t in CanonicalForms(xs) {
          var j :| 0 <= j < |xs| && TextOf(xs[j]) == t;
          assert Represented(xs[j], kept, alike);
          var i :| 0 <= i < |kept| && alike(kept[i], xs[j]);
          assert kept[i] in kept;
          var n :| 0 <= n < |xs| && xs[n] == kept[i];
          assert CanonicalForms(kept)[i] == t;
        }
      }
    }
  }

  /** Where deduplication is faithful, the set mode compares sets of canonical forms. */
  lemma {:induction false} FaithfulSetModeComparesSets(xs: seq<Native>, ys: seq<Native>, worth: FloatText -> real)
    requires AllHashable(xs) && AllHashable(ys) && Faithful(xs, worth) && Faithful(ys, worth)
    ensures SetModeAgrees(xs, ys, worth) <==> SetOf(CanonicalForms(xs)) == SetOf(CanonicalForms(ys))
  {
    EqualTextIsAlike(xs, worth);
    EqualTextIsAlike(ys, worth);
    DedupedTexts(xs, AlikeBy(worth));
    DedupedTexts(ys, AlikeBy(worth));
    SetsOfNoRepeats(CanonicalForms(Deduped(xs, AlikeBy(worth))), CanonicalForms(Deduped(ys, AlikeBy(worth))));
  }

  lemma {:induction false} SetsOfNoRepeats<T>(a: seq<T>, b: seq<T>)
    requires NoRepeats(a) && NoRepeats(b)
    ensures SetOf(a) == SetOf(b) <==> multiset(a) == multiset(b)
  {
    if SetOf(a) == SetOf(b) {
      forall t ensures t in a <==> t in b {
        assert t in a <==> t in SetOf(a);
        assert t in b <==> t in SetOf(b);
      }
      NoRepeatsMultiset(a, b);
    }
    if multiset(a) == multiset(b) {
      SameElements(a, b);
    }
  }

  /** Against every faithful list, the mode answers as a comparison of sets would. */
  ghost predicate ComparesAsSet(xs: seq<Native>, worth: FloatText -> real) {
    forall ys: seq<Native> :: AllHashable(ys) && Faithful(ys, worth) ==>
      (SetModeAgrees(xs, ys, worth) <==> SetOf(CanonicalForms(xs)) == SetOf(CanonicalForms(ys)))
  }

  /**
   * The set mode compares sets exactly when deduplication is faithful. An unfaithful list agrees
   * with its own deduplication, which states fewer values than it does.
   */
  lemma {:induction false} SetModeIsExactlyFaithful(xs: seq<Native>, worth: FloatText -> real)
    requires AllHashable(xs)
    ensures ComparesAsSet(xs, worth) <==> Faithful(xs, worth)
  {
    if Faithful(xs, worth) {
      forall ys: seq<Native> | AllHashable(ys) && Faithful(ys, worth)
        ensures SetModeAgrees(xs, ys, worth) <==> SetOf(CanonicalForms(xs)) == SetOf(CanonicalForms(ys))
      {
        FaithfulSetModeComparesSets(xs, ys, worth);
      }
    } else {
      EqualTextIsAlike(xs, worth);
      UnfaithfulLosesOne(xs, AlikeBy(worth));
      var kept := Deduped(xs, AlikeBy(worth));
      forall i | 0 <= i < |kept| ensures Hashable(kept[i]) {
        assert kept[i] in kept;
      }
      assert SetModeAgrees(xs, kept, worth) && Faithful(kept, worth) && AllHashable(kept);
    }
  }

  lemma {:induction false} UnfaithfulLosesOne(xs: seq<Native>, alike: (Native, Native) -> bool)
    requires TextRespected(alike, xs) && !FaithfulTo(xs, alike)
    ensures var kept := Deduped(xs, alike);
            && (forall v :: v in kept ==> v in xs)
            && Deduped(kept, alike) == kept
            && FaithfulTo(kept, alike)
            && SetOf(CanonicalForms(kept)) != SetOf(CanonicalForms(xs))
  {
    KeepsOnePerClass(xs, alike);
    DedupedAgain(Deduped(xs, alike), alike);
    SeparatedIsFaithful(Deduped(xs, alike), alike);
    LosesAText(xs, Deduped(xs, alike), alike);
  }

  lemma {:induction false} SeparatedIsFaithful(kept: seq<Native>, alike: (Native, Native) -> bool)
    requires forall x, y :: alike(x, y) ==> alike(y, x)
    requires Separated(kept, alike)
    ensures FaithfulTo(kept, alike)
  {
    forall i, j | 0 <= i < |kept| && 0 <= j < |kept| && alike(kept[i], kept[j]) ensures i == j {
      assert alike(kept[j], kept[i]);
    }
  }

  lemma {:induction false} LosesAText(xs: seq<Native>, kept: seq<Native>, alike: (Native, Native) -> bool)
    requires TextRespected(alike, xs) && !FaithfulTo(xs, alike)
    requires Separated(kept, alike) && forall v :: v in kept ==> v in xs
    ensures SetOf(CanonicalForms(kept)) != SetOf(CanonicalForms(xs))
  {
    var i, j :| 0 <= i < |xs| && 0 <= j < |xs| && alike(xs[i], xs[j]) && TextOf(xs[i]) != TextOf(xs[j]);
    assert CanonicalForms(xs)[i] in SetOf(CanonicalForms(xs));
    assert CanonicalForms(xs)[j] in SetOf(CanonicalForms(xs));
    if TextOf(xs[i]) in CanonicalForms(kept) && TextOf(xs[j]) in CanonicalForms(kept) {
      OneTextPerClass(xs, kept, xs[i], xs[j], alike);
    }
  }

  lemma {:induction false} OneTextPerClass(
      xs: seq<Native>, kept: seq<Native>, x: Native, y: Native, alike: (Native, Native) -> bool)
    requires TextRespected(alike, xs) && Separated(kept, alike) && forall v :: v in kept ==> v in xs
    requires alike(x, y) && TextOf(x) in CanonicalForms(kept) && TextOf(y) in CanonicalForms(kept)
    ensures TextOf(x) == TextOf(y)
  {
    var a :| 0 <= a < |kept| && TextOf(kept[a]) == TextOf(x);
    var b :| 0 <= b < |kept| && TextOf(kept[b]) == TextOf(y);
    assert kept[a] in kept && kept[b] in kept;
    assert alike(kept[a], x) && alike(kept[b], y);
    assert alike(kept[a], kept[b]) && alike(kept[b], kept[a]);
  }

  /** Each mode is at least as strict as the next. */
  lemma {:induction false} OrderedMultisetSet(xs: seq<Native>, ys: seq<Native>, worth: FloatText -> real)
    requires AllHashable(xs) && AllHashable(ys) && Faithful(xs, worth) && Faithful(ys, worth)
    ensures CanonicalForms(xs) == CanonicalForms(ys) ==>
              multiset(CanonicalForms(xs)) == multiset(CanonicalForms(ys))
    ensures multiset(CanonicalForms(xs)) == multiset(CanonicalForms(ys)) ==> SetModeAgrees(xs, ys, worth)
  {
    FaithfulSetModeComparesSets(xs, ys, worth);
    var a, b := CanonicalForms(xs), CanonicalForms(ys);
    if multiset(a) == multiset(b) {
      SameElements(a, b);
      assert SetOf(a) == SetOf(b);
    }
  }

  /** The multiset mode agrees on these two lists and the set mode does not: `True == 1` in Python. */
  lemma {:induction false} BooleansAndIntegersCollide(worth: FloatText -> real)
    ensures var one: Native, yes: Native := Int(1), Bool(true);
            && AllHashable([one, yes])
            && !Faithful([one, yes], worth)
            && multiset(CanonicalForms([one, yes])) == multiset(CanonicalForms([yes, one]))
            && !SetModeAgrees([one, yes], [yes, one], worth)
  {
    var one: Native, yes: Native := Int(1), Bool(true);
    CanonicalIsIdentity(one, yes);
    assert Alike(one, yes, worth) && Alike(yes, one, worth);
    AlikePairCollides(one, yes, AlikeBy(worth));
  }

  lemma {:induction false} AlikePairCollides(x: Native, y: Native, alike: (Native, Native) -> bool)
    requires alike(x, y) && alike(y, x) && TextOf(x) != TextOf(y)
    ensures !FaithfulTo([x, y], alike)
    ensures multiset(CanonicalForms([x, y])) == multiset(CanonicalForms([y, x]))
    ensures multiset(CanonicalForms(Deduped([x, y], alike))) != multiset(CanonicalForms(Deduped([y, x], alike)))
  {
    assert alike([x, y][0], [x, y][1]);
    FormsOfPair(x, y);
    DedupedPair(x, y, alike);
    DedupedPair(y, x, alike);
    FormOfOne(x);
    FormOfOne(y);
    SinglesApart(TextOf(y), TextOf(x));
  }

  lemma {:induction false} FormOfOne(x: Native)
    ensures CanonicalForms([x]) == [TextOf(x)]
  {}

  lemma {:induction false} FormsOfPair(x: Native, y: Native)
    ensures multiset(CanonicalForms([x, y])) == multiset(CanonicalForms([y, x]))
  {
    assert CanonicalForms([x, y]) == [TextOf(x)] + [TextOf(y)];
    assert CanonicalForms([y, x]) == [TextOf(y)] + [TextOf(x)];
  }

  lemma {:induction false} SinglesApart<T>(a: T, b: T)
    requires a != b
    ensures multiset([a]) != multiset([b])
  {
    assert multiset([a])[a] == 1 && multiset([b])[a] == 0;
  }

  predicate IsNative(v: Value) { Storable(v) && NoTuples(v) }

  /** `{"a": 1}` and `[["a", 1]]` have one hash key between them, and are not one value. */
  lemma {:induction false} MappingCollidesWithPairs(name: Text, atom: Value)
    requires StorableText(name) && IsNative(atom) && IsAtom(atom)
    ensures var mapping, pairs := Dict([Entry(Name(name), atom)]), List([List([Str(name), atom])]);
            && IsNative(mapping) && IsNative(pairs)
            && MakeHashable(mapping) == MakeHashable(pairs) && MakeHashable(pairs).Some?
            && !Same(mapping, pairs)
  {
    var es, ps := [Entry(Name(name), atom)], [Pair(name, atom)];
    var inner := [Str(name), atom];
    assert EntriesStorable(es) && AllStorable(inner);
    assert Storable(List(inner)) && NoTuples(List(inner));
    assert AllStorable([List(inner)]);
    assert Pairs(es) == ps && ps[1..] == [];
    assert SortBy(ps[1..], PairName, TextLe) == [];
    assert SortBy(ps, PairName, TextLe) == ps;
    assert Keys(ps, PairKey) == [PairKey(ps[0])];
    HashableOne(atom);
    assert inner[1..] == [atom];
    assert HashableItems(inner) == Some([Atom(Str(name))] + [Atom(atom)]);
    assert [Atom(Str(name))] + [Atom(atom)] == [Atom(Str(name)), Atom(atom)];
    assert MakeHashable(List(inner)) == Some(Parts([Atom(Str(name)), Atom(atom)]));
    HashableOne(List(inner));
  }

  lemma {:induction false} HashableOne(v: Value)
    requires Encodable(v)
    ensures HashableItems([v]) == match MakeHashable(v) case None => None case Some(k) => Some([k])
  {
    assert [v][1..] == [];
    assert HashableItems([]) == Some([]);
    assert HashableItems([v][1..]) == Some([]);
    if MakeHashable(v).Some? { assert [MakeHashable(v).value] + [] == [MakeHashable(v).value]; }
  }

  /** Which scalars the set mode cannot tell apart: numbers of one worth, true being 1 and false 0; anything else only from itself. */
  lemma {:induction false} ScalarsAlikeExactly(x: Native, y: Native, worth: FloatText -> real)
    requires IsAtom(x) && IsAtom(y)
    ensures Alike(x, y, worth) <==>
            x == y || (Numeric(x) && Numeric(y) && Worth(x, worth) == Worth(y, worth))
  {}

  function Worth(v: Value, worth: FloatText -> real): real
    requires Numeric(v)
  {
    if v == Bool(true) then 1.0 else if v == Bool(false) then 0.0 else if v.Int? then v.n as real else worth(v.text)
  }

  // ---------------------------------------------------------------- what has no hash

  /** From `v`, one list position after another, to `w`. */
  predicate ListedWithin(v: Value, at: seq<nat>, w: Value)
    decreases |at|
  {
    if at == [] then w == v
    else v.List? && at[0] < |v.items| && ListedWithin(v.items[at[0]], at[1..], w)
  }

  predicate HoldsStructure(v: Value) { v.Dict? && !AllAtoms(v.entries) }

  /** At some depth of lists, a mapping that holds a list or a mapping. */
  ghost predicate HasNestedMapping(v: Value) { exists at, w :: ListedWithin(v, at, w) && HoldsStructure(w) }

  lemma {:induction false} HashableItemsExactly(vs: seq<Value>)
    requires AllEncodable(vs)
    ensures HashableItems(vs).Some? <==> forall i :: 0 <= i < |vs| ==> MakeHashable(vs[i]).Some?
  {
    if vs != [] {
      HashableItemsExactly(vs[1..]);
      assert forall i :: 0 < i < |vs| ==> vs[i] == vs[1..][i - 1];
    }
  }

  lemma {:induction false} NestedBelow(v: Value, i: nat)
    requires v.List? && i < |v.items| && HasNestedMapping(v.items[i])
    ensures HasNestedMapping(v)
  {
    var at, w :| ListedWithin(v.items[i], at, w) && HoldsStructure(w);
    assert ([i] + at)[1..] == at;
    assert ListedWithin(v, [i] + at, w);
  }

  lemma {:induction false} NestedAbove(v: Value) returns (i: nat)
    requires v.List? && HasNestedMapping(v)
    ensures i < |v.items| && HasNestedMapping(v.items[i])
  {
    var at, w :| ListedWithin(v, at, w) && HoldsStructure(w);
    i := at[0];
    assert ListedWithin(v.items[i], at[1..], w);
  }

  /** A value has no hash exactly when, however deep in lists, it has a mapping that holds a list or a mapping. */
  lemma {:induction false} UnhashableExactly(v: Value)
    requires Encodable(v)
    ensures MakeHashable(v) == None <==> HasNestedMapping(v)
  {
    if v.List? {
      assert AllEncodable(v.items);
      forall i | 0 <= i < |v.items| ensures MakeHashable(v.items[i]) == None <==> HasNestedMapping(v.items[i]) {
        UnhashableExactly(v.items[i]);
      }
      HashableItemsExactly(v.items);
      if HasNestedMapping(v) { var i := NestedAbove(v); }
      if i :| 0 <= i < |v.items| && HasNestedMapping(v.items[i]) { NestedBelow(v, i); }
    } else {
      assert ListedWithin(v, [], v);
      assert HasNestedMapping(v) <==> HoldsStructure(v);
    }
  }
}
