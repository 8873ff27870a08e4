/**
 * `recurse(N)`: drill N levels into two objects and name where they first differ.
 * The depth changes what the answer names, never what the answer is.
 */
module Divergence {
  import opened Options
  import opened Sorting
  import opened Texts
  import opened Values
  import opened CanonicalForm
  import opened Identity

  const FULL_RECURSION := -1
  const ROOT_PATH: Text := AsText("<root>")
  const DOT: Text := AsText(".")

  /** Where `es` states `key`. */
  function Find(es: seq<Entry>, key: Text): (r: Option<nat>)
    ensures r.Some? ==> r.value < |es| && es[r.value].key == Name(key)
    ensures r == None ==> forall i :: 0 <= i < |es| ==> es[i].key != Name(key)
  {
    if es == [] then None
    else if es[0].key == Name(key) then Some(0)
    else match Find(es[1..], key) case None => None case Some(i) => Some(i + 1)
  }

  function Names(es: seq<Entry>): (ks: seq<Text>)
    requires NamedKeys(es)
    ensures |ks| == |es| && forall i :: 0 <= i < |es| ==> ks[i] == es[i].key.name
  {
    seq(|es|, i requires 0 <= i < |es| => es[i].key.name)
  }

  /** The keys of `fs` that `es` does not state. */
  function Extra(es: seq<Entry>, fs: seq<Entry>): seq<Text>
    requires NamedKeys(fs)
  {
    if fs == [] then []
    else (if Find(es, fs[0].key.name).Some? then [] else [fs[0].key.name]) + Extra(es, fs[1..])
  }

  /** `sorted(set(declared) | set(discovered))` */
  function AllKeys(es: seq<Entry>, fs: seq<Entry>): seq<Text>
    requires NamedKeys(es) && NamedKeys(fs)
  {
    SortBy(Names(es) + Extra(es, fs), Itself, TextLe)
  }

  predicate Drillable(d: Value, c: Value, depth: int) {
    depth != 0 && d.Dict? && c.Dict?
  }

  function Remaining(depth: int): int {
    if depth == FULL_RECURSION then FULL_RECURSION else depth - 1
  }

  function JoinedPath(path: Text, key: Text): Text {
    if path == [] then key else path + DOT + key
  }

  /** The path of the first difference in sorted key order, or None if the values agree. */
  function FirstDivergence(d: Value, c: Value, depth: int, path: Text): Option<Text>
    requires Encodable(d) && Encodable(c)
    decreases d, 1
  {
    if Drillable(d, c, depth) then
      assert EntriesEncodable(d.entries) && EntriesEncodable(c.entries);
      DivergenceAmong(AllKeys(d.entries, c.entries), d, c, Remaining(depth), path)
    else if Canonical(d) == Canonical(c) then None
    else Some(if path == [] then ROOT_PATH else path)
  }

  function DivergenceAmong(keys: seq<Text>, d: Value, c: Value, remaining: int, path: Text): Option<Text>
    requires Encodable(d) && Encodable(c) && d.Dict? && c.Dict?
    decreases d, 0, |keys|
  {
    if keys == [] then None
    else
      var child := JoinedPath(path, keys[0]);
      var i, j := Find(d.entries, keys[0]), Find(c.entries, keys[0]);
      if i == None || j == None then Some(child)
      else
        match FirstDivergence(FieldOf(d, i.value), FieldOf(c, j.value), remaining, child)
        case Some(found) => Some(found)
        case None => DivergenceAmong(keys[1..], d, c, remaining, path)
  }

  // ---------------------------------------------------------------- the verdict

  lemma {:induction false} ExtraKeys(es: seq<Entry>, fs: seq<Entry>, key: Text)
    requires NamedKeys(es) && NamedKeys(fs)
    ensures key in Extra(es, fs) <==> Find(fs, key).Some? && Find(es, key) == None
  {
    if fs != [] { ExtraKeys(es, fs[1..], key); }
  }

  lemma {:induction false} KeyIsListed(es: seq<Entry>, fs: seq<Entry>, key: Text)
    requires NamedKeys(es) && NamedKeys(fs)
    ensures key in AllKeys(es, fs) <==> Find(es, key).Some? || Find(fs, key).Some?
  {
    var all := Names(es) + Extra(es, fs);
    SortByKeepsElements(all, Itself, TextLe);
    ExtraKeys(es, fs, key);
    assert key in all <==> key in Names(es) || key in Extra(es, fs);
    if Find(es, key).Some? {
      assert Names(es)[Find(es, key).value] == key;
    }
    if key in Names(es) {
      var i :| 0 <= i < |es| && Names(es)[i] == key;
      assert es[i].key == Name(key);
    }
  }

  lemma {:induction false} FindIsUnique(es: seq<Entry>, i: nat)
    requires DistinctKeys(es) && i < |es| && es[i].key.Name?
    ensures Find(es, es[i].key.name) == Some(i)
  {}

  /** Both objects state `key`, and no difference is found below it. */
  ghost predicate NoneBelow(d: Value, c: Value, remaining: int, path: Text, key: Text)
    requires Encodable(d) && Encodable(c) && d.Dict? && c.Dict?
  {
    var i, j := Find(d.entries, key), Find(c.entries, key);
    && i.Some?
    && j.Some?
    && FirstDivergence(FieldOf(d, i.value), FieldOf(c, j.value), remaining, JoinedPath(path, key)) == None
  }

  lemma {:induction false} NoneFirst(keys: seq<Text>, d: Value, c: Value, remaining: int, path: Text)
    requires Encodable(d) && Encodable(c) && d.Dict? && c.Dict? && keys != []
    ensures DivergenceAmong(keys, d, c, remaining, path) == None <==>
            NoneBelow(d, c, remaining, path, keys[0]) && DivergenceAmong(keys[1..], d, c, remaining, path) == None
  {}

  lemma {:induction false} NoneAmong(keys: seq<Text>, d: Value, c: Value, remaining: int, path: Text)
    requires Encodable(d) && Encodable(c) && d.Dict? && c.Dict?
    ensures DivergenceAmong(keys, d, c, remaining, path) == None <==>
            forall k :: 0 <= k < |keys| ==> NoneBelow(d, c, remaining, path, keys[k])
  {
    if keys != [] {
      NoneAmong(keys[1..], d, c, remaining, path);
      NoneFirst(keys, d, c, remaining, path);
      if NoneBelow(d, c, remaining, path, keys[0]) && DivergenceAmong(keys[1..], d, c, remaining, path) == None {
        forall k | 0 <= k < |keys| ensures NoneBelow(d, c, remaining, path, keys[k]) {
          if k > 0 { assert keys[k] == keys[1..][k - 1]; }
        }
      }
      if forall k :: 0 <= k < |keys| ==> NoneBelow(d, c, remaining, path, keys[k]) {
        forall k | 0 <= k < |keys| - 1 ensures NoneBelow(d, c, remaining, path, keys[1..][k]) {
          assert keys[1..][k] == keys[k + 1];
        }
      }
    }
  }

  /** At every depth the verdict is whole-value identity. */
  lemma {:induction false} DivergenceDecidesSameness(d: Value, c: Value, depth: int, path: Text)
    requires Storable(d) && Storable(c)
    ensures FirstDivergence(d, c, depth, path) == None <==> Same(d, c)
    decreases d, 1
  {
    if Drillable(d, c, depth) {
      var keys := AllKeys(d.entries, c.entries);
      NoneAmong(keys, d, c, Remaining(depth), path);
      if forall k :: 0 <= k < |keys| ==> NoneBelow(d, c, Remaining(depth), path, keys[k]) {
        AgreementBuildsSameness(d, c, Remaining(depth), path);
      }
      if Same(d, c) {
        forall k | 0 <= k < |keys| ensures NoneBelow(d, c, Remaining(depth), path, keys[k]) {
          SamenessAgreesBelow(d, c, Remaining(depth), path, keys[k]);
        }
      }
    } else {
      CanonicalIsIdentity(d, c);
    }
  }

  /** The recursion depth is for the audit trail: `recurse(N)` and `opaque` never disagree. */
  lemma {:induction false} RecurseIsOpaque(d: Value, c: Value, depth: int, path: Text)
    requires Storable(d) && Storable(c)
    ensures FirstDivergence(d, c, depth, path) == None <==> Canonical(d) == Canonical(c)
  {
    DivergenceDecidesSameness(d, c, depth, path);
    CanonicalIsIdentity(d, c);
  }

  lemma {:induction false} AgreementBuildsSameness(d: Value, c: Value, remaining: int, path: Text)
    requires Storable(d) && Storable(c) && d.Dict? && c.Dict?
    requires forall k :: 0 <= k < |AllKeys(d.entries, c.entries)| ==>
               NoneBelow(d, c, remaining, path, AllKeys(d.entries, c.entries)[k])
    ensures Same(d, c)
    decreases d, 0
  {
    var es, fs := d.entries, c.entries;
    forall i | 0 <= i < |es| ensures AgreesWithin(es[i], fs) {
      FindIsUnique(es, i);
      KeyIsListed(es, fs, es[i].key.name);
      assert NoneBelow(d, c, remaining, path, es[i].key.name);
      var j := Find(fs, es[i].key.name).value;
      DivergenceDecidesSameness(FieldOf(d, i), FieldOf(c, j), remaining, JoinedPath(path, es[i].key.name));
    }
    forall j | 0 <= j < |fs| ensures AgreedBy(es, fs[j]) {
      FindIsUnique(fs, j);
      KeyIsListed(es, fs, fs[j].key.name);
      assert NoneBelow(d, c, remaining, path, fs[j].key.name);
      var i := Find(es, fs[j].key.name).value;
      DivergenceDecidesSameness(FieldOf(d, i), FieldOf(c, j), remaining, JoinedPath(path, fs[j].key.name));
    }
  }

  lemma {:induction false} BothState(es: seq<Entry>, fs: seq<Entry>, key: Text)
    requires forall j :: 0 <= j < |fs| ==> AgreedBy(es, fs[j])
    requires Find(es, key).Some? || Find(fs, key).Some?
    ensures Find(es, key).Some?
  {
    if Find(fs, key).Some? {
      assert AgreedBy(es, fs[Find(fs, key).value]);
    }
  }

  lemma {:induction false} SamenessAgreesBelow(d: Value, c: Value, remaining: int, path: Text, key: Text)
    requires Storable(d) && Storable(c) && d.Dict? && c.Dict? && Same(d, c)
    requires key in AllKeys(d.entries, c.entries)
    ensures NoneBelow(d, c, remaining, path, key)
    decreases d, 0
  {
    var es, fs := d.entries, c.entries;
    KeyIsListed(es, fs, key);
    BothState(es, fs, key);
    var i := Find(es, key).value;
    assert AgreesWithin(es[i], fs);
    var j :| 0 <= j < |fs| && es[i].key == fs[j].key && Same(es[i].value, fs[j].value);
    FindIsUnique(fs, j);
    DivergenceDecidesSameness(FieldOf(d, i), FieldOf(c, j), remaining, JoinedPath(path, key));
  }

  // ---------------------------------------------------------------- what the verdict names

  /** Following `keys` from the roots leads to a place the drill would call different. */
  ghost predicate DivergesAt(d: Value, c: Value, depth: int, keys: seq<Text>)
    decreases |keys|
  {
    if !Drillable(d, c, depth) then
      keys == [] && !Same(d, c)
    else
      && keys != []
      && var i, j := Find(d.entries, keys[0]), Find(c.entries, keys[0]);
         if i.Some? && j.Some? then
           DivergesAt(d.entries[i.value].value, c.entries[j.value].value, Remaining(depth), keys[1..])
         else
           (i.Some? || j.Some?) && |keys| == 1
  }

  /** How such a place is reported, given the path walked so far. */
  function Report(d: Value, c: Value, depth: int, keys: seq<Text>, path: Text): Text
    decreases |keys|
  {
    if keys == [] then (if path == [] then ROOT_PATH else path)
    else
      var child := JoinedPath(path, keys[0]);
      if !Drillable(d, c, depth) then child
      else
        var i, j := Find(d.entries, keys[0]), Find(c.entries, keys[0]);
        if i.Some? && j.Some? then
          Report(d.entries[i.value].value, c.entries[j.value].value, Remaining(depth), keys[1..], child)
        else child
  }

  /** Depth-first order over key paths, keys compared as text. */
  predicate NoLater(p: seq<Text>, q: seq<Text>) {
    p == [] ||
    (q != [] && (if p[0] == q[0] then NoLater(p[1..], q[1..]) else TextLe(p[0], q[0])))
  }

  /** What a drill over `keys` in turn would find, among the places below those keys. */
  ghost predicate FirstAmong(
      keys: seq<Text>, d: Value, c: Value, depth: int, path: Text, found: Option<Text>, at: seq<Text>)
  {
    && (found.Some? ==>
          && DivergesAt(d, c, depth, at)
          && at != [] && at[0] in keys
          && found.value == Report(d, c, depth, at, path)
          && forall other :: DivergesAt(d, c, depth, other) && other != [] && other[0] in keys ==> NoLater(at, other))
    && (found == None ==>
          forall other :: DivergesAt(d, c, depth, other) && other != [] ==> other[0] !in keys)
  }

  lemma {:induction false} FirstAmongKeys(
      keys: seq<Text>, d: Value, c: Value, depth: int, path: Text) returns (at: seq<Text>)
    requires Storable(d) && Storable(c) && Drillable(d, c, depth)
    requires Ascending(keys, TextLe)
    requires forall k :: k in keys ==> Find(d.entries, k).Some? || Find(c.entries, k).Some?
    ensures FirstAmong(keys, d, c, depth, path, DivergenceAmong(keys, d, c, Remaining(depth), path), at)
    decreases d, 0, |keys|
  {
    at := [];
    if keys != [] {
      var key, child := keys[0], JoinedPath(path, keys[0]);
      var i, j := Find(d.entries, key), Find(c.entries, key);
      if i == None || j == None {
        at := [key];
        MissingKeyIsFirst(keys, d, c, depth, path);
      } else {
        var below := FirstDivergenceIsFirst(FieldOf(d, i.value), FieldOf(c, j.value), Remaining(depth), child);
        if FirstDivergence(FieldOf(d, i.value), FieldOf(c, j.value), Remaining(depth), child).Some? {
          at := [key] + below;
          BelowKeyIsFirst(keys, d, c, depth, path, below);
        } else {
          assert Ascending(keys[1..], TextLe);
          at := FirstAmongKeys(keys[1..], d, c, depth, path);
          SkipsKey(keys, d, c, depth, path, at);
        }
      }
    }
  }

  lemma {:induction false} MissingKeyIsFirst(keys: seq<Text>, d: Value, c: Value, depth: int, path: Text)
    requires Storable(d) && Storable(c) && Drillable(d, c, depth)
    requires keys != [] && Ascending(keys, TextLe)
    requires Find(d.entries, keys[0]).Some? || Find(c.entries, keys[0]).Some?
    requires Find(d.entries, keys[0]) == None || Find(c.entries, keys[0]) == None
    ensures FirstAmong(keys, d, c, depth, path, DivergenceAmong(keys, d, c, Remaining(depth), path), [keys[0]])
  {
    forall other | DivergesAt(d, c, depth, other) && other != [] && other[0] in keys
      ensures NoLater([keys[0]], other)
    {
      HeadIsLeast(keys, other[0]);
    }
  }

  lemma {:induction false} BelowKeyIsFirst(
      keys: seq<Text>, d: Value, c: Value, depth: int, path: Text, below: seq<Text>)
    requires Storable(d) && Storable(c) && Drillable(d, c, depth)
    requires keys != [] && Ascending(keys, TextLe)
    requires Find(d.entries, keys[0]).Some? && Find(c.entries, keys[0]).Some?
    requires var dv, cv := FieldOf(d, Find(d.entries, keys[0]).value), FieldOf(c, Find(c.entries, keys[0]).value);
             var child := JoinedPath(path, keys[0]);
             && DivergesAt(dv, cv, Remaining(depth), below)
             && FirstDivergence(dv, cv, Remaining(depth), child)
                == Some(Report(dv, cv, Remaining(depth), below, child))
             && forall other :: DivergesAt(dv, cv, Remaining(depth), other) ==> NoLater(below, other)
    ensures FirstAmong(keys, d, c, depth, path,
                       DivergenceAmong(keys, d, c, Remaining(depth), path), [keys[0]] + below)
  {
    var at := [keys[0]] + below;
    Prepended(d, c, depth, keys[0], below, path);
    forall other | DivergesAt(d, c, depth, other) && other != [] && other[0] in keys
      ensures NoLater(at, other)
    {
      HeadIsLeast(keys, other[0]);
      if other[0] == keys[0] { DivergesBelow(d, c, depth, other); }
      NoLaterBelow(keys[0], below, other);
    }
  }

  lemma {:induction false} DivergesBelow(d: Value, c: Value, depth: int, keys: seq<Text>)
    requires Drillable(d, c, depth) && keys != [] && DivergesAt(d, c, depth, keys)
    requires Find(d.entries, keys[0]).Some? && Find(c.entries, keys[0]).Some?
    ensures DivergesAt(d.entries[Find(d.entries, keys[0]).value].value, c.entries[Find(c.entries, keys[0]).value].value,
                       Remaining(depth), keys[1..])
  {}

  lemma {:induction false} NoLaterBelow(key: Text, below: seq<Text>, other: seq<Text>)
    requires other != []
    requires if other[0] == key then NoLater(below, other[1..]) else TextLe(key, other[0])
    ensures NoLater([key] + below, other)
  {
    assert ([key] + below)[1..] == below;
  }

  /** One key further up, the same place diverges and is reported the same way. */
  lemma {:induction false} Prepended(d: Value, c: Value, depth: int, key: Text, below: seq<Text>, path: Text)
    requires Drillable(d, c, depth) && Find(d.entries, key).Some? && Find(c.entries, key).Some?
    ensures var dv, cv := d.entries[Find(d.entries, key).value].value, c.entries[Find(c.entries, key).value].value;
            && (DivergesAt(d, c, depth, [key] + below) <==> DivergesAt(dv, cv, Remaining(depth), below))
            && Report(d, c, depth, [key] + below, path) == Report(dv, cv, Remaining(depth), below, JoinedPath(path, key))
  {
    assert ([key] + below)[1..] == below;
  }

  lemma {:induction false} HeadIsLeast(keys: seq<Text>, k: Text)
    requires Ascending(keys, TextLe) && k in keys
    ensures k == keys[0] || TextLe(keys[0], k)
  {
    var n :| 0 <= n < |keys| && keys[n] == k;
    if n > 0 { assert TextLe(keys[0], keys[n]); }
  }

  lemma {:induction false} SkipsKey(keys: seq<Text>, d: Value, c: Value, depth: int, path: Text, at: seq<Text>)
    requires Storable(d) && Storable(c) && Drillable(d, c, depth) && keys != []
    requires var i, j := Find(d.entries, keys[0]), Find(c.entries, keys[0]);
             && i.Some?
             && j.Some?
             && FirstDivergence(FieldOf(d, i.value), FieldOf(c, j.value), Remaining(depth),
                                JoinedPath(path, keys[0])) == None
    requires FirstAmong(keys[1..], d, c, depth, path, DivergenceAmong(keys[1..], d, c, Remaining(depth), path), at)
    ensures FirstAmong(keys, d, c, depth, path, DivergenceAmong(keys, d, c, Remaining(depth), path), at)
  {
    var dv := FieldOf(d, Find(d.entries, keys[0]).value);
    var cv := FieldOf(c, Find(c.entries, keys[0]).value);
    DivergenceDecidesSameness(dv, cv, Remaining(depth), JoinedPath(path, keys[0]));
    forall other | DivergesAt(d, c, depth, other) && other != [] ensures other[0] != keys[0] {
      if other[0] == keys[0] {
        SameNeverDiverges(dv, cv, Remaining(depth), other[1..]);
      }
    }
    assert forall k :: k in keys && k != keys[0] ==> k in keys[1..];
  }

  lemma {:induction false} SameNeverDiverges(d: Value, c: Value, depth: int, keys: seq<Text>)
    requires Storable(d) && Storable(c) && Same(d, c)
    ensures !DivergesAt(d, c, depth, keys)
    decreases |keys|
  {
    if Drillable(d, c, depth) && keys != [] {
      var es, fs := d.entries, c.entries;
      var i, j := Find(es, keys[0]), Find(fs, keys[0]);
      if i.Some? {
        assert AgreesWithin(es[i.value], fs);
        var n :| 0 <= n < |fs| && es[i.value].key == fs[n].key && Same(es[i.value].value, fs[n].value);
        FindIsUnique(fs, n);
        SameNeverDiverges(FieldOf(d, i.value), FieldOf(c, n), Remaining(depth), keys[1..]);
      } else if j.Some? {
        assert AgreedBy(es, fs[j.value]);
      }
    }
  }

  /** On disagreement, the place named is a real difference and every earlier place agrees. */
  lemma {:induction false} FirstDivergenceIsFirst(
      d: Value, c: Value, depth: int, path: Text) returns (at: seq<Text>)
    requires Storable(d) && Storable(c)
    ensures FirstDivergence(d, c, depth, path).Some? ==>
              && DivergesAt(d, c, depth, at)
              && FirstDivergence(d, c, depth, path) == Some(Report(d, c, depth, at, path))
              && forall other :: DivergesAt(d, c, depth, other) ==> NoLater(at, other)
    decreases d, 1
  {
    if Drillable(d, c, depth) {
      var all := Names(d.entries) + Extra(d.entries, c.entries);
      var keys := AllKeys(d.entries, c.entries);
      TextOrder();
      SortByAscends(all, Itself, TextLe);
      KeysOfItself(keys);
      forall k ensures k in keys <==> Find(d.entries, k).Some? || Find(c.entries, k).Some? {
        KeyIsListed(d.entries, c.entries, k);
      }
      at := FirstAmongKeys(keys, d, c, depth, path);
    } else {
      at := [];
      CanonicalIsIdentity(d, c);
    }
  }

  // ---------------------------------------------------------------- what is named, and how

  /** The value reached by following keys down through mappings. */
  function Followed(v: Value, keys: seq<Text>): Option<Value>
    decreases |keys|
  {
    if keys == [] then Some(v)
    else if !v.Dict? then None
    else match Find(v.entries, keys[0])
         case None => None
         case Some(i) => Followed(v.entries[i].value, keys[1..])
  }

  predicate IsMapping(v: Option<Value>) { v.Some? && v.value.Dict? }

  /** Both objects lead there, to values that differ and that the drill looks no deeper into. */
  ghost predicate DifferentValues(d: Value, c: Value, depth: int, keys: seq<Text>) {
    var v, w := Followed(d, keys), Followed(c, keys);
    v.Some? && w.Some? && !Same(v.value, w.value) && (|keys| == depth || !(IsMapping(v) && IsMapping(w)))
  }

  /** Both objects lead to a mapping, and one of the two has the last key. */
  predicate OneSided(d: Value, c: Value, keys: seq<Text>) {
    && keys != []
    && IsMapping(Followed(d, keys[..|keys| - 1])) && IsMapping(Followed(c, keys[..|keys| - 1]))
    && Followed(d, keys).Some? != Followed(c, keys).Some?
  }

  lemma {:induction false} FollowedThrough(v: Value, keys: seq<Text>)
    requires |keys| > 1 && v.Dict?
    ensures var i := Find(v.entries, keys[0]);
            && Followed(v, keys) == (if i == None then None else Followed(v.entries[i.value].value, keys[1..]))
            && Followed(v, keys[..|keys| - 1]) ==
               (if i == None then None else Followed(v.entries[i.value].value, keys[1..][..|keys| - 2]))
  {
    assert keys[..|keys| - 1][1..] == keys[1..][..|keys| - 2];
  }

  /** Below a key both state, the objects differ where what they state under it does. */
  lemma {:induction false} DifferBelow(d: Value, c: Value, depth: int, keys: seq<Text>, v: Value, w: Value)
    requires keys != [] && d.Dict? && c.Dict? && depth != 0 && depth >= FULL_RECURSION
    requires Find(d.entries, keys[0]).Some? && d.entries[Find(d.entries, keys[0]).value].value == v
    requires Find(c.entries, keys[0]).Some? && c.entries[Find(c.entries, keys[0]).value].value == w
    ensures DifferentValues(d, c, depth, keys) <==> DifferentValues(v, w, Remaining(depth), keys[1..])
    ensures OneSided(d, c, keys) <==> OneSided(v, w, keys[1..])
  {
    if |keys| > 1 {
      FollowedThrough(d, keys);
      FollowedThrough(c, keys);
    } else {
      assert keys[1..] == [];
    }
  }

  /** A drill of some depth calls a place different exactly when it is no deeper than that and the objects differ there. */
  lemma {:induction false} DivergesExactly(d: Value, c: Value, depth: int, keys: seq<Text>)
    requires depth >= FULL_RECURSION
    ensures DivergesAt(d, c, depth, keys) <==>
            (depth == -1 || |keys| <= depth) && (DifferentValues(d, c, depth, keys) || OneSided(d, c, keys))
    decreases |keys|
  {
    if keys != [] && Drillable(d, c, depth) {
      var i, j := Find(d.entries, keys[0]), Find(c.entries, keys[0]);
      if i.Some? && j.Some? {
        var v, w := d.entries[i.value].value, c.entries[j.value].value;
        DivergesExactly(v, w, Remaining(depth), keys[1..]);
        DifferBelow(d, c, depth, keys, v, w);
      } else if |keys| > 1 {
        FollowedThrough(d, keys);
        FollowedThrough(c, keys);
      } else {
        assert keys[..|keys| - 1] == [] && keys[1..] == [];
        assert Followed(d, keys).Some? == i.Some? && Followed(c, keys).Some? == j.Some?;
      }
    } else if |keys| > 1 {
      NotThroughScalars(d, keys);
      NotThroughScalars(c, keys);
    } else if |keys| == 1 {
      assert keys[..0] == [];
    }
  }

  lemma {:induction false} NotThroughScalars(v: Value, keys: seq<Text>)
    requires |keys| > 1
    ensures !v.Dict? ==> Followed(v, keys) == None && Followed(v, keys[..|keys| - 1]) == None
  {}

  /** Keys after a path, each joined with a dot. */
  function Dotted(path: Text, keys: seq<Text>): Text
    decreases |keys|
  {
    if keys == [] then path
    else Dotted(if path == [] then keys[0] else path + AsText(".") + keys[0], keys[1..])
  }

  /** A place is named by its keys joined with dots, and the objects themselves as the root. */
  lemma {:induction false} ReportIsDotted(d: Value, c: Value, depth: int, keys: seq<Text>, path: Text)
    requires DivergesAt(d, c, depth, keys)
    ensures Dotted(path, keys) != [] ==> Report(d, c, depth, keys, path) == Dotted(path, keys)
    ensures keys == [] && path == [] ==> Report(d, c, depth, keys, path) == AsText("<root>")
    decreases |keys|
  {
    if keys != [] {
      var i, j := Find(d.entries, keys[0]), Find(c.entries, keys[0]);
      if i.Some? && j.Some? {
        ReportIsDotted(d.entries[i.value].value, c.entries[j.value].value, Remaining(depth), keys[1..], JoinedPath(path, keys[0]));
      } else {
        assert keys[1..] == [];
      }
    }
  }
}
