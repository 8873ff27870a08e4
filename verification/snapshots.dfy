/** One resource as one plane sees it, and the identities it is known by. */
module Snapshots {
  import opened Options
  import opened Sorting
  import opened Texts
  import opened Values
  import opened Planes
  import opened Divergence

  datatype NaturalKey = NaturalKey(kind: Text, tenant: Text, scope: Text, name: Text)

  datatype Snapshot = Snapshot(key: NaturalKey, providerId: Option<Text>, attributes: seq<Entry>)
  {
    /** This plane's statement about one field, absence included. */
    function PlaneValueOf(field: Text): PlaneValue {
      match Find(attributes, field)
      case None => Absent
      case Some(i) => Of(attributes[i].value)
    }
  }

  /** What the barricade admits: attribute names are distinct strings and every value is storable. */
  ghost predicate Admitted(s: Snapshot) { EntriesStorable(s.attributes) }

  function KeyOfSnapshot(s: Snapshot): NaturalKey { s.key }
  function ProviderOf(s: Snapshot): Option<Text> { s.providerId }

  /** Python's order on the tuple (kind, tenant, scope, name). */
  predicate KeyLe(a: NaturalKey, b: NaturalKey) {
    if a.kind != b.kind then TextLe(a.kind, b.kind)
    else if a.tenant != b.tenant then TextLe(a.tenant, b.tenant)
    else if a.scope != b.scope then TextLe(a.scope, b.scope)
    else TextLe(a.name, b.name)
  }

  lemma {:induction false} KeyOrder()
    ensures TotalOrder(KeyLe)
  {
    TextOrder();
    forall a, b ensures KeyLe(a, b) || KeyLe(b, a) {
      assert TextLe(a.kind, b.kind) || TextLe(b.kind, a.kind);
      assert TextLe(a.tenant, b.tenant) || TextLe(b.tenant, a.tenant);
      assert TextLe(a.scope, b.scope) || TextLe(b.scope, a.scope);
      assert TextLe(a.name, b.name) || TextLe(b.name, a.name);
    }
    forall a, b | KeyLe(a, b) && KeyLe(b, a) ensures a == b { KeyLeAntisymmetric(a, b); }
    forall a, b, c | KeyLe(a, b) && KeyLe(b, c) ensures KeyLe(a, c) { KeyLeTransitive(a, b, c); }
  }

  lemma {:induction false} KeyLeAntisymmetric(a: NaturalKey, b: NaturalKey)
    requires KeyLe(a, b) && KeyLe(b, a)
    ensures a == b
  {
    TextOrder();
    assert TextLe(a.kind, b.kind) && TextLe(b.kind, a.kind) ==> a.kind == b.kind;
    assert TextLe(a.tenant, b.tenant) && TextLe(b.tenant, a.tenant) ==> a.tenant == b.tenant;
    assert TextLe(a.scope, b.scope) && TextLe(b.scope, a.scope) ==> a.scope == b.scope;
    assert TextLe(a.name, b.name) && TextLe(b.name, a.name) ==> a.name == b.name;
  }

  lemma {:induction false} TextLeChain(a: Text, b: Text, c: Text)
    requires TextLe(a, b) && TextLe(b, c)
    ensures TextLe(a, c) && (a == c ==> a == b)
  {
    LexTransitive(a, b, c, CodeRank);
    if a == c { LexAntisymmetric(a, b, CodeRank); }
  }

  lemma {:induction false} KeyLeTransitive(a: NaturalKey, b: NaturalKey, c: NaturalKey)
    requires KeyLe(a, b) && KeyLe(b, c)
    ensures KeyLe(a, c)
  {
    if a.kind != b.kind && b.kind != c.kind {
      TextLeChain(a.kind, b.kind, c.kind);
    } else if a.kind == b.kind == c.kind {
      if a.tenant != b.tenant && b.tenant != c.tenant {
        TextLeChain(a.tenant, b.tenant, c.tenant);
      } else if a.tenant == b.tenant == c.tenant {
        if a.scope != b.scope && b.scope != c.scope {
          TextLeChain(a.scope, b.scope, c.scope);
        } else if a.scope == b.scope == c.scope {
          TextLeChain(a.name, b.name, c.name);
        }
      }
    }
  }

  /** The tuple a natural key is. */
  function TupleOf(k: NaturalKey): seq<Text> { [k.kind, k.tenant, k.scope, k.name] }

  lemma {:induction false} SamePrefix(s: seq<Text>, t: seq<Text>, i: nat, j: nat)
    requires j < i && i <= |s| && i <= |t| && s[..i] == t[..i]
    ensures s[j] == t[j]
  {
    assert s[..i][j] == t[..i][j];
  }

  /** Keys are ordered by the first part in which they differ: kind, then tenant, then scope, then name. */
  lemma {:induction false} KeyOrderIs(a: NaturalKey, b: NaturalKey)
    ensures KeyLe(a, b) <==>
            a == b || exists i :: 0 <= i < 4 && TupleOf(a)[..i] == TupleOf(b)[..i] &&
                                  TupleOf(a)[i] != TupleOf(b)[i] && TextLe(TupleOf(a)[i], TupleOf(b)[i])
  {
    var s, t := TupleOf(a), TupleOf(b);
    TextOrder();
    forall i: nat, j: nat | j < i && i < 4 && s[..i] == t[..i] ensures s[j] == t[j] {
      SamePrefix(s, t, i, j);
    }
    assert s[..0] == t[..0];
    if a.kind == b.kind {
      assert s[..1] == t[..1];
      if a.tenant == b.tenant {
        assert s[..2] == t[..2];
        if a.scope == b.scope { assert s[..3] == t[..3]; }
      }
    }
  }
}
