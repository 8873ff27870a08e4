/** What one plane says about one field, with absence kept apart from an explicit null. */
module Planes {
  import opened Values
  import opened CanonicalForm
  import opened Identity

  datatype PlaneValue = PlaneValue(present: bool, value: Value)

  const Absent := PlaneValue(false, Null)

  function Of(v: Value): PlaneValue { PlaneValue(true, v) }

  /** The constructor refuses an absent statement that carries a value. */
  predicate Wellformed(p: PlaneValue) { p.present || p.value == Null }

  ghost predicate Stated(p: PlaneValue) { Wellformed(p) && Storable(p.value) }

  /** `PlaneValue.__eq__`: presence and canonical text, the pair that is also hashed. */
  predicate Equals(p: PlaneValue, q: PlaneValue)
    requires Encodable(p.value) && Encodable(q.value)
  {
    (p.present, Canonical(p.value)) == (q.present, Canonical(q.value))
  }

  lemma {:induction false} EqualityMeansSameStatement(p: PlaneValue, q: PlaneValue)
    requires Stated(p) && Stated(q)
    ensures Equals(p, q) <==> p.present == q.present && (p.present ==> Same(p.value, q.value))
    ensures Equals(p, q) ==> (p == Absent <==> q == Absent)
  {
    CanonicalIsIdentity(p.value, q.value);
  }

  /** Being the same value is an equivalence, although mappings are compared as unordered. */
  lemma {:induction false} SameIsEquivalence(a: Value, b: Value, c: Value)
    requires Storable(a) && Storable(b) && Storable(c)
    ensures Same(a, a)
    ensures Same(a, b) ==> Same(b, a)
    ensures Same(a, b) && Same(b, c) ==> Same(a, c)
  {
    CanonicalIsIdentity(a, a);
    CanonicalIsIdentity(a, b);
    CanonicalIsIdentity(b, a);
    CanonicalIsIdentity(b, c);
    CanonicalIsIdentity(a, c);
  }
}
