/** The whole report forgets every order it was given: of planes, of decisions, and of attributes. */
module Relisting {
  import opened Options
  import opened Sorting
  import opened Indexing
  import opened Texts
  import opened Values
  import opened Snapshots
  import opened Matching
  import opened Diffing

  // ---------------------------------------------------------------- listings seen through a function

  lemma {:induction false} FilterThrough<T(!new)>(xs: seq<T>, f: T -> T, keep: T -> bool)
    requires forall x :: keep(f(x)) <==> keep(x)
    ensures Filter(Keys(xs, f), keep) == Keys(Filter(xs, keep), f)
  {
    if xs != [] {
      var front, x := xs[..|xs| - 1], xs[|xs| - 1];
      FilterThrough(front, f, keep);
      assert xs == front + [x];
      KeysAppend(front, x, f);
      FilterAppend(Keys(front, f), f(x), keep);
      FilterAppend(front, x, keep);
      KeysAppend(Filter(front, keep), x, f);
    }
  }

  lemma {:induction false} FilterAgrees<T(!new)>(xs: seq<T>, p: T -> bool, q: T -> bool)
    requires forall x :: x in xs ==> (p(x) <==> q(x))
    ensures Filter(xs, p) == Filter(xs, q)
  {
    if xs != [] {
      var front, x := xs[..|xs| - 1], xs[|xs| - 1];
      assert xs == front + [x];
      FilterAgrees(front, p, q);
    }
  }

  lemma {:induction false} InsertThrough<T, K>(x: T, xs: seq<T>, f: T -> T, key: T -> K, le: (K, K) -> bool)
    requires forall y :: key(f(y)) == key(y)
    ensures InsertBy(f(x), Keys(xs, f), key, le) == Keys(InsertBy(x, xs, key, le), f)
  {
    if xs == [] || le(key(x), key(xs[0])) {
      KeysSplit(x, xs, f);
    } else {
      KeysTail(xs, f);
      InsertThrough(x, xs[1..], f, key, le);
      KeysSplit(xs[0], InsertBy(x, xs[1..], key, le), f);
    }
  }

  lemma {:induction false} SortThrough<T, K>(xs: seq<T>, f: T -> T, key: T -> K, le: (K, K) -> bool)
    requires forall y :: key(f(y)) == key(y)
    ensures SortBy(Keys(xs, f), key, le) == Keys(SortBy(xs, key, le), f)
  {
    if xs != [] {
      KeysTail(xs, f);
      SortThrough(xs[1..], f, key, le);
      InsertThrough(xs[0], SortBy(xs[1..], key, le), f, key, le);
    }
  }

  function Through<K, T>(m: map<K, T>, f: T -> T): map<K, T> { map k | k in m :: f(m[k]) }

  lemma {:induction false} IndexThrough<T(!new), K(!new)>(xs: seq<T>, f: T -> T, key: T -> K)
    requires forall x :: key(f(x)) == key(x)
    ensures Index(Keys(xs, f), key) == Through(Index(xs, key), f)
  {
    if xs != [] {
      var front, x := xs[..|xs| - 1], xs[|xs| - 1];
      assert xs == front + [x];
      IndexThrough(front, f, key);
      KeysAppend(front, x, f);
      IndexAppend(Keys(front, f), f(x), key);
      IndexAppend(front, x, key);
    }
  }

  // ---------------------------------------------------------------- the matcher through a relisting

  /** A function that changes nothing the matcher looks at. */
  ghost predicate Unseen(f: Snapshot -> Snapshot) {
    forall s :: f(s).key == s.key && f(s).providerId == s.providerId
  }

  function OnPair(f: Snapshot -> Snapshot): Pair -> Pair {
    (p: Pair) => Pair(f(p.declared), f(p.discovered), p.strategy)
  }

  function OnResult(r: MatchResult, f: Snapshot -> Snapshot): MatchResult {
    MatchResult(Keys(r.pairs, OnPair(f)), Keys(r.declaredOrphans, f), Keys(r.discoveredOrphans, f))
  }

  lemma {:induction false} BoundThrough(
      confirmed: seq<Decision>, d: map<NaturalKey, Snapshot>, c: map<Option<Text>, Snapshot>, f: Snapshot -> Snapshot)
    ensures BoundPairs(confirmed, Through(d, f), Through(c, f)) == Keys(BoundPairs(confirmed, d, c), OnPair(f))
  {
    if confirmed != [] {
      var front, last := confirmed[..|confirmed| - 1], confirmed[|confirmed| - 1];
      BoundThrough(front, d, c, f);
      if last.declaredKey in d && Some(last.providerId) in c {
        KeysAppend(BoundPairs(front, d, c), Pair(d[last.declaredKey], c[Some(last.providerId)], Binding), OnPair(f));
      }
    }
  }

  lemma {:induction false} NaturalThrough(
      keys: seq<NaturalKey>, d: map<NaturalKey, Snapshot>, c: map<NaturalKey, Snapshot>,
      claimedD: set<NaturalKey>, claimedC: set<NaturalKey>, rejected: set<Pairing>, f: Snapshot -> Snapshot)
    requires Unseen(f) && forall k :: k in keys ==> k in d && k in c
    ensures NaturalKeyPairs(keys, Through(d, f), Through(c, f), claimedD, claimedC, rejected) ==
            Keys(NaturalKeyPairs(keys, d, c, claimedD, claimedC, rejected), OnPair(f))
  {
    if keys != [] {
      var front, k := keys[..|keys| - 1], keys[|keys| - 1];
      NaturalThrough(front, d, c, claimedD, claimedC, rejected, f);
      assert Refuses(rejected, k, f(c[k])) <==> Refuses(rejected, k, c[k]);
      KeysAppend(NaturalKeyPairs(front, d, c, claimedD, claimedC, rejected), Pair(d[k], c[k], ByNaturalKey), OnPair(f));
    }
  }

  lemma {:induction false} KeySetThrough(pairs: seq<Pair>, f: Snapshot -> Snapshot, key: Pair -> NaturalKey)
    requires forall p :: key(OnPair(f)(p)) == key(p)
    ensures KeySet(Keys(pairs, OnPair(f)), key) == KeySet(pairs, key)
  {
    forall k ensures k in KeySet(Keys(pairs, OnPair(f)), key) <==> k in KeySet(pairs, key) {
      if p :| p in pairs && key(p) == k {
        KeyedBy(pairs, OnPair(f), OnPair(f)(p));
      }
      if q :| q in Keys(pairs, OnPair(f)) && key(q) == k {
        KeyedBy(pairs, OnPair(f), q);
      }
    }
  }

  lemma {:induction false} OrphansThrough(xs: seq<Snapshot>, matched: set<NaturalKey>, f: Snapshot -> Snapshot)
    requires Unseen(f)
    ensures Orphans(Keys(xs, f), matched) == Keys(Orphans(xs, matched), f)
  {
    FilterThrough(xs, f, Unmatched(matched));
    SortThrough(Filter(xs, Unmatched(matched)), f, KeyOfSnapshot, KeyLe);
  }

  lemma {:induction false} SharedThrough(d: seq<Snapshot>, c: seq<Snapshot>, f: Snapshot -> Snapshot)
    requires Unseen(f)
    ensures SharedKeys(Keys(d, f), Keys(c, f)) == SharedKeys(d, c)
  {
    IndexThrough(c, f, KeyOfSnapshot);
    assert Keys(Keys(d, f), KeyOfSnapshot) == Keys(d, KeyOfSnapshot);
    FilterAgrees(Keys(d, KeyOfSnapshot), KeysIn(ByKey(Keys(c, f))), KeysIn(ByKey(c)));
  }

  lemma {:induction false} IndexesThrough(d: seq<Snapshot>, c: seq<Snapshot>, f: Snapshot -> Snapshot)
    requires Unseen(f)
    ensures ByKey(Keys(d, f)) == Through(ByKey(d), f)
    ensures ByProvider(Keys(c, f)) == Through(ByProvider(c), f)
  {
    IndexThrough(d, f, KeyOfSnapshot);
    FilterThrough(c, f, IsIdentified);
    IndexThrough(Filter(c, IsIdentified), f, ProviderOf);
  }

  lemma {:induction false} BoundNow(d: seq<Snapshot>, c: seq<Snapshot>, ds: seq<Decision>, f: Snapshot -> Snapshot)
    requires Unseen(f)
    ensures BoundPairs(Confirmed(ds), ByKey(Keys(d, f)), ByProvider(Keys(c, f))) ==
            Keys(BoundPairs(Confirmed(ds), ByKey(d), ByProvider(c)), OnPair(f))
  {
    IndexesThrough(d, c, f);
    BoundThrough(Confirmed(ds), ByKey(d), ByProvider(c), f);
  }

  /** The natural-key pairs of a plane, given what the bound ones claim. */
  function NaturalGiven(bound: seq<Pair>, d: seq<Snapshot>, c: seq<Snapshot>, ds: seq<Decision>): seq<Pair> {
    NaturalKeyPairs(SharedKeys(d, c), ByKey(d), ByKey(c), KeySet(bound, DeclaredKeyOf), KeySet(bound, DiscoveredKeyOf),
                    Rejected(ds))
  }

  lemma {:induction false} NaturalNow(
      bound: seq<Pair>, d: seq<Snapshot>, c: seq<Snapshot>, ds: seq<Decision>, f: Snapshot -> Snapshot)
    requires Unseen(f)
    ensures NaturalGiven(Keys(bound, OnPair(f)), Keys(d, f), Keys(c, f), ds) == Keys(NaturalGiven(bound, d, c, ds), OnPair(f))
  {
    IndexThrough(d, f, KeyOfSnapshot);
    IndexThrough(c, f, KeyOfSnapshot);
    SharedThrough(d, c, f);
    KeySetThrough(bound, f, DeclaredKeyOf);
    KeySetThrough(bound, f, DiscoveredKeyOf);
    NaturalThrough(SharedKeys(d, c), ByKey(d), ByKey(c), KeySet(bound, DeclaredKeyOf), KeySet(bound, DiscoveredKeyOf),
                   Rejected(ds), f);
  }

  lemma {:induction false} KeysConcat<T, K>(a: seq<T>, b: seq<T>, key: T -> K)
    ensures Keys(a + b, key) == Keys(a, key) + Keys(b, key)
  {}

  lemma {:induction false} PairsAre(d: seq<Snapshot>, c: seq<Snapshot>, ds: seq<Decision>)
    ensures var bound := BoundPairs(Confirmed(ds), ByKey(d), ByProvider(c));
            MatchedResult(d, c, ds).pairs == bound + NaturalGiven(bound, d, c, ds)
  {}

  lemma {:induction false} PairsThrough(d: seq<Snapshot>, c: seq<Snapshot>, ds: seq<Decision>, f: Snapshot -> Snapshot)
    requires Unseen(f)
    ensures MatchedResult(Keys(d, f), Keys(c, f), ds).pairs == Keys(MatchedResult(d, c, ds).pairs, OnPair(f))
  {
    var bound := BoundPairs(Confirmed(ds), ByKey(d), ByProvider(c));
    PairsAre(d, c, ds);
    PairsAre(Keys(d, f), Keys(c, f), ds);
    BoundNow(d, c, ds, f);
    NaturalNow(bound, d, c, ds, f);
    KeysConcat(bound, NaturalGiven(bound, d, c, ds), OnPair(f));
  }

  lemma {:induction false} MatchingThrough(d: seq<Snapshot>, c: seq<Snapshot>, ds: seq<Decision>, f: Snapshot -> Snapshot)
    requires Unseen(f)
    ensures MatchedResult(Keys(d, f), Keys(c, f), ds) == OnResult(MatchedResult(d, c, ds), f)
  {
    PairsThrough(d, c, ds, f);
    var pairs := MatchedResult(d, c, ds).pairs;
    KeySetThrough(pairs, f, DeclaredKeyOf);
    KeySetThrough(pairs, f, DiscoveredKeyOf);
    OrphansThrough(d, KeySet(pairs, DeclaredKeyOf), f);
    OrphansThrough(c, KeySet(pairs, DiscoveredKeyOf), f);
  }

  lemma {:induction false} UnambiguousThrough(d: seq<Snapshot>, c: seq<Snapshot>, ds: seq<Decision>, f: Snapshot -> Snapshot)
    requires Unseen(f) && Unambiguous(d, c, ds)
    ensures Unambiguous(Keys(d, f), Keys(c, f), ds)
  {
    assert Keys(Keys(d, f), KeyOfSnapshot) == Keys(d, KeyOfSnapshot);
    assert Keys(Keys(c, f), KeyOfSnapshot) == Keys(c, KeyOfSnapshot);
    FilterThrough(c, f, IsIdentified);
    assert Keys(Keys(Filter(c, IsIdentified), f), ProviderOf) == Keys(Filter(c, IsIdentified), ProviderOf);
  }

  // ---------------------------------------------------------------- attributes in the order of their names

  function EntryName(e: Entry): Text { if e.key.Name? then e.key.name else [] }

  function InNameOrder(s: Snapshot): Snapshot { s.(attributes := SortBy(s.attributes, EntryName, TextLe)) }

  lemma {:induction false} NamesApart(es: seq<Entry>)
    requires DistinctKeys(es) && NamedKeys(es)
    ensures NoRepeats(Keys(es, EntryName))
  {
    forall i, j | 0 <= i < j < |es| ensures Keys(es, EntryName)[i] != Keys(es, EntryName)[j] {
      assert es[i].key != es[j].key;
    }
  }

  lemma {:induction false} StorableInAnyOrder(es: seq<Entry>, fs: seq<Entry>)
    requires EntriesStorable(es) && NoRepeats(Keys(fs, EntryName)) && forall e :: e in fs ==> e in es
    ensures EntriesStorable(fs)
  {
    forall i | 0 <= i < |fs| ensures fs[i].key.Name? && StorableText(fs[i].key.name) && Storable(fs[i].value) {
      assert fs[i] in fs;
      var j :| 0 <= j < |es| && es[j] == fs[i];
    }
    forall i, j | 0 <= i < j < |fs| ensures fs[i].key != fs[j].key {
      assert Keys(fs, EntryName)[i] != Keys(fs, EntryName)[j];
    }
  }

  lemma {:induction false} NameOrderIsRelisting(s: Snapshot)
    requires Admitted(s)
    ensures Relisted(s, InNameOrder(s))
  {
    NamesApart(s.attributes);
    SortByNoRepeats(s.attributes, EntryName, TextLe);
    SortByKeepsElements(s.attributes, EntryName, TextLe);
    StorableInAnyOrder(s.attributes, InNameOrder(s).attributes);
  }

  /** Relistings of one resource are one resource once its attributes are put in order. */
  lemma {:induction false} RelistingsShareAnOrder(s: Snapshot, t: Snapshot)
    requires Relisted(s, t)
    ensures InNameOrder(s) == InNameOrder(t)
  {
    NamesApart(s.attributes);
    NamesApart(t.attributes);
    TextOrder();
    SortByIgnoresOrder(s.attributes, t.attributes, EntryName, TextLe);
  }

  // ---------------------------------------------------------------- the report through a relisting

  lemma {:induction false} PairComparedThrough(p: Pair, judge: Judge)
    requires AdmittedPair(p)
    ensures ComparedPair(OnPair(InNameOrder)(p), judge) == ComparedPair(p, judge)
  {
    var q := OnPair(InNameOrder)(p);
    NameOrderIsRelisting(p.declared);
    NameOrderIsRelisting(p.discovered);
    FieldDifferencesForgetOrder(p, q, judge);
    SettledExactly(p, judge);
    SettledExactly(q, judge);
    forall f ensures RaisesOn(p, judge, f) <==> RaisesOn(q, judge, f) {
      RelistedSaysTheSame(p.declared, q.declared, f);
      RelistedSaysTheSame(p.discovered, q.discovered, f);
    }
  }

  lemma {:induction false} PairDifferencesThrough(p: Pair, judge: Judge)
    requires AdmittedPair(p)
    ensures FieldDifferences(OnPair(InNameOrder)(p), judge) == FieldDifferences(p, judge)
    ensures Settled(OnPair(InNameOrder)(p), judge) <==> Settled(p, judge)
  {
    PairComparedThrough(p, judge);
    NameOrderIsRelisting(p.declared);
    NameOrderIsRelisting(p.discovered);
    FieldDifferencesForgetOrder(p, OnPair(InNameOrder)(p), judge);
  }

  lemma {:induction false} GatheredThrough<T>(pairs: seq<Pair>, qs: seq<Pair>, of: Pair -> seq<T>, n: nat)
    requires n <= |pairs| == |qs| && forall i :: 0 <= i < |pairs| ==> of(qs[i]) == of(pairs[i])
    ensures Gathered(qs[..n], of) == Gathered(pairs[..n], of)
  {
    if n > 0 {
      GatheredThrough(pairs, qs, of, n - 1);
      GatheredStep(pairs, n - 1, of);
      GatheredStep(qs, n - 1, of);
    }
  }

  lemma {:induction false} DiffableThrough(pairs: seq<Pair>, qs: seq<Pair>, judge: Judge, n: nat)
    requires n <= |pairs| == |qs|
    requires forall i :: 0 <= i < |pairs| ==> SameKinds(qs[i], pairs[i]) && (Settled(qs[i], judge) <==> Settled(pairs[i], judge))
    ensures Diffable(qs[..n], judge) <==> Diffable(pairs[..n], judge)
  {
    if n > 0 {
      DiffableThrough(pairs, qs, judge, n - 1);
      DiffableStep(pairs, n - 1, judge);
      DiffableStep(qs, n - 1, judge);
    }
  }

  predicate SameKinds(p: Pair, q: Pair) {
    p.declared.key.kind == q.declared.key.kind && p.discovered.key.kind == q.discovered.key.kind
  }

  lemma {:induction false} AllDifferencesThrough(pairs: seq<Pair>, judge: Judge)
    requires forall p :: p in pairs ==> AdmittedPair(p)
    ensures AllDifferences(Keys(pairs, OnPair(InNameOrder)), judge) == AllDifferences(pairs, judge)
    ensures Diffable(Keys(pairs, OnPair(InNameOrder)), judge) <==> Diffable(pairs, judge)
  {
    var qs := Keys(pairs, OnPair(InNameOrder));
    forall i | 0 <= i < |pairs|
      ensures DifferencesBy(judge)(qs[i]) == DifferencesBy(judge)(pairs[i])
      ensures SameKinds(qs[i], pairs[i]) && (Settled(qs[i], judge) <==> Settled(pairs[i], judge))
    {
      assert pairs[i] in pairs;
      PairDifferencesThrough(pairs[i], judge);
    }
    GatheredThrough(pairs, qs, DifferencesBy(judge), |pairs|);
    DiffableThrough(pairs, qs, judge, |pairs|);
    assert qs[..|pairs|] == qs && pairs[..|pairs|] == pairs;
  }

  lemma {:induction false} OrphanReportsThrough(orphans: seq<Snapshot>, kind: OrphanKind)
    ensures OrphanDiscrepancies(Keys(orphans, InNameOrder), kind) == OrphanDiscrepancies(orphans, kind)
  {
    SortThrough(orphans, InNameOrder, KeyOfSnapshot, KeyLe);
  }

  lemma {:induction false} ReportThrough(r: MatchResult, judge: Judge)
    requires forall p :: p in r.pairs ==> AdmittedPair(p)
    ensures Reconciled(OnResult(r, InNameOrder), judge) == Reconciled(r, judge)
  {
    SortThrough(r.pairs, OnPair(InNameOrder), DeclaredKeyOf, KeyLe);
    SortByKeepsElements(r.pairs, DeclaredKeyOf, KeyLe);
    assert forall p :: p in SortedPairs(r.pairs) ==> p in r.pairs;
    AllDifferencesThrough(SortedPairs(r.pairs), judge);
    OrphanReportsThrough(r.declaredOrphans, DeclaredMissing);
    OrphanReportsThrough(r.discoveredOrphans, DiscoveredUndeclared);
  }

  /** The same resources, whatever order they and their attributes are listed in. */
  ghost predicate SameResources(xs: seq<Snapshot>, ys: seq<Snapshot>) {
    && (forall s :: s in xs ==> Admitted(s)) && (forall s :: s in ys ==> Admitted(s))
    && multiset(Keys(xs, InNameOrder)) == multiset(Keys(ys, InNameOrder))
  }

  lemma {:induction false} OrderedReport(d: seq<Snapshot>, c: seq<Snapshot>, ds: seq<Decision>, judge: Judge)
    requires Unambiguous(d, c, ds)
    requires (forall s :: s in d ==> Admitted(s)) && (forall s :: s in c ==> Admitted(s))
    ensures Reconciled(MatchedResult(Keys(d, InNameOrder), Keys(c, InNameOrder), ds), judge) ==
            Reconciled(MatchedResult(d, c, ds), judge)
  {
    MatchingThrough(d, c, ds, InNameOrder);
    forall p | p in MatchedResult(d, c, ds).pairs ensures AdmittedPair(p) {
      PairsCharacterized(d, c, ds, p);
    }
    ReportThrough(MatchedResult(d, c, ds), judge);
  }

  lemma {:induction false} UnambiguousBack(d: seq<Snapshot>, c: seq<Snapshot>, ds: seq<Decision>)
    requires Unambiguous(Keys(d, InNameOrder), Keys(c, InNameOrder), ds)
    ensures Unambiguous(d, c, ds)
  {
    assert Keys(Keys(d, InNameOrder), KeyOfSnapshot) == Keys(d, KeyOfSnapshot);
    assert Keys(Keys(c, InNameOrder), KeyOfSnapshot) == Keys(c, KeyOfSnapshot);
    FilterThrough(c, InNameOrder, IsIdentified);
    assert Keys(Keys(Filter(c, IsIdentified), InNameOrder), ProviderOf) == Keys(Filter(c, IsIdentified), ProviderOf);
  }

  /** The report, its sequences included, depends on no order of its inputs. */
  lemma {:induction false} ReportForgetsOrder(
      d: seq<Snapshot>, d': seq<Snapshot>, c: seq<Snapshot>, c': seq<Snapshot>,
      ds: seq<Decision>, ds': seq<Decision>, judge: Judge)
    requires SameResources(d, d') && SameResources(c, c') && multiset(ds) == multiset(ds')
    requires Unambiguous(d, c, ds)
    ensures Unambiguous(d', c', ds')
    ensures Reconciled(MatchedResult(d, c, ds), judge) == Reconciled(MatchedResult(d', c', ds'), judge)
  {
    var nd, nd', nc, nc' := Keys(d, InNameOrder), Keys(d', InNameOrder), Keys(c, InNameOrder), Keys(c', InNameOrder);
    UnambiguousThrough(d, c, ds, InNameOrder);
    UnambiguousForgetsOrder(nd, nd', nc, nc', ds, ds');
    UnambiguousBack(d', c', ds');
    MatchingForgetsOrder(nd, nd', nc, nc', ds, ds');
    OrderedReport(d, c, ds, judge);
    OrderedReport(d', c', ds', judge);
  }
}
