/** Turning matched pairs and orphans into the set of differences between the planes. */
module Diffing {
  import opened Options
  import opened Sorting
  import opened Texts
  import opened Values
  import opened Planes
  import opened Divergence
  import opened Snapshots
  import opened Matching

  datatype FieldOutcome = Agrees | Drifted | NoPolicy | Raises

  /** The configured comparison of one field of one kind: a field without policy is never compared, and some comparisons raise. */
  type Judge = (Text, Text, PlaneValue, PlaneValue) -> FieldOutcome

  datatype FieldDiscrepancy = FieldDiscrepancy(
    key: NaturalKey, field: Text, declared: PlaneValue, discovered: PlaneValue, outcome: FieldOutcome)

  datatype OrphanKind = DeclaredMissing | DiscoveredUndeclared
  datatype OrphanDiscrepancy = OrphanDiscrepancy(key: NaturalKey, kind: OrphanKind)

  datatype DiscrepancySet = DiscrepancySet(fields: seq<FieldDiscrepancy>, orphans: seq<OrphanDiscrepancy>)

  ghost predicate AdmittedPair(p: Pair) { Admitted(p.declared) && Admitted(p.discovered) }

  function OutcomeOf(p: Pair, field: Text, judge: Judge): FieldOutcome {
    judge(p.declared.key.kind, field, p.declared.PlaneValueOf(field), p.discovered.PlaneValueOf(field))
  }

  function DiscrepancyOn(p: Pair, field: Text, judge: Judge): FieldDiscrepancy {
    FieldDiscrepancy(p.declared.key, field, p.declared.PlaneValueOf(field), p.discovered.PlaneValueOf(field),
                     OutcomeOf(p, field, judge))
  }

  /** The fields of `fields` on which the planes do not agree, in the order given. */
  function DifferencesAmong(fields: seq<Text>, p: Pair, judge: Judge): seq<FieldDiscrepancy> {
    if fields == [] then []
    else
      var f := fields[|fields| - 1];
      DifferencesAmong(fields[..|fields| - 1], p, judge) +
      if OutcomeOf(p, f, judge) == Agrees then [] else [DiscrepancyOn(p, f, judge)]
  }

  predicate Named(p: Pair) { NamedKeys(p.declared.attributes) && NamedKeys(p.discovered.attributes) }

  /** The union of both sides' attribute names, in sorted order. */
  function KeysOf(p: Pair): seq<Text> {
    if Named(p) then AllKeys(p.declared.attributes, p.discovered.attributes) else []
  }

  function FieldDifferences(p: Pair, judge: Judge): seq<FieldDiscrepancy> { DifferencesAmong(KeysOf(p), p, judge) }

  predicate NamedPairs(pairs: seq<Pair>) { forall p :: p in pairs ==> Named(p) }

  function Gathered<T>(pairs: seq<Pair>, of: Pair -> seq<T>): seq<T> {
    if pairs == [] then [] else Gathered(pairs[..|pairs| - 1], of) + of(pairs[|pairs| - 1])
  }

  function DifferencesBy(judge: Judge): Pair -> seq<FieldDiscrepancy> { (p: Pair) => FieldDifferences(p, judge) }

  function AllDifferences(pairs: seq<Pair>, judge: Judge): seq<FieldDiscrepancy> { Gathered(pairs, DifferencesBy(judge)) }

  function OrphanDiscrepancies(orphans: seq<Snapshot>, kind: OrphanKind): seq<OrphanDiscrepancy> {
    var sorted := SortBy(orphans, KeyOfSnapshot, KeyLe);
    seq(|sorted|, i requires 0 <= i < |sorted| => OrphanDiscrepancy(sorted[i].key, kind))
  }

  function SortedPairs(pairs: seq<Pair>): seq<Pair> { SortBy(pairs, DeclaredKeyOf, KeyLe) }

  predicate KindsAgree(pairs: seq<Pair>) {
    forall p :: p in pairs ==> p.declared.key.kind == p.discovered.key.kind
  }

  /** No comparison of the pair's fields raises. */
  predicate Settled(p: Pair, judge: Judge) { forall f :: f in KeysOf(p) ==> !OutcomeOf(p, f, judge).Raises? }

  /** What comparing a pair comes to: its differences, or None where a comparison raises. */
  function ComparedPair(p: Pair, judge: Judge): Option<seq<FieldDiscrepancy>> {
    if Settled(p, judge) then Some(FieldDifferences(p, judge)) else None
  }

  predicate AllSettled(pairs: seq<Pair>, judge: Judge) { forall p :: p in pairs ==> Settled(p, judge) }

  /** Nothing the differ meets makes it raise. */
  predicate Diffable(pairs: seq<Pair>, judge: Judge) { KindsAgree(pairs) && AllSettled(pairs, judge) }

  function Differences(result: MatchResult, judge: Judge): DiscrepancySet {
    DiscrepancySet(
      AllDifferences(SortedPairs(result.pairs), judge),
      OrphanDiscrepancies(result.declaredOrphans, DeclaredMissing) +
      OrphanDiscrepancies(result.discoveredOrphans, DiscoveredUndeclared))
  }

  // ---------------------------------------------------------------- the loops

  lemma {:induction false} DifferencesStep(fields: seq<Text>, i: nat, p: Pair, judge: Judge)
    requires i < |fields|
    ensures DifferencesAmong(fields[..i + 1], p, judge) ==
            DifferencesAmong(fields[..i], p, judge) +
            if OutcomeOf(p, fields[i], judge) == Agrees then [] else [DiscrepancyOn(p, fields[i], judge)]
  {
    assert fields[..i + 1][..i] == fields[..i];
  }

  method FieldDifferencesLoop(p: Pair, judge: Judge) returns (found: Option<seq<FieldDiscrepancy>>)
    requires Named(p)
    ensures found == ComparedPair(p, judge)
  {
    var fields := AllKeys(p.declared.attributes, p.discovered.attributes);
    var sofar: seq<FieldDiscrepancy> := [];
    for i := 0 to |fields|
      invariant sofar == DifferencesAmong(fields[..i], p, judge)
      invariant forall j :: 0 <= j < i ==> !OutcomeOf(p, fields[j], judge).Raises?
    {
      DifferencesStep(fields, i, p, judge);
      var outcome := OutcomeOf(p, fields[i], judge);
      if outcome == Raises {
        SettledFields(p, judge, fields, i);
        return None;
      }
      if outcome != Agrees {
        sofar := sofar + [DiscrepancyOn(p, fields[i], judge)];
      }
    }
    assert fields[..|fields|] == fields;
    SettledFields(p, judge, fields, |fields|);
    return Some(sofar);
  }

  /** The first field whose comparison raises, if any, decides whether the pair is settled. */
  lemma {:induction false} SettledFields(p: Pair, judge: Judge, fields: seq<Text>, i: nat)
    requires Named(p) && fields == AllKeys(p.declared.attributes, p.discovered.attributes) && i <= |fields|
    requires forall j :: 0 <= j < i ==> !OutcomeOf(p, fields[j], judge).Raises?
    requires i < |fields| ==> OutcomeOf(p, fields[i], judge).Raises?
    ensures Settled(p, judge) <==> i == |fields|
    ensures i == |fields| ==> ComparedPair(p, judge) == Some(DifferencesAmong(fields, p, judge))
  {
    if i < |fields| { assert fields[i] in KeysOf(p); }
  }

  lemma {:induction false} DiffableStep(pairs: seq<Pair>, i: nat, judge: Judge)
    requires i < |pairs|
    ensures Diffable(pairs[..i + 1], judge) <==>
            Diffable(pairs[..i], judge) && pairs[i].declared.key.kind == pairs[i].discovered.key.kind && Settled(pairs[i], judge)
    ensures Diffable(pairs, judge) ==> Diffable(pairs[..i + 1], judge)
  {
    OneMore(pairs, i);
  }

  lemma {:induction false} OneMore(pairs: seq<Pair>, i: nat)
    requires i < |pairs|
    ensures forall p :: p in pairs[..i + 1] <==> p in pairs[..i] || p == pairs[i]
    ensures forall p :: p in pairs[..i + 1] ==> p in pairs
  {
    assert pairs[..i + 1] == pairs[..i] + [pairs[i]];
  }

  lemma {:induction false} GatheredStep<T>(pairs: seq<Pair>, i: nat, of: Pair -> seq<T>)
    requires i < |pairs|
    ensures Gathered(pairs[..i + 1], of) == Gathered(pairs[..i], of) + of(pairs[i])
  {
    assert pairs[..i + 1][..i] == pairs[..i];
  }

  /** Every difference of the pairs in the order given, unless a pair is of two kinds or a comparison raises. */
  method AllDifferencesLoop(pairs: seq<Pair>, judge: Judge) returns (found: Option<seq<FieldDiscrepancy>>)
    requires NamedPairs(pairs)
    ensures found == if Diffable(pairs, judge) then Some(AllDifferences(pairs, judge)) else None
  {
    var sofar: seq<FieldDiscrepancy> := [];
    for i := 0 to |pairs|
      invariant Diffable(pairs[..i], judge)
      invariant sofar == AllDifferences(pairs[..i], judge)
    {
      assert pairs[i] in pairs;
      DiffableStep(pairs, i, judge);
      GatheredStep(pairs, i, DifferencesBy(judge));
      if pairs[i].declared.key.kind != pairs[i].discovered.key.kind {
        return None;
      }
      var more := FieldDifferencesLoop(pairs[i], judge);
      if more == None {
        return None;
      }
      sofar := sofar + more.value;
    }
    assert pairs[..|pairs|] == pairs;
    return Some(sofar);
  }

  /** What the differ comes to: every difference, pairs in key order, or None where it raises. */
  function Reconciled(result: MatchResult, judge: Judge): Option<DiscrepancySet> {
    if Diffable(SortedPairs(result.pairs), judge) then Some(Differences(result, judge)) else None
  }

  method Reconcile(result: MatchResult, judge: Judge) returns (differences: Option<DiscrepancySet>)
    requires NamedPairs(SortedPairs(result.pairs))
    ensures differences == Reconciled(result, judge)
  {
    var found := AllDifferencesLoop(SortedPairs(result.pairs), judge);
    if found == None {
      return None;
    }
    return Some(DiscrepancySet(
      found.value,
      OrphanDiscrepancies(result.declaredOrphans, DeclaredMissing) +
      OrphanDiscrepancies(result.discoveredOrphans, DiscoveredUndeclared)));
  }

  // ---------------------------------------------------------------- what is reported

  predicate StatesField(s: Snapshot, field: Text) { Find(s.attributes, field).Some? }

  /** A comparison of a field either side states raises. */
  predicate RaisesOn(p: Pair, judge: Judge, field: Text) {
    (StatesField(p.declared, field) || StatesField(p.discovered, field)) && OutcomeOf(p, field, judge).Raises?
  }

  lemma {:induction false} SettledExactly(p: Pair, judge: Judge)
    requires Named(p)
    ensures Settled(p, judge) <==> forall f :: !RaisesOn(p, judge, f)
  {
    forall f ensures RaisesOn(p, judge, f) <==> f in KeysOf(p) && OutcomeOf(p, f, judge).Raises? {
      KeyIsListed(p.declared.attributes, p.discovered.attributes, f);
    }
    if !Settled(p, judge) {
      var f :| f in KeysOf(p) && OutcomeOf(p, f, judge).Raises?;
      assert RaisesOn(p, judge, f);
    }
  }

  /** The differ completes exactly when every pair is of one kind and no comparison of a stated field raises. */
  lemma {:induction false} ReconcilesExactly(result: MatchResult, judge: Judge)
    requires NamedPairs(result.pairs)
    ensures Reconciled(result, judge).Some? <==>
            (forall p :: p in result.pairs ==> p.declared.key.kind == p.discovered.key.kind) &&
            (forall p, f :: p in result.pairs ==> !RaisesOn(p, judge, f))
  {
    SortByKeepsElements(result.pairs, DeclaredKeyOf, KeyLe);
    SettledPairs(result.pairs, judge);
    assert KindsAgree(SortedPairs(result.pairs)) <==> KindsAgree(result.pairs);
    assert AllSettled(SortedPairs(result.pairs), judge) <==> AllSettled(result.pairs, judge);
  }

  lemma {:induction false} SettledPairs(pairs: seq<Pair>, judge: Judge)
    requires NamedPairs(pairs)
    ensures AllSettled(pairs, judge) <==> forall p, f :: p in pairs ==> !RaisesOn(p, judge, f)
  {
    forall p | p in pairs ensures Settled(p, judge) <==> forall f :: !RaisesOn(p, judge, f) {
      SettledExactly(p, judge);
    }
  }

  lemma {:induction false} DifferenceFrom(fields: seq<Text>, p: Pair, judge: Judge, fd: FieldDiscrepancy)
    ensures fd in DifferencesAmong(fields, p, judge) <==>
            exists f :: f in fields && OutcomeOf(p, f, judge) != Agrees && fd == DiscrepancyOn(p, f, judge)
  {
    if fields != [] {
      var front, last := fields[..|fields| - 1], fields[|fields| - 1];
      DifferenceFrom(front, p, judge, fd);
      assert fields == front + [last];
    }
  }

  /** The mapping says this about the field: the value it states for it, or nothing. */
  predicate Says(es: seq<Entry>, field: Text, p: PlaneValue) {
    if p.present then Entry(Name(field), p.value) in es
    else p.value == Null && forall e :: e in es ==> e.key != Name(field)
  }

  lemma {:induction false} PlaneValueSays(s: Snapshot, field: Text)
    ensures Says(s.attributes, field, s.PlaneValueOf(field))
    ensures StatesField(s, field) <==> s.PlaneValueOf(field).present
  {
    match Find(s.attributes, field)
    case None =>
    case Some(i) => assert s.attributes[i] == Entry(Name(field), s.attributes[i].value);
  }

  /** A mapping without repeated keys says one thing about a field. */
  lemma {:induction false} SaysOneThing(s: Snapshot, field: Text, p: PlaneValue)
    requires Admitted(s) && Says(s.attributes, field, p)
    ensures p == s.PlaneValueOf(field)
  {
    PlaneValueSays(s, field);
    if p.present {
      var i :| 0 <= i < |s.attributes| && s.attributes[i] == Entry(Name(field), p.value);
      FindIsUnique(s.attributes, i);
    }
  }

  /**
   * A difference of a pair, read off its attributes alone: what each side says about a field that one of
   * them states, on which its judge does not find agreement.
   */
  predicate DiffersOn(p: Pair, judge: Judge, fd: FieldDiscrepancy) {
    && fd.key == p.declared.key
    && Says(p.declared.attributes, fd.field, fd.declared)
    && Says(p.discovered.attributes, fd.field, fd.discovered)
    && (fd.declared.present || fd.discovered.present)
    && fd.outcome == judge(p.declared.key.kind, fd.field, fd.declared, fd.discovered)
    && fd.outcome != Agrees
  }

  lemma {:induction false} DiffersExactly(p: Pair, judge: Judge, fd: FieldDiscrepancy)
    requires AdmittedPair(p)
    ensures DiffersOn(p, judge, fd) <==>
            && (StatesField(p.declared, fd.field) || StatesField(p.discovered, fd.field))
            && OutcomeOf(p, fd.field, judge) != Agrees
            && fd == DiscrepancyOn(p, fd.field, judge)
  {
    PlaneValueSays(p.declared, fd.field);
    PlaneValueSays(p.discovered, fd.field);
    if DiffersOn(p, judge, fd) {
      SaysOneThing(p.declared, fd.field, fd.declared);
      SaysOneThing(p.discovered, fd.field, fd.discovered);
    }
  }

  lemma {:induction false} FieldDifferencesCharacterized(p: Pair, judge: Judge, fd: FieldDiscrepancy)
    requires AdmittedPair(p)
    ensures fd in FieldDifferences(p, judge) <==> DiffersOn(p, judge, fd)
  {
    var fields := AllKeys(p.declared.attributes, p.discovered.attributes);
    DifferenceFrom(fields, p, judge, fd);
    KeyIsListed(p.declared.attributes, p.discovered.attributes, fd.field);
    DiffersExactly(p, judge, fd);
  }

  lemma {:induction false} GatheredFrom<T>(pairs: seq<Pair>, of: Pair -> seq<T>, x: T)
    ensures x in Gathered(pairs, of) <==> exists p :: p in pairs && x in of(p)
  {
    if pairs != [] {
      var front, last := pairs[..|pairs| - 1], pairs[|pairs| - 1];
      GatheredFrom(front, of, x);
      assert forall p :: p in pairs <==> p in front || p == last by { assert pairs == front + [last]; }
    }
  }

  /** The differences reported are exactly the fields of the pairs that do not agree. */
  lemma {:induction false} DifferencesCharacterized(result: MatchResult, judge: Judge, fd: FieldDiscrepancy)
    requires forall p :: p in result.pairs ==> AdmittedPair(p)
    ensures fd in Differences(result, judge).fields <==>
            exists p :: p in result.pairs && DiffersOn(p, judge, fd)
  {
    var sorted := SortedPairs(result.pairs);
    SortByKeepsElements(result.pairs, DeclaredKeyOf, KeyLe);
    GatheredFrom(sorted, DifferencesBy(judge), fd);
    if p :| p in sorted && fd in DifferencesBy(judge)(p) {
      assert p in result.pairs;
      FieldDifferencesCharacterized(p, judge, fd);
    }
    if p :| p in result.pairs && DiffersOn(p, judge, fd) {
      assert p in sorted;
      FieldDifferencesCharacterized(p, judge, fd);
    }
  }

  /** A resource renamed on one side and otherwise in agreement raises no difference at all. */
  lemma {:induction false} RenameAloneIsSilent(p: Pair, judge: Judge)
    requires AdmittedPair(p)
    requires forall f :: StatesField(p.declared, f) || StatesField(p.discovered, f) ==> OutcomeOf(p, f, judge) == Agrees
    ensures ComparedPair(p, judge) == Some([])
  {
    SettledExactly(p, judge);
    var found := FieldDifferences(p, judge);
    if found != [] {
      FieldDifferencesCharacterized(p, judge, found[0]);
      DiffersExactly(p, judge, found[0]);
    }
  }

  // ---------------------------------------------------------------- attribute order is invisible

  /** The same resource with its attributes listed in another order. */
  ghost predicate Relisted(s: Snapshot, t: Snapshot) {
    && s.key == t.key
    && s.providerId == t.providerId
    && Admitted(s)
    && Admitted(t)
    && forall e :: e in s.attributes <==> e in t.attributes
  }

  lemma {:induction false} FindForgetsOrder(es: seq<Entry>, fs: seq<Entry>, key: Text)
    requires DistinctKeys(es) && DistinctKeys(fs) && forall e :: e in es <==> e in fs
    ensures Find(es, key).Some? <==> Find(fs, key).Some?
    ensures Find(es, key).Some? ==> es[Find(es, key).value] == fs[Find(fs, key).value]
  {
    if Find(es, key).Some? {
      var e := es[Find(es, key).value];
      assert e in es;
      var j :| 0 <= j < |fs| && fs[j] == e;
      FindIsUnique(fs, j);
    }
    if Find(fs, key).Some? {
      var f := fs[Find(fs, key).value];
      assert f in fs;
      var i :| 0 <= i < |es| && es[i] == f;
      FindIsUnique(es, i);
    }
  }

  lemma {:induction false} RelistedSaysTheSame(s: Snapshot, t: Snapshot, field: Text)
    requires Relisted(s, t)
    ensures s.PlaneValueOf(field) == t.PlaneValueOf(field)
    ensures StatesField(s, field) <==> StatesField(t, field)
  {
    FindForgetsOrder(s.attributes, t.attributes, field);
  }

  lemma {:induction false} AllKeysDistinct(es: seq<Entry>, fs: seq<Entry>)
    requires DistinctKeys(es) && NamedKeys(es) && DistinctKeys(fs) && NamedKeys(fs)
    ensures NoRepeats(Names(es) + Extra(es, fs))
  {
    forall i, j | 0 <= i < j < |es| ensures Names(es)[i] != Names(es)[j] {
      assert es[i].key != es[j].key;
    }
    ExtraDistinct(es, fs);
    forall i, j | 0 <= i < |es| && 0 <= j < |Extra(es, fs)| ensures Names(es)[i] != Extra(es, fs)[j] {
      ExtraKeys(es, fs, Extra(es, fs)[j]);
      assert es[i].key == Name(Names(es)[i]);
    }
    NoRepeatsConcat(Names(es), Extra(es, fs));
  }

  lemma {:induction false} ExtraDistinct(es: seq<Entry>, fs: seq<Entry>)
    requires DistinctKeys(fs) && NamedKeys(fs) && NamedKeys(es)
    ensures NoRepeats(Extra(es, fs))
  {
    if fs != [] {
      ExtraDistinct(es, fs[1..]);
      var rest := Extra(es, fs[1..]);
      forall j | 0 <= j < |rest| ensures rest[j] != fs[0].key.name {
        ExtraKeys(es, fs[1..], rest[j]);
        var n := Find(fs[1..], rest[j]).value;
        assert fs[0].key != fs[n + 1].key;
      }
    }
  }

  lemma {:induction false} DifferencesAmongRelisted(fields: seq<Text>, p: Pair, q: Pair, judge: Judge)
    requires Relisted(p.declared, q.declared) && Relisted(p.discovered, q.discovered)
    ensures DifferencesAmong(fields, p, judge) == DifferencesAmong(fields, q, judge)
  {
    if fields != [] {
      DifferencesAmongRelisted(fields[..|fields| - 1], p, q, judge);
      RelistedSaysTheSame(p.declared, q.declared, fields[|fields| - 1]);
      RelistedSaysTheSame(p.discovered, q.discovered, fields[|fields| - 1]);
    }
  }

  /** Attribute order on either side changes nothing that is reported, nor its order. */
  lemma {:induction false} FieldDifferencesForgetOrder(p: Pair, q: Pair, judge: Judge)
    requires Relisted(p.declared, q.declared) && Relisted(p.discovered, q.discovered)
    ensures FieldDifferences(p, judge) == FieldDifferences(q, judge)
  {
    var es, fs := p.declared.attributes, p.discovered.attributes;
    var es', fs' := q.declared.attributes, q.discovered.attributes;
    AllKeysDistinct(es, fs);
    AllKeysDistinct(es', fs');
    SortByKeepsElements(Names(es) + Extra(es, fs), Itself, TextLe);
    SortByKeepsElements(Names(es') + Extra(es', fs'), Itself, TextLe);
    forall k ensures k in Names(es) + Extra(es, fs) <==> k in Names(es') + Extra(es', fs') {
      KeyIsListed(es, fs, k);
      KeyIsListed(es', fs', k);
      assert k in AllKeys(es, fs) <==> k in Names(es) + Extra(es, fs);
      assert k in AllKeys(es', fs') <==> k in Names(es') + Extra(es', fs');
      FindForgetsOrder(es, es', k);
      FindForgetsOrder(fs, fs', k);
    }
    NoRepeatsMultiset(Names(es) + Extra(es, fs), Names(es') + Extra(es', fs'));
    TextOrder();
    SortForgetsOrder(Names(es) + Extra(es, fs), Names(es') + Extra(es', fs'), TextLe);
    DifferencesAmongRelisted(AllKeys(es, fs), p, q, judge);
  }
}
