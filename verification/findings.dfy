/** What the discrepancy table says after a run, read off the two planes and the pairs alone. */
module Findings {
  import opened Sorting
  import opened Indexing
  import opened Texts
  import opened Planes
  import opened Snapshots
  import opened Matching
  import opened Diffing
  import opened Tables
  import opened Reconciliation
  import opened Runs
  import opened Reruns

  /** Some open discrepancy of the tenant has this key and finding. */
  ghost predicate Reported(rows: seq<DiscrepancyRow>, tenant: Text, key: NaturalKey, finding: Finding) {
    exists r :: r in rows && OpenFor(tenant)(r) && r.key == key && r.finding == finding
  }

  lemma {:induction false} ReportedInReports(found: DiscrepancySet, next: nat, key: NaturalKey, finding: Finding)
    ensures (exists r :: r in Reports(found, next) && r.key == key && r.finding == finding) <==>
            (exists d :: d in found.fields && d.key == key && finding == OnField(d.field, d.declared, d.discovered, d.outcome)) ||
            (exists o :: o in found.orphans && o.key == key && finding == OnOrphan(o.kind))
  {
    var rows, n := Reports(found, next), |found.fields|;
    if r :| r in rows && r.key == key && r.finding == finding {
      var i :| 0 <= i < |rows| && rows[i] == r;
      if i < n {
        assert found.fields[i] in found.fields && r == FindingAt(next + i, found.fields[i]);
      } else {
        assert found.orphans[i - n] in found.orphans && r == OrphanAt(next + i, found.orphans[i - n]);
      }
    }
    if d :| d in found.fields && d.key == key && finding == OnField(d.field, d.declared, d.discovered, d.outcome) {
      var i :| 0 <= i < n && found.fields[i] == d;
      assert rows[i] == FindingAt(next + i, d) && rows[i] in rows;
    }
    if o :| o in found.orphans && o.key == key && finding == OnOrphan(o.kind) {
      var i :| 0 <= i < |found.orphans| && found.orphans[i] == o;
      assert rows[n + i] == OrphanAt(next + n + i, o) && rows[n + i] in rows;
    }
  }

  lemma {:induction false} ReportedAfter(s: Store, tenant: Text, judge: Judge, now: int, key: NaturalKey, finding: Finding)
    requires WellKept(s) && Run(s, tenant, judge, now).Some?
    ensures Computed(s, tenant, judge).Some?
    ensures var found := Computed(s, tenant, judge).value.found;
            Reported(Run(s, tenant, judge, now).value.discrepancies, tenant, key, finding) <==>
            (exists d :: d in found.fields && d.key == key && finding == OnField(d.field, d.declared, d.discovered, d.outcome)) ||
            (exists o :: o in found.orphans && o.key == key && finding == OnOrphan(o.kind))
  {
    RunReports(s, tenant, judge, now);
    FindingsAreOfTenant(s, tenant, judge);
    var found := Computed(s, tenant, judge).value.found;
    var kept, rows := Filter(s.discrepancies, KeptDiscrepancy(tenant)), Reports(found, s.nextDiscrepancy);
    ReportsAreOpen(found, s.nextDiscrepancy, tenant);
    ReportedInReports(found, s.nextDiscrepancy, key, finding);
    assert Run(s, tenant, judge, now).value.discrepancies == kept + rows;
  }

  lemma {:induction false} OrphansAre(plane: seq<Snapshot>, matched: set<NaturalKey>, kind: OrphanKind, key: NaturalKey)
    ensures (exists o :: o in OrphanDiscrepancies(Orphans(plane, matched), kind) && o.key == key) <==>
            key !in matched && exists s :: s in plane && s.key == key
    ensures forall o :: o in OrphanDiscrepancies(Orphans(plane, matched), kind) ==> o.kind == kind
  {
    SortByKeepsElements(Filter(plane, Unmatched(matched)), KeyOfSnapshot, KeyLe);
    OrphanKeys(Orphans(plane, matched), kind, key);
    if s :| s in Orphans(plane, matched) && s.key == key {
      assert s in Filter(plane, Unmatched(matched));
    }
    if key !in matched {
      if s :| s in plane && s.key == key {
        assert s in Filter(plane, Unmatched(matched));
      }
    }
  }

  lemma {:induction false} OrphanKeys(orphans: seq<Snapshot>, kind: OrphanKind, key: NaturalKey)
    ensures (exists o :: o in OrphanDiscrepancies(orphans, kind) && o.key == key) <==> exists s :: s in orphans && s.key == key
    ensures forall o :: o in OrphanDiscrepancies(orphans, kind) ==> o.kind == kind
  {
    var sorted, found := SortBy(orphans, KeyOfSnapshot, KeyLe), OrphanDiscrepancies(orphans, kind);
    SortByKeepsElements(orphans, KeyOfSnapshot, KeyLe);
    if o :| o in found && o.key == key {
      var i :| 0 <= i < |found| && found[i] == o;
      assert sorted[i] in sorted;
    }
    if s :| s in orphans && s.key == key {
      assert s in sorted;
      var i :| 0 <= i < |sorted| && sorted[i] == s;
      assert found[i] in found;
    }
  }

  ghost predicate Paired(pairs: seq<Pair>, key: Pair -> NaturalKey, k: NaturalKey) { exists p :: p in pairs && key(p) == k }

  /**
   * After a run the tenant's open field discrepancies are exactly the fields of the run's pairs whose
   * comparison does not find agreement, with what each plane states of them.
   */
  lemma {:induction false} OpenFieldsAreTheDifferences(
      s: Store, tenant: Text, judge: Judge, now: int, key: NaturalKey,
      field: Text, declared: PlaneValue, discovered: PlaneValue, outcome: FieldOutcome)
    requires WellKept(s) && Run(s, tenant, judge, now).Some?
    ensures Reported(Run(s, tenant, judge, now).value.discrepancies, tenant, key, OnField(field, declared, discovered, outcome)) <==>
            exists p :: p in Result(s, tenant).pairs &&
                        DiffersOn(p, judge, FieldDiscrepancy(key, field, declared, discovered, outcome))
  {
    ReportedAfter(s, tenant, judge, now, key, OnField(field, declared, discovered, outcome));
    ComputedExactly(s, tenant, judge);
    PairsAreNamed(s, tenant);
    var d := FieldDiscrepancy(key, field, declared, discovered, outcome);
    FindingsFromResult(s, tenant, judge);
    DifferencesCharacterized(Result(s, tenant), judge, d);
    forall e | e in Computed(s, tenant, judge).value.found.fields && e.key == key &&
               OnField(field, declared, discovered, outcome) == OnField(e.field, e.declared, e.discovered, e.outcome)
      ensures e == d
    {}
  }

  lemma {:induction false} FindingsFromResult(s: Store, tenant: Text, judge: Judge)
    requires WellKept(s) && Computed(s, tenant, judge).Some?
    ensures Computed(s, tenant, judge).value.found == Differences(Result(s, tenant), judge)
    ensures forall p :: p in Result(s, tenant).pairs ==> AdmittedPair(p)
  {
    ComputedExactly(s, tenant, judge);
    PairsAreNamed(s, tenant);
  }

  /**
   * And its open orphan discrepancies are exactly the declared resources no pair claims, as missing, and
   * the present ones no pair claims, as undeclared.
   */
  lemma {:induction false} OpenOrphansAreTheUnpaired(s: Store, tenant: Text, judge: Judge, now: int, key: NaturalKey)
    requires WellKept(s) && Run(s, tenant, judge, now).Some?
    ensures var rows, pairs := Run(s, tenant, judge, now).value.discrepancies, Result(s, tenant).pairs;
            && (Reported(rows, tenant, key, OnOrphan(DeclaredMissing)) <==>
                  !Paired(pairs, DeclaredKeyOf, key) && exists d :: d in DeclaredPlane(s, tenant) && d.key == key)
            && (Reported(rows, tenant, key, OnOrphan(DiscoveredUndeclared)) <==>
                  !Paired(pairs, DiscoveredKeyOf, key) && exists c :: c in DiscoveredPlane(s, tenant) && c.key == key)
  {
    var pairs := Result(s, tenant).pairs;
    ReportedAfter(s, tenant, judge, now, key, OnOrphan(DeclaredMissing));
    ReportedAfter(s, tenant, judge, now, key, OnOrphan(DiscoveredUndeclared));
    FindingsFromResult(s, tenant, judge);
    OrphansAre(DeclaredPlane(s, tenant), KeySet(pairs, DeclaredKeyOf), DeclaredMissing, key);
    OrphansAre(DiscoveredPlane(s, tenant), KeySet(pairs, DiscoveredKeyOf), DiscoveredUndeclared, key);
    var missing := OrphanDiscrepancies(Result(s, tenant).declaredOrphans, DeclaredMissing);
    var undeclared := OrphanDiscrepancies(Result(s, tenant).discoveredOrphans, DiscoveredUndeclared);
    assert forall o :: o in missing + undeclared <==> o in missing || o in undeclared;
    assert key in KeySet(pairs, DeclaredKeyOf) <==> Paired(pairs, DeclaredKeyOf, key);
    assert key in KeySet(pairs, DiscoveredKeyOf) <==> Paired(pairs, DiscoveredKeyOf, key);
  }

  /**
   * What a run leaves of each discrepancy it found: the tenant's open ones go, and everything resolved and
   * everything of another tenant stays as it was, the only row under its primary key.
   */
  lemma {:induction false} EveryDiscrepancyMeetsItsFate(s: Store, tenant: Text, judge: Judge, now: int, r: DiscrepancyRow)
    requires WellKept(s) && Run(s, tenant, judge, now).Some? && r in s.discrepancies
    ensures var after := Run(s, tenant, judge, now).value.discrepancies;
            if r.state == Open && r.key.tenant == tenant then forall q :: q in after ==> q.pk != r.pk
            else r in after && forall q :: q in after && q.pk == r.pk ==> q == r
  {
    RunReports(s, tenant, judge, now);
    var kept := Filter(s.discrepancies, KeptDiscrepancy(tenant));
    var found := Computed(s, tenant, judge).value.found;
    forall q | q in kept + Reports(found, s.nextDiscrepancy) && q.pk == r.pk ensures q == r && r in kept {
      OldNumberIsKept(kept, found, s.nextDiscrepancy, q);
      SameNumber(s.discrepancies, q, r);
    }
  }

  lemma {:induction false} OldNumberIsKept(kept: seq<DiscrepancyRow>, found: DiscrepancySet, next: nat, q: DiscrepancyRow)
    requires q in kept + Reports(found, next) && q.pk < next
    ensures q in kept
  {
    if q !in kept {
      var i :| 0 <= i < |Reports(found, next)| && Reports(found, next)[i] == q;
      ReportsAreNumbered(found, next, i);
    }
  }

  lemma {:induction false} SameNumber(rows: seq<DiscrepancyRow>, q: DiscrepancyRow, r: DiscrepancyRow)
    requires NoRepeats(Keys(rows, DiscrepancyPk)) && q in rows && r in rows && q.pk == r.pk
    ensures q == r
  {
    var i :| 0 <= i < |rows| && rows[i] == q;
    var j :| 0 <= j < |rows| && rows[j] == r;
    assert Keys(rows, DiscrepancyPk)[i] == Keys(rows, DiscrepancyPk)[j];
  }

  /** What it adds is open, of the tenant, and under new primary keys. */
  lemma {:induction false} NewDiscrepanciesAreOpen(s: Store, tenant: Text, judge: Judge, now: int, q: DiscrepancyRow)
    requires WellKept(s) && Run(s, tenant, judge, now).Some?
    requires q in Run(s, tenant, judge, now).value.discrepancies && q !in s.discrepancies
    ensures q.state == Open && q.key.tenant == tenant && q.pk >= s.nextDiscrepancy
  {
    RunReports(s, tenant, judge, now);
    FindingsAreOfTenant(s, tenant, judge);
    var found := Computed(s, tenant, judge).value.found;
    ReportsAreOpen(found, s.nextDiscrepancy, tenant);
    var rows := Reports(found, s.nextDiscrepancy);
    assert q in rows;
    var i :| 0 <= i < |rows| && rows[i] == q;
    ReportsAreNumbered(found, s.nextDiscrepancy, i);
  }
}
