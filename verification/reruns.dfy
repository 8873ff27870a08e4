/** Decisions whose subjects are gone decide nothing, and a second run on the same planes finds the same. */
module Reruns {
  import opened Options
  import opened Sorting
  import opened Indexing
  import opened Texts
  import opened Snapshots
  import opened Matching
  import opened Diffing
  import opened Tables
  import opened Reconciliation
  import opened Runs
  import opened Outcomes
  import opened Anchoring

  // ---------------------------------------------------------------- the same planes again

  lemma {:induction false} DecisionsStep(rows: seq<MatchRow>, r: MatchRow, tenant: Text)
    ensures HumanOf(tenant)(r) ==> StoredDecisions(rows + [r], tenant) == StoredDecisions(rows, tenant) + [DecisionOf(r)]
    ensures !HumanOf(tenant)(r) ==> StoredDecisions(rows + [r], tenant) == StoredDecisions(rows, tenant)
  {
    FilterAppend(rows, r, HumanOf(tenant));
    if HumanOf(tenant)(r) {
      KeysAppend(Filter(rows, HumanOf(tenant)), r, DecisionOf);
    }
  }

  lemma {:induction false} ClearedStep(rows: seq<MatchRow>, r: MatchRow, tenant: Text, p: Present, now: int)
    ensures KeptByReset(tenant)(r) ==>
              Cleared(rows + [r], tenant, p, now) == Cleared(rows, tenant, p, now) + [RetireWith(tenant, p, now)(r)]
    ensures !KeptByReset(tenant)(r) ==> Cleared(rows + [r], tenant, p, now) == Cleared(rows, tenant, p, now)
  {
    FilterAppend(rows, r, KeptByReset(tenant));
    if KeptByReset(tenant)(r) {
      KeysAppend(Filter(rows, KeptByReset(tenant)), r, RetireWith(tenant, p, now));
    }
  }

  /** What a run leaves standing is what was anchored when it ran. */
  lemma {:induction false} StandingDecisions(rows: seq<MatchRow>, tenant: Text, p: Present, now: int)
    requires forall r :: r in rows && IsHuman(r) ==> r.providerId.Some?
    ensures StoredDecisions(Cleared(rows, tenant, p, now), tenant) == Filter(StoredDecisions(rows, tenant), AnchoredIn(p))
  {
    if rows != [] {
      var front, r := rows[..|rows| - 1], rows[|rows| - 1];
      assert rows == front + [r];
      StandingDecisions(front, tenant, p, now);
      StandingStep(front, r, tenant, p, now);
    }
  }

  lemma {:induction false} RetiredDecides(r: MatchRow, tenant: Text, p: Present, now: int)
    requires IsHuman(r) ==> r.providerId.Some?
    ensures HumanOf(tenant)(r) ==> KeptByReset(tenant)(r) && (AnchoredIn(p)(DecisionOf(r)) <==> Anchored(p, r))
    ensures HumanOf(tenant)(RetireWith(tenant, p, now)(r)) <==> HumanOf(tenant)(r) && Anchored(p, r)
    ensures HumanOf(tenant)(r) && Anchored(p, r) ==> RetireWith(tenant, p, now)(r) == r
  {}

  lemma {:induction false} StandingStep(front: seq<MatchRow>, r: MatchRow, tenant: Text, p: Present, now: int)
    requires IsHuman(r) ==> r.providerId.Some?
    requires StoredDecisions(Cleared(front, tenant, p, now), tenant) == Filter(StoredDecisions(front, tenant), AnchoredIn(p))
    ensures StoredDecisions(Cleared(front + [r], tenant, p, now), tenant) ==
            Filter(StoredDecisions(front + [r], tenant), AnchoredIn(p))
  {
    RetiredDecides(r, tenant, p, now);
    ClearedStep(front, r, tenant, p, now);
    DecisionsStep(front, r, tenant);
    DecisionsStep(Cleared(front, tenant, p, now), RetireWith(tenant, p, now)(r), tenant);
    FilterAppend(StoredDecisions(front, tenant), DecisionOf(r), AnchoredIn(p));
  }

  lemma {:induction false} ProposalsDecideNothing(cleared: seq<MatchRow>, pairs: seq<Pair>, next: nat, tenant: Text)
    ensures StoredDecisions(cleared + Proposals(pairs, next), tenant) == StoredDecisions(cleared, tenant)
  {
    FilterConcat(cleared, Proposals(pairs, next), HumanOf(tenant));
    FilterNone(Proposals(pairs, next), HumanOf(tenant));
    assert Filter(cleared, HumanOf(tenant)) + [] == Filter(cleared, HumanOf(tenant));
  }

  lemma {:induction false} MapsToItself<T>(xs: seq<T>, f: T -> T)
    requires forall x :: x in xs ==> f(x) == x
    ensures Keys(xs, f) == xs
  {
    forall i | 0 <= i < |xs| ensures f(xs[i]) == xs[i] { assert xs[i] in xs; }
  }

  /** Clearing what the last run wrote gives back what it had cleared to. */
  lemma {:induction false} ClearingAgain(
      rows: seq<MatchRow>, pairs: seq<Pair>, next: nat, tenant: Text, p: Present, now: int, later: int)
    requires forall q :: q in pairs ==> q.declared.key.tenant == tenant
    ensures var cleared := Cleared(rows, tenant, p, now);
            && Filter(cleared + Proposals(pairs, next), KeptByReset(tenant)) == cleared
            && Cleared(cleared + Proposals(pairs, next), tenant, p, later) == cleared
  {
    var cleared := Cleared(rows, tenant, p, now);
    forall r | r in cleared ensures KeptByReset(tenant)(r) && RetireWith(tenant, p, later)(r) == r {
      ClearedFrom(rows, tenant, p, now, r);
    }
    forall r | r in Proposals(pairs, next) ensures !KeptByReset(tenant)(r) {
      var i := ProposalFrom(pairs, next, r);
    }
    FilterConcat(cleared, Proposals(pairs, next), KeptByReset(tenant));
    FilterAll(cleared, KeptByReset(tenant));
    FilterNone(Proposals(pairs, next), KeptByReset(tenant));
    assert cleared + [] == cleared;
    MapsToItself(cleared, RetireWith(tenant, p, later));
  }

  lemma {:induction false} SameResultAgain(s: Store, t: Store, tenant: Text, now: int)
    requires WellKept(s) && ProvidersDistinct(s, tenant)
    requires t.declared == s.declared && t.active == s.active && t.discovered == s.discovered
    requires t.matches == MatchesAfter(s, tenant, now)
    ensures Result(t, tenant) == Result(s, tenant)
  {
    StandingDecisions(s.matches, tenant, PresentNow(s, tenant), now);
    ProposalsDecideNothing(ClearedMatches(s, tenant, now), Pending(s, tenant, now), s.nextMatch, tenant);
    OnlyProvidersAreAmbiguous(s, tenant);
    OnlyAnchoredDecisionsMatter(DeclaredPlane(s, tenant), DiscoveredPlane(s, tenant), StoredDecisions(s.matches, tenant));
  }

  function ProposedFor(tenant: Text): MatchRow -> bool { (r: MatchRow) => r.state.Proposed? && OfTenant(r, tenant) }
  function OpenFor(tenant: Text): DiscrepancyRow -> bool { (r: DiscrepancyRow) => r.state.Open? && r.key.tenant == tenant }
  function ProposalContent(r: MatchRow): (NaturalKey, Option<Text>, Strategy) { (r.anchor, r.providerId, r.strategy) }
  function DiscrepancyContent(r: DiscrepancyRow): (NaturalKey, Finding) { (r.key, r.finding) }

  lemma {:induction false} MatchesAgain(s: Store, t: Store, tenant: Text, now: int, later: int)
    requires WellKept(s) && ProvidersDistinct(s, tenant)
    requires t.declared == s.declared && t.active == s.active && t.discovered == s.discovered
    requires t.matches == MatchesAfter(s, tenant, now)
    ensures ClearedMatches(t, tenant, later) == ClearedMatches(s, tenant, now)
    ensures Pending(t, tenant, later) == Pending(s, tenant, now)
  {
    SameResultAgain(s, t, tenant, now);
    PendingArePairs(s, tenant, now);
    ClearingAgain(s.matches, Pending(s, tenant, now), s.nextMatch, tenant, PresentNow(s, tenant), now, later);
  }

  lemma {:induction false} ProposalsOf(cleared: seq<MatchRow>, pairs: seq<Pair>, next: nat, tenant: Text)
    requires forall q :: q in pairs ==> q.declared.key.tenant == tenant
    requires forall r :: r in cleared ==> KeptByReset(tenant)(r)
    ensures Filter(cleared + Proposals(pairs, next), ProposedFor(tenant)) == Proposals(pairs, next)
    ensures Filter(cleared + Proposals(pairs, next), KeptByReset(tenant)) == cleared
  {
    var rows := Proposals(pairs, next);
    forall r | r in rows ensures ProposedFor(tenant)(r) { var i := ProposalFrom(pairs, next, r); }
    FilterConcat(cleared, rows, ProposedFor(tenant));
    FilterNone(cleared, ProposedFor(tenant));
    FilterAll(rows, ProposedFor(tenant));
    assert [] + rows == rows;
    FilterConcat(cleared, rows, KeptByReset(tenant));
    FilterAll(cleared, KeptByReset(tenant));
    FilterNone(rows, KeptByReset(tenant));
    assert cleared + [] == cleared;
  }

  ghost predicate SameMatches(a: seq<MatchRow>, b: seq<MatchRow>, tenant: Text) {
    && Filter(a, KeptByReset(tenant)) == Filter(b, KeptByReset(tenant))
    && Keys(Filter(a, ProposedFor(tenant)), ProposalContent) == Keys(Filter(b, ProposedFor(tenant)), ProposalContent)
  }

  ghost predicate SameDiscrepancies(a: seq<DiscrepancyRow>, b: seq<DiscrepancyRow>, tenant: Text) {
    && Filter(a, KeptDiscrepancy(tenant)) == Filter(b, KeptDiscrepancy(tenant))
    && Keys(Filter(a, OpenFor(tenant)), DiscrepancyContent) == Keys(Filter(b, OpenFor(tenant)), DiscrepancyContent)
  }

  lemma {:induction false} SameProposals(cleared: seq<MatchRow>, pairs: seq<Pair>, n: nat, m: nat, tenant: Text)
    requires forall q :: q in pairs ==> q.declared.key.tenant == tenant
    requires forall r :: r in cleared ==> KeptByReset(tenant)(r)
    ensures SameMatches(cleared + Proposals(pairs, n), cleared + Proposals(pairs, m), tenant)
  {
    ProposalsOf(cleared, pairs, n, tenant);
    ProposalsOf(cleared, pairs, m, tenant);
  }

  ghost predicate ReportsOn(found: DiscrepancySet, tenant: Text) {
    && (forall d :: d in found.fields ==> d.key.tenant == tenant)
    && (forall o :: o in found.orphans ==> o.key.tenant == tenant)
  }

  lemma {:induction false} ReportsAreOpen(found: DiscrepancySet, next: nat, tenant: Text)
    requires ReportsOn(found, tenant)
    ensures forall r :: r in Reports(found, next) ==> OpenFor(tenant)(r)
  {
    var rows := Reports(found, next);
    forall r | r in rows ensures OpenFor(tenant)(r) {
      var i :| 0 <= i < |rows| && rows[i] == r;
      if i < |found.fields| {
        assert r == FindingAt(next + i, found.fields[i]);
      } else {
        assert r == OrphanAt(next + i, found.orphans[i - |found.fields|]);
      }
    }
  }

  lemma {:induction false} ReportsOf(kept: seq<DiscrepancyRow>, found: DiscrepancySet, next: nat, tenant: Text)
    requires ReportsOn(found, tenant) && forall r :: r in kept ==> KeptDiscrepancy(tenant)(r)
    ensures Filter(kept + Reports(found, next), KeptDiscrepancy(tenant)) == kept
    ensures Filter(kept + Reports(found, next), OpenFor(tenant)) == Reports(found, next)
  {
    var rows := Reports(found, next);
    ReportsAreOpen(found, next, tenant);
    FilterConcat(kept, rows, KeptDiscrepancy(tenant));
    FilterAll(kept, KeptDiscrepancy(tenant));
    FilterNone(rows, KeptDiscrepancy(tenant));
    assert kept + [] == kept;
    FilterConcat(kept, rows, OpenFor(tenant));
    FilterNone(kept, OpenFor(tenant));
    FilterAll(rows, OpenFor(tenant));
    assert [] + rows == rows;
  }

  lemma {:induction false} SameContent(found: DiscrepancySet, n: nat, m: nat)
    ensures Keys(Reports(found, n), DiscrepancyContent) == Keys(Reports(found, m), DiscrepancyContent)
  {
    forall i | 0 <= i < |found.fields| + |found.orphans|
      ensures DiscrepancyContent(Reports(found, n)[i]) == DiscrepancyContent(Reports(found, m)[i])
    {}
  }

  lemma {:induction false} SameReports(rows: seq<DiscrepancyRow>, found: DiscrepancySet, n: nat, m: nat, tenant: Text)
    requires ReportsOn(found, tenant)
    ensures var kept := Filter(rows, KeptDiscrepancy(tenant));
            var again := Filter(kept + Reports(found, n), KeptDiscrepancy(tenant)) + Reports(found, m);
            && again == kept + Reports(found, m)
            && SameDiscrepancies(kept + Reports(found, n), again, tenant)
  {
    var kept := Filter(rows, KeptDiscrepancy(tenant));
    ReportsOf(kept, found, n, tenant);
    ReportsOf(kept, found, m, tenant);
    SameContent(found, n, m);
  }

  lemma {:induction false} OrphansAreOfPlane(plane: seq<Snapshot>, matched: set<NaturalKey>, tenant: Text, kind: OrphanKind)
    requires forall s :: s in plane ==> s.key.tenant == tenant
    ensures forall o :: o in OrphanDiscrepancies(Orphans(plane, matched), kind) ==> o.key.tenant == tenant
  {
    SortByKeepsElements(Filter(plane, Unmatched(matched)), KeyOfSnapshot, KeyLe);
    ReportedOrphans(Orphans(plane, matched), tenant, kind);
  }

  lemma {:induction false} ReportedOrphans(orphans: seq<Snapshot>, tenant: Text, kind: OrphanKind)
    requires forall s :: s in orphans ==> s.key.tenant == tenant
    ensures forall o :: o in OrphanDiscrepancies(orphans, kind) ==> o.key.tenant == tenant
  {
    SortByKeepsElements(orphans, KeyOfSnapshot, KeyLe);
    var sorted := SortBy(orphans, KeyOfSnapshot, KeyLe);
    forall o | o in OrphanDiscrepancies(orphans, kind) ensures o.key.tenant == tenant {
      var i :| 0 <= i < |sorted| && OrphanDiscrepancies(orphans, kind)[i] == o;
      assert sorted[i] in sorted;
    }
  }

  lemma {:induction false} FindingsAreOfTenant(s: Store, tenant: Text, judge: Judge)
    requires WellKept(s) && Computed(s, tenant, judge).Some?
    ensures ReportsOn(Computed(s, tenant, judge).value.found, tenant)
  {
    ComputedExactly(s, tenant, judge);
    PairsAreNamed(s, tenant);
    PairsComeFromPlanes(s, tenant);
    PlaneTenants(s, tenant);
    var result := Result(s, tenant);
    forall d | d in Differences(result, judge).fields ensures d.key.tenant == tenant {
      DifferencesCharacterized(result, judge, d);
    }
    OrphansAreOfPlane(DeclaredPlane(s, tenant), KeySet(result.pairs, DeclaredKeyOf), tenant, DeclaredMissing);
    OrphansAreOfPlane(DiscoveredPlane(s, tenant), KeySet(result.pairs, DiscoveredKeyOf), tenant, DiscoveredUndeclared);
  }

  lemma {:induction false} ComputedAgain(s: Store, t: Store, tenant: Text, judge: Judge)
    requires WellKept(s) && WellKept(t) && Computed(s, tenant, judge).Some?
    requires t.declared == s.declared && t.active == s.active && t.discovered == s.discovered
    requires Result(t, tenant) == Result(s, tenant)
    ensures Computed(t, tenant, judge) == Computed(s, tenant, judge)
  {
    ComputedExactly(s, tenant, judge);
    SameProviders(s, t, tenant);
    ComputedFromResult(s, tenant, judge);
    ComputedFromResult(t, tenant, judge);
  }

  lemma {:induction false} SameProviders(s: Store, t: Store, tenant: Text)
    requires t.declared == s.declared && t.active == s.active && t.discovered == s.discovered
    ensures ProvidersDistinct(t, tenant) <==> ProvidersDistinct(s, tenant)
  {}

  lemma {:induction false} RunReports(s: Store, tenant: Text, judge: Judge, now: int)
    requires WellKept(s) && Run(s, tenant, judge, now).Some?
    ensures Computed(s, tenant, judge).Some?
    ensures Run(s, tenant, judge, now).value.discrepancies ==
            Filter(s.discrepancies, KeptDiscrepancy(tenant)) +
            Reports(Computed(s, tenant, judge).value.found, s.nextDiscrepancy)
  {}

  lemma {:induction false} ProposalsAgain(s: Store, t: Store, tenant: Text, now: int, later: int)
    requires WellKept(s) && ProvidersDistinct(s, tenant)
    requires t.declared == s.declared && t.active == s.active && t.discovered == s.discovered
    requires t.matches == MatchesAfter(s, tenant, now)
    ensures SameMatches(t.matches, MatchesAfter(t, tenant, later), tenant)
  {
    MatchesAgain(s, t, tenant, now, later);
    PendingArePairs(s, tenant, now);
    ClearingAgain(s.matches, Pending(s, tenant, now), s.nextMatch, tenant, PresentNow(s, tenant), now, later);
    forall r | r in ClearedMatches(s, tenant, now) ensures KeptByReset(tenant)(r) {
      ClearedFrom(s.matches, tenant, PresentNow(s, tenant), now, r);
    }
    SameProposals(ClearedMatches(s, tenant, now), Pending(s, tenant, now), s.nextMatch, t.nextMatch, tenant);
  }

  lemma {:induction false} ReportsAgain(s: Store, t: Store, tenant: Text, judge: Judge, now: int, later: int)
    requires WellKept(s) && Run(s, tenant, judge, now) == Some(t)
    requires WellKept(t) && Run(t, tenant, judge, later).Some?
    requires Computed(t, tenant, judge) == Computed(s, tenant, judge)
    ensures SameDiscrepancies(t.discrepancies, Run(t, tenant, judge, later).value.discrepancies, tenant)
    ensures Filter(t.discrepancies, KeptDiscrepancy(tenant)) == Filter(s.discrepancies, KeptDiscrepancy(tenant))
  {
    RunReports(s, tenant, judge, now);
    RunReports(t, tenant, judge, later);
    FindingsAreOfTenant(s, tenant, judge);
    var found := Computed(s, tenant, judge).value.found;
    SameReports(s.discrepancies, found, s.nextDiscrepancy, t.nextDiscrepancy, tenant);
    ReportsOf(Filter(s.discrepancies, KeptDiscrepancy(tenant)), found, s.nextDiscrepancy, tenant);
  }

  /**
   * Running again on unchanged planes and policy reproduces the same proposals and the same open
   * discrepancies, and leaves every decision, every resolved discrepancy and every other tenant alone.
   */
  lemma {:induction false} RerunReproduces(s: Store, tenant: Text, judge: Judge, now: int, later: int)
    requires WellKept(s) && Run(s, tenant, judge, now).Some?
    ensures var t := Run(s, tenant, judge, now).value;
            && WellKept(t)
            && Run(t, tenant, judge, later).Some?
            && SameMatches(t.matches, Run(t, tenant, judge, later).value.matches, tenant)
            && SameDiscrepancies(t.discrepancies, Run(t, tenant, judge, later).value.discrepancies, tenant)
            && Filter(t.discrepancies, KeptDiscrepancy(tenant)) == Filter(s.discrepancies, KeptDiscrepancy(tenant))
  {
    var t := Run(s, tenant, judge, now).value;
    RunCompletesExactly(s, tenant, judge, now);
    SameResultAgain(s, t, tenant, now);
    RunReports(s, tenant, judge, now);
    ComputedAgain(s, t, tenant, judge);
    ComputedExactly(t, tenant, judge);
    RunCompletesExactly(t, tenant, judge, later);
    ProposalsAgain(s, t, tenant, now, later);
    ReportsAgain(s, t, tenant, judge, now, later);
  }
}
