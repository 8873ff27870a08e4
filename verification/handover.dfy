/** From collection to reconciliation: what a clean read gives the run that follows it. */
module Handover {
  import opened Sorting
  import opened Indexing
  import opened Texts
  import opened Snapshots
  import opened Matching
  import opened Diffing
  import opened Reconciliation
  import opened Runs
  import opened Absence
  import opened Collection
  import opened Conclusions

  /** The run reads the discovered rows as the collectors left them. */
  ghost predicate Lists(s: Store, p: Plane) {
    forall r :: r in s.discovered ==>
      && r.snapshot.key in p.rows
      && p.rows[r.snapshot.key].snapshot == r.snapshot
      && p.rows[r.snapshot.key].absent == r.absent
  }

  /** The tenant's rows were all last seen by one collector. */
  ghost predicate OneCollector(p: Plane, owner: Owner) {
    forall k :: k in p.rows && k.tenant == owner.tenant ==>
      && p.rows[k].lastSeenRun < |p.runs|
      && p.runs[p.rows[k].lastSeenRun].owner == owner
  }

  lemma {:induction false} PresentIsShown(s: Store, p: Plane, owner: Owner, c: Snapshot)
    requires Lists(s, p) && OneCollector(p, owner) && c in DiscoveredPlane(s, owner.tenant)
    ensures Shows(p, owner, c.key) && p.rows[c.key].snapshot == c
  {
    var rows := Filter(s.discovered, PresentFor(owner.tenant));
    KeyedBy(rows, DiscoveredSnapshot, c);
    var r :| r in rows && DiscoveredSnapshot(r) == c;
    assert r in s.discovered;
  }

  /** Rows shown apart are resources with distinct provider ids. */
  lemma {:induction false} ShownApartIsDistinct(s: Store, p: Plane, owner: Owner)
    requires WellKept(s) && Lists(s, p) && OneCollector(p, owner) && ShownApart(p, owner)
    ensures ProvidersDistinct(s, owner.tenant)
  {
    var plane := DiscoveredPlane(s, owner.tenant);
    var identified := Filter(plane, IsIdentified);
    PlaneKeysDistinct(s, owner.tenant);
    FilterKeepsNoRepeats(plane, IsIdentified, KeyOfSnapshot);
    forall i, j | 0 <= i < j < |identified| ensures Keys(identified, ProviderOf)[i] != Keys(identified, ProviderOf)[j] {
      assert identified[i] in identified && identified[j] in identified;
      PresentIsShown(s, p, owner, identified[i]);
      PresentIsShown(s, p, owner, identified[j]);
      assert Keys(identified, KeyOfSnapshot)[i] != Keys(identified, KeyOfSnapshot)[j];
    }
  }

  /**
   * Once a whole, clean read of records with distinct provider ids concludes, by the one collector of the
   * tenant and amid whatever other runs, the next reconciliation run can fail only over a confirmation that
   * joins two kinds or a comparison that raises.
   */
  lemma {:induction false} CleanReadLetsRunComplete(
      log: seq<Absence.Event>, n: nat, run: nat, a: Adapter, db: Database, tenant: Text, fetched: Fetched, now: int,
      s: Store, judge: Judge, later: int)
    requires Legal(log) && HoldsRun(log, run, a, db, tenant, fetched, now) && Clean(a, db, tenant, fetched)
    requires n < |log| && log[n] == Mark(run, now)
    requires ProvidersTellApart(Stored(a, db, tenant, fetched.records))
    requires WellKept(s) && Lists(s, Before(log, n + 1)) && OneCollector(Before(log, n + 1), KeyFor(a, tenant))
    ensures Run(s, tenant, judge, later).Some? <==> ConfirmationsOfOneKind(s, tenant) && ComparisonsSettle(s, tenant, judge)
  {
    CleanReadSeparatesProviders(log, n, run, a, db, tenant, fetched, now);
    ShownApartIsDistinct(s, Before(log, n + 1), KeyFor(a, tenant));
    RunCompletesExactly(s, tenant, judge, later);
  }
}
