/** From the provider's pages to the plane a run leaves: what only a whole, clean read may conclude. */
module Conclusions {
  import opened Options
  import opened Texts
  import opened Values
  import opened Snapshots
  import opened Absence
  import opened Collection

  predicate Sees(snapshots: seq<Snapshot>, k: NaturalKey) { exists i :: 0 <= i < |snapshots| && snapshots[i].key == k }

  lemma {:induction false} SeesAppend(snapshots: seq<Snapshot>, s: Snapshot, k: NaturalKey)
    ensures Sees(snapshots + [s], k) <==> Sees(snapshots, k) || s.key == k
  {
    var all := snapshots + [s];
    if Sees(snapshots, k) {
      var i :| 0 <= i < |snapshots| && snapshots[i].key == k;
      assert all[i].key == k;
    }
    assert all[|snapshots|] == s;
  }

  /** The rows after the observations: what the run saw is present, the rest is as it was. */
  ghost predicate Refiled(before: Plane, after: Plane, run: nat, snapshots: seq<Snapshot>) {
    && after.runs == before.runs
    && (forall k :: k in after.rows <==> k in before.rows || Sees(snapshots, k))
    && (forall k :: k in after.rows && Sees(snapshots, k) ==> !after.rows[k].absent && after.rows[k].lastSeenRun == run)
    && (forall k :: k in after.rows && !Sees(snapshots, k) ==> after.rows[k] == before.rows[k])
  }

  lemma {:induction false} RefiledOnce(before: Plane, middle: Plane, run: nat, snapshots: seq<Snapshot>, s: Snapshot)
    requires Refiled(before, middle, run, snapshots)
    ensures Refiled(before, middle.(rows := middle.rows[s.key := Row(s, run, false, None)]), run, snapshots + [s])
  {
    forall k ensures Sees(snapshots + [s], k) <==> Sees(snapshots, k) || s.key == k { SeesAppend(snapshots, s, k); }
  }

  lemma {:induction false} ObservedAll(log: seq<Event>, run: nat, snapshots: seq<Snapshot>)
    requires Legal(log) && Alive(Replay(log), run) && Replay(log).runs[run].phase == Reading
    requires forall s :: s in snapshots ==> s.key.tenant == Replay(log).runs[run].owner.tenant
    ensures Legal(log + Observations(run, snapshots))
    ensures Refiled(Replay(log), Replay(log + Observations(run, snapshots)), run, snapshots)
  {
    if snapshots == [] {
      assert log + Observations(run, snapshots) == log;
    } else {
      var front, s := snapshots[..|snapshots| - 1], snapshots[|snapshots| - 1];
      assert snapshots == front + [s];
      ObservedAll(log, run, front);
      var middle := log + Observations(run, front);
      Extended(middle, Observe(run, s));
      ThenObserved(log, run, front, s);
      RefiledOnce(Replay(log), Replay(middle), run, front, s);
    }
  }

  /** The log just before the run concludes. */
  function ReadAndFinished(log: seq<Event>, owner: Owner, run: nat, snapshots: seq<Snapshot>, status: Status, gap: bool): seq<Event> {
    log + [Start(owner)] + Observations(run, snapshots) + [Finish(run, status, gap)]
  }

  lemma {:induction false} Finishing(
      log: seq<Event>, owner: Owner, snapshots: seq<Snapshot>, status: Status, gap: bool)
    requires Legal(log) && LockFree(Replay(log), owner)
    requires forall s :: s in snapshots ==> s.key.tenant == owner.tenant
    ensures var run := |Replay(log).runs|;
            var read := ReadAndFinished(log, owner, run, snapshots, status, gap);
            && Legal(read)
            && Refiled(Replay(log).(runs := Replay(read).runs), Replay(read), run, snapshots)
            && Replay(read).runs == Replay(log).runs + [CollectorRun(owner, status, gap, Finished, true)]
  {
    var run := |Replay(log).runs|;
    Extended(log, Start(owner));
    var started := log + [Start(owner)];
    ObservedAll(started, run, snapshots);
    Extended(started + Observations(run, snapshots), Finish(run, status, gap));
  }

  /** The plane once the run has concluded and let go of its lock. */
  lemma {:induction false} Concluding(log: seq<Event>, run: nat, now: int)
    requires Legal(log) && Alive(Replay(log), run) && Replay(log).runs[run].phase == Finished
    ensures Legal(log + [Mark(run, now), End(run)])
    ensures var p := Replay(log + [Mark(run, now), End(run)]);
            && p.rows == MarkAbsentAfter(Replay(log), run, now)
            && |p.runs| == |Replay(log).runs|
            && forall r :: 0 <= r < |p.runs| ==> p.runs[r].owner == Replay(log).runs[r].owner
  {
    Extended(log, Mark(run, now));
    Extended(log + [Mark(run, now)], End(run));
    assert log + [Mark(run, now), End(run)] == log + [Mark(run, now)] + [End(run)];
  }

  /** A run is a success exactly when paging came to its end and every record was stored. */
  lemma {:induction false} SuccessExactlyWhenWhole(a: Adapter, db: Database, tenant: Text, fetched: Fetched)
    ensures var r := Expected(a, db, tenant, fetched);
            (r.Done? && r.status == Success) <==>
            fetched.WholeRead? && forall i :: 0 <= i < |fetched.records| ==> Judged(a, db, tenant, fetched.records[i]).Storing?
    ensures var r := Expected(a, db, tenant, fetched);
            r.Done? ==> r.counts.read == r.counts.written + r.counts.errors && (r.status == Success ==> !r.gap)
  {
    if !fetched.Unavailable? { AllStored(a, db, tenant, fetched.records); }
  }

  ghost predicate HasBug(a: Adapter, records: seq<Value>) {
    exists i, n :: 0 <= i < |records| && a.normalize(records[i]) == Some(n) && EntriesStorable(n.attributes) && n.key.kind != a.kind
  }

  /**
   * What a run reports, read off what was fetched: nothing but failure if nothing was; no report if a record
   * was of another kind; otherwise every record counted as written or as an error, and a gap for a read cut short.
   */
  lemma {:induction false} ReportIs(a: Adapter, db: Database, tenant: Text, fetched: Fetched)
    ensures var r := Expected(a, db, tenant, fetched);
            && (fetched.Unavailable? ==> r == Done(Counts(0, 0, 0), Failed, false))
            && (!fetched.Unavailable? ==> (r.Aborted? <==> HasBug(a, fetched.records)))
            && (!fetched.Unavailable? && !r.Aborted? ==>
                  && r.Done?
                  && r.counts.read == |fetched.records|
                  && r.counts.written == |Stored(a, db, tenant, fetched.records)|
                  && r.counts.errors == r.counts.read - r.counts.written
                  && r.gap == fetched.PartialRead?
                  && r.status == if r.counts.errors == 0 && !r.gap then Success else Partial)
  {
    if !fetched.Unavailable? {
      forall i | 0 <= i < |fetched.records|
        ensures Judged(a, db, tenant, fetched.records[i]).AdapterBug? <==>
                exists n :: a.normalize(fetched.records[i]) == Some(n) && EntriesStorable(n.attributes) && n.key.kind != a.kind
      {
        JudgedExactly(a, db, tenant, fetched.records[i]);
      }
    }
  }

  function KeyFor(a: Adapter, tenant: Text): Owner { Owner(tenant, a.name) }

  lemma {:induction false} RunLog(
      log: seq<Event>, a: Adapter, db: Database, tenant: Text, fetched: Fetched, run: nat, now: int)
    requires !fetched.Unavailable? && NoBug(a, db, tenant, fetched.records)
    ensures var r := Expected(a, db, tenant, fetched);
            r.Done? &&
            log + RunEvents(a, db, tenant, fetched, run, now) ==
            ReadAndFinished(log, KeyFor(a, tenant), run, Stored(a, db, tenant, fetched.records), r.status, r.gap) +
            [Mark(run, now), End(run)]
  {
    NoBugAtAll(a, db, tenant, fetched.records);
    var r := Expected(a, db, tenant, fetched);
    Regrouped(log, Start(KeyFor(a, tenant)), Observations(run, Stored(a, db, tenant, fetched.records)),
              Finish(run, r.status, r.gap), Mark(run, now), End(run));
  }

  lemma {:induction false} Regrouped(log: seq<Event>, s: Event, kept: seq<Event>, e: Event, f: Event, g: Event)
    ensures log + ([s] + (kept + [e, f, g])) == log + [s] + kept + [e] + [f, g]
  {}

  // ---------------------------------------------------------------- one run among others

  predicate OfRun(e: Event, run: nat) { !e.Start? && e.run == run }

  /** What a run has done since it started, whatever other runs did in between. */
  function DoneBy(log: seq<Event>, run: nat): seq<Event> {
    if log == [] then []
    else DoneBy(log[..|log| - 1], run) + if OfRun(log[|log| - 1], run) then [log[|log| - 1]] else []
  }

  /** The log holds a run of this adapter, over this fetch, as far as it has got. */
  ghost predicate HoldsRun(
      log: seq<Event>, run: nat, a: Adapter, db: Database, tenant: Text, fetched: Fetched, now: int)
    requires Legal(log)
  {
    && run < |Replay(log).runs|
    && Replay(log).runs[run].owner == KeyFor(a, tenant)
    && DoneBy(log, run) <= RestEvents(a, db, tenant, fetched, run, now)
  }

  lemma {:induction false} DoneByHas(log: seq<Event>, run: nat, e: Event)
    ensures e in DoneBy(log, run) <==> e in log && OfRun(e, run)
  {
    if log != [] {
      DoneByHas(log[..|log| - 1], run, e);
      assert log == log[..|log| - 1] + [log[|log| - 1]];
    }
  }

  lemma {:induction false} DoneByPrefix(log: seq<Event>, run: nat, n: nat)
    requires n <= |log|
    ensures DoneBy(log[..n], run) <= DoneBy(log, run)
  {
    if n == |log| {
      assert log[..n] == log;
    } else {
      DoneByPrefix(log[..|log| - 1], run, n);
      assert log[..|log| - 1][..n] == log[..n];
    }
  }

  lemma {:induction false} DoneByConcat(log: seq<Event>, more: seq<Event>, run: nat)
    ensures DoneBy(log + more, run) == DoneBy(log, run) + DoneBy(more, run)
  {
    if more == [] {
      assert log + more == log;
    } else {
      DoneByConcat(log, more[..|more| - 1], run);
      assert (log + more)[..|log + more| - 1] == log + more[..|more| - 1];
    }
  }

  lemma {:induction false} DoneByAll(log: seq<Event>, run: nat)
    requires forall i :: 0 <= i < |log| ==> OfRun(log[i], run)
    ensures DoneBy(log, run) == log
  {
    if log != [] { DoneByAll(log[..|log| - 1], run); }
  }

  lemma {:induction false} NotYetBegun(log: seq<Event>, run: nat)
    requires Legal(log) && run >= |Replay(log).runs|
    ensures DoneBy(log, run) == []
  {
    if log != [] { NotYetBegun(log[..|log| - 1], run); }
  }

  ghost predicate SaysHowItFinished(r: CollectorRun, run: nat, done: seq<Event>) {
    && (r.phase != Reading ==> Finish(run, r.status, r.gap) in done)
    && (r.phase == Reading ==> r.status == Failed)
  }

  lemma {:induction false} StillSays(p: Plane, e: Event, run: nat, done: seq<Event>)
    requires Enabled(p, e) && run < |p.runs| && SaysHowItFinished(p.runs[run], run, done)
    ensures SaysHowItFinished(Applied(p, e).runs[run], run, done + if OfRun(e, run) then [e] else [])
  {}

  /** A run says what it finished as. */
  lemma {:induction false} FinishedAs(log: seq<Event>, run: nat)
    requires Legal(log) && run < |Replay(log).runs|
    ensures SaysHowItFinished(Replay(log).runs[run], run, DoneBy(log, run))
  {
    var front, e := log[..|log| - 1], log[|log| - 1];
    if run < |Replay(front).runs| {
      FinishedAs(front, run);
      StillSays(Replay(front), e, run, DoneBy(front, run));
    }
  }

  lemma {:induction false} AllOfRun(run: nat, snapshots: seq<Snapshot>, last: seq<Event>)
    requires forall i :: 0 <= i < |last| ==> OfRun(last[i], run)
    ensures DoneBy(Observations(run, snapshots) + last, run) == Observations(run, snapshots) + last
  {
    DoneByAll(Observations(run, snapshots) + last, run);
  }

  lemma {:induction false} DoneIsOfRun(a: Adapter, db: Database, tenant: Text, fetched: Fetched, run: nat, now: int)
    requires !fetched.Unavailable? && Expected(a, db, tenant, fetched).Done?
    ensures DoneBy(RestEvents(a, db, tenant, fetched, run, now), run) == RestEvents(a, db, tenant, fetched, run, now)
  {
    var r := Expected(a, db, tenant, fetched);
    AllOfRun(run, Stored(a, db, tenant, UntilBug(a, db, tenant, fetched.records)),
             [Finish(run, r.status, r.gap), Mark(run, now), End(run)]);
  }

  lemma {:induction false} AbortedIsOfRun(a: Adapter, db: Database, tenant: Text, fetched: Fetched, run: nat, now: int)
    requires !fetched.Unavailable? && Expected(a, db, tenant, fetched).Aborted?
    ensures DoneBy(RestEvents(a, db, tenant, fetched, run, now), run) == RestEvents(a, db, tenant, fetched, run, now)
  {
    AllOfRun(run, Stored(a, db, tenant, UntilBug(a, db, tenant, fetched.records)), [End(run)]);
  }

  lemma {:induction false} RestIsOfRun(a: Adapter, db: Database, tenant: Text, fetched: Fetched, run: nat, now: int)
    ensures DoneBy(RestEvents(a, db, tenant, fetched, run, now), run) == RestEvents(a, db, tenant, fetched, run, now)
  {
    if fetched.Unavailable? {
      DoneByAll([Finish(run, Failed, false), End(run)], run);
    } else if Expected(a, db, tenant, fetched).Done? {
      DoneIsOfRun(a, db, tenant, fetched, run, now);
    } else {
      AbortedIsOfRun(a, db, tenant, fetched, run, now);
    }
  }

  /** What a run of the methods above adds by itself is such a run, from start to end. */
  lemma {:induction false} LoneRun(log: seq<Event>, a: Adapter, db: Database, tenant: Text, fetched: Fetched, now: int)
    requires Legal(log) && LockFree(Replay(log), KeyFor(a, tenant))
    ensures var run := |Replay(log).runs|;
            var after := log + RunEvents(a, db, tenant, fetched, run, now);
            && Legal(after)
            && HoldsRun(after, run, a, db, tenant, fetched, now)
            && DoneBy(after, run) == RestEvents(a, db, tenant, fetched, run, now)
  {
    var run, owner := |Replay(log).runs|, KeyFor(a, tenant);
    var rest := RestEvents(a, db, tenant, fetched, run, now);
    LoneRunIsLegal(log, a, db, tenant, fetched, now);
    NotYetBegun(log, run);
    ReadAppends(log, a, db, tenant, fetched, run, now);
    DoneByConcat(log, [Start(owner)], run);
    DoneByConcat(log + [Start(owner)], rest, run);
    RestIsOfRun(a, db, tenant, fetched, run, now);
    assert DoneBy([Start(owner)], run) == [];
  }

  lemma {:induction false} LoneRunIsLegal(log: seq<Event>, a: Adapter, db: Database, tenant: Text, fetched: Fetched, now: int)
    requires Legal(log) && LockFree(Replay(log), KeyFor(a, tenant))
    ensures var run := |Replay(log).runs|;
            var after := log + RunEvents(a, db, tenant, fetched, run, now);
            Legal(after) && run < |Replay(after).runs| && Replay(after).runs[run].owner == KeyFor(a, tenant)
  {
    var run, owner := |Replay(log).runs|, KeyFor(a, tenant);
    if fetched.Unavailable? {
      UnavailableLog(log, a, db, tenant, fetched, run, now);
      NothingRead(log, owner);
    } else if NoBug(a, db, tenant, fetched.records) {
      var r, snapshots := Expected(a, db, tenant, fetched), Stored(a, db, tenant, fetched.records);
      RunLog(log, a, db, tenant, fetched, run, now);
      StoredIsOfTenant(a, db, tenant, fetched.records);
      Finishing(log, owner, snapshots, r.status, r.gap);
      Concluding(ReadAndFinished(log, owner, run, snapshots, r.status, r.gap), run, now);
    } else {
      AbortedLog(log, a, db, tenant, fetched, run, now);
      StoredIsOfTenant(a, db, tenant, UntilBug(a, db, tenant, fetched.records));
      StoppedShort(log, owner, Stored(a, db, tenant, UntilBug(a, db, tenant, fetched.records)));
    }
  }

  // ---------------------------------------------------------------- what a clean read concludes

  ghost predicate Clean(a: Adapter, db: Database, tenant: Text, fetched: Fetched) {
    fetched.WholeRead? && forall i :: 0 <= i < |fetched.records| ==> Judged(a, db, tenant, fetched.records[i]).Storing?
  }

  predicate ObservedBy(log: seq<Event>, k: NaturalKey, run: nat, n: int) { ObservesAt(log, k, n) && log[n].run == run }

  /** Since the run saw the resource, another has. */
  ghost predicate TakenOver(log: seq<Event>, k: NaturalKey, run: nat) {
    exists m :: ObservesAt(log, k, m) && log[m].run != run && forall n :: ObservedBy(log, k, run, n) ==> n < m
  }

  lemma {:induction false} CleanEvents(a: Adapter, db: Database, tenant: Text, fetched: Fetched, run: nat, now: int)
    requires Clean(a, db, tenant, fetched)
    ensures RestEvents(a, db, tenant, fetched, run, now) ==
            Observations(run, Stored(a, db, tenant, fetched.records)) + [Finish(run, Success, false), Mark(run, now), End(run)]
  {
    SuccessExactlyWhenWhole(a, db, tenant, fetched);
    NoBugAtAll(a, db, tenant, fetched.records);
  }

  /** By the time it concludes, a run has made all its observations, and those only. */
  lemma {:induction false} MarkedAfterAll(done: seq<Event>, kept: seq<Event>, run: nat, now: int)
    requires done != [] && done[|done| - 1] == Mark(run, now)
    requires done <= kept + [Finish(run, Success, false), Mark(run, now), End(run)]
    requires forall i :: 0 <= i < |kept| ==> kept[i].Observe?
    ensures done == kept + [Finish(run, Success, false), Mark(run, now)]
  {
    var all := kept + [Finish(run, Success, false), Mark(run, now), End(run)];
    assert all[|done| - 1] == Mark(run, now);
    assert |done| == |kept| + 2;
    assert done == all[..|done|];
  }

  lemma {:induction false} CleanDone(
      log: seq<Event>, n: nat, run: nat, a: Adapter, db: Database, tenant: Text, fetched: Fetched, now: int)
    requires Legal(log) && HoldsRun(log, run, a, db, tenant, fetched, now) && Clean(a, db, tenant, fetched)
    requires n < |log| && log[n] == Mark(run, now)
    ensures DoneBy(log[..n + 1], run) ==
            Observations(run, Stored(a, db, tenant, fetched.records)) + [Finish(run, Success, false), Mark(run, now)]
  {
    CleanEvents(a, db, tenant, fetched, run, now);
    DoneByPrefix(log, run, n + 1);
    assert log[..n + 1][..n] == log[..n];
    MarkedAfterAll(DoneBy(log[..n + 1], run), Observations(run, Stored(a, db, tenant, fetched.records)), run, now);
  }

  lemma {:induction false} ObservedIsStored(log: seq<Event>, run: nat, snapshots: seq<Snapshot>, now: int, k: NaturalKey, i: int)
    requires DoneBy(log, run) == Observations(run, snapshots) + [Finish(run, Success, false), Mark(run, now)]
    requires ObservedBy(log, k, run, i)
    ensures log[i].snapshot in snapshots
  {
    assert log[i] in log;
    DoneByHas(log, run, log[i]);
    assert log[i] in Observations(run, snapshots);
  }

  lemma {:induction false} StoredIsObserved(log: seq<Event>, run: nat, snapshots: seq<Snapshot>, now: int, k: NaturalKey)
    requires DoneBy(log, run) == Observations(run, snapshots) + [Finish(run, Success, false), Mark(run, now)]
    requires Sees(snapshots, k)
    ensures exists i :: ObservedBy(log, k, run, i)
  {
    var j :| 0 <= j < |snapshots| && snapshots[j].key == k;
    assert DoneBy(log, run)[j] == Observe(run, snapshots[j]);
    DoneByHas(log, run, Observe(run, snapshots[j]));
    var i :| 0 <= i < |log| && log[i] == Observe(run, snapshots[j]);
    assert ObservedBy(log, k, run, i);
  }

  /** The run was the last to see the resource exactly when it saw it and nobody has since. */
  lemma {:induction false} LastByRun(log: seq<Event>, k: NaturalKey, run: nat)
    ensures (exists n :: LastObservedAt(log, k, n) && log[n].run == run) <==>
            (exists n :: ObservedBy(log, k, run, n)) && !TakenOver(log, k, run)
  {
    if n :| LastObservedAt(log, k, n) && log[n].run == run {
      assert ObservedBy(log, k, run, n);
      assert !TakenOver(log, k, run);
    }
    if n :| ObservedBy(log, k, run, n) {
      if !TakenOver(log, k, run) {
        var last := LastFrom(log, k, n);
        assert forall i :: ObservedBy(log, k, run, i) ==> i <= last;
        assert log[last].run == run;
      }
    }
  }

  lemma {:induction false} CleanIsComplete(
      log: seq<Event>, n: nat, run: nat, a: Adapter, db: Database, tenant: Text, fetched: Fetched, now: int)
    requires Legal(log) && HoldsRun(log, run, a, db, tenant, fetched, now) && Clean(a, db, tenant, fetched)
    requires n < |log| && log[n] == Mark(run, now)
    ensures run < |Before(log, n + 1).runs| && Before(log, n + 1).runs[run].owner == KeyFor(a, tenant)
    ensures MayInferAbsence(Before(log, n + 1).runs[run])
  {
    var read := log[..n + 1];
    Stepped(log, n);
    RunsGrow(log, n + 1, |log|);
    assert log[..|log|] == log;
    CleanDone(log, n, run, a, db, tenant, fetched, now);
    LegalPrefix(log, n + 1);
    FinishedAs(read, run);
    assert DoneBy(read, run)[|DoneBy(read, run)| - 2] == Finish(run, Success, false);
  }

  /**
   * When a whole, clean read concludes, whatever other runs did in the meantime, its collector shows exactly
   * the resources it stored, less those that another run has seen since it did: nothing else it read is
   * missing, and nothing it did not read lingers.
   */
  lemma {:induction false} CleanReadBecomesThePlane(
      log: seq<Event>, n: nat, run: nat, a: Adapter, db: Database, tenant: Text, fetched: Fetched, now: int, k: NaturalKey)
    requires Legal(log) && HoldsRun(log, run, a, db, tenant, fetched, now) && Clean(a, db, tenant, fetched)
    requires n < |log| && log[n] == Mark(run, now)
    ensures Shows(Before(log, n + 1), KeyFor(a, tenant), k) <==>
            Sees(Stored(a, db, tenant, fetched.records), k) && !TakenOver(log[..n + 1], k, run)
  {
    var read, snapshots := log[..n + 1], Stored(a, db, tenant, fetched.records);
    LegalPrefix(log, n + 1);
    CleanIsComplete(log, n, run, a, db, tenant, fetched, now);
    CleanDone(log, n, run, a, db, tenant, fetched, now);
    CompleteReadIsThePlane(read, k);
    LastByRun(read, k, run);
    if Sees(snapshots, k) { StoredIsObserved(read, run, snapshots, now, k); }
    if i :| ObservedBy(read, k, run, i) {
      ObservedIsStored(read, run, snapshots, now, k, i);
      var j :| 0 <= j < |snapshots| && snapshots[j] == read[i].snapshot;
      assert Sees(snapshots, k);
    }
  }

  /** Only another collector's run can take a resource over before the run that saw it concludes. */
  lemma {:induction false} OthersTakeOver(log: seq<Event>, k: NaturalKey, run: nat, n: int, m: int)
    requires Legal(log) && log != [] && log[|log| - 1].Mark? && log[|log| - 1].run == run
    requires ObservedBy(log, k, run, n) && ObservesAt(log, k, m) && n < m && log[m].run != run
    ensures log[m].run < |Replay(log).runs| && run < |Replay(log).runs|
    ensures Replay(log).runs[log[m].run].owner != Replay(log).runs[run].owner
  {
    var last := |log| - 1;
    Stepped(log, n);
    Stepped(log, m);
    Stepped(log, last);
    RunsGrow(log, n, m);
    RunsGrow(log, m, |log|);
    RunsGrow(log, m, last);
    assert log[..|log|] == log;
    DeadStaysDead(log, run, m, last);
    LegalPrefix(log, m);
    AlwaysConsistent(log[..m]);
  }

  // ---------------------------------------------------------------- what any other read concludes

  /** What is absent after was absent before, and nothing present has become absent. */
  ghost predicate NothingConcluded(before: Plane, after: Plane) {
    && (forall k :: k in after.rows && after.rows[k].absent ==> k in before.rows && before.rows[k] == after.rows[k])
    && (forall k :: k in before.rows && !before.rows[k].absent ==> k in after.rows && !after.rows[k].absent)
  }

  lemma {:induction false} UncleanNeverSucceeds(
      a: Adapter, db: Database, tenant: Text, fetched: Fetched, run: nat, now: int, gap: bool)
    requires !Clean(a, db, tenant, fetched)
    ensures Finish(run, Success, gap) !in RestEvents(a, db, tenant, fetched, run, now)
  {
    SuccessExactlyWhenWhole(a, db, tenant, fetched);
  }

  /**
   * Any other run, whatever it stored and whatever other runs did in the meantime, makes nothing absent by
   * anything it does: it observes, or it changes no row.
   */
  lemma {:induction false} UncleanReadConcludesNothing(
      log: seq<Event>, n: nat, run: nat, a: Adapter, db: Database, tenant: Text, fetched: Fetched, now: int)
    requires Legal(log) && HoldsRun(log, run, a, db, tenant, fetched, now) && !Clean(a, db, tenant, fetched)
    requires n < |log| && OfRun(log[n], run)
    ensures NothingConcluded(Before(log, n), Before(log, n + 1))
    ensures log[n].Observe? || Before(log, n + 1).rows == Before(log, n).rows
  {
    Stepped(log, n);
    if log[n].Mark? {
      var r := Before(log, n).runs[run];
      LegalPrefix(log, n);
      FinishedAs(log[..n], run);
      DoneByPrefix(log, run, n);
      assert Finish(run, r.status, r.gap) in DoneBy(log, run);
      UncleanNeverSucceeds(a, db, tenant, fetched, run, now, r.gap);
    }
  }

  lemma {:induction false} UnavailableLog(
      log: seq<Event>, a: Adapter, db: Database, tenant: Text, fetched: Fetched, run: nat, now: int)
    requires fetched.Unavailable?
    ensures log + RunEvents(a, db, tenant, fetched, run, now) ==
            log + [Start(KeyFor(a, tenant))] + [Finish(run, Failed, false)] + [End(run)]
  {}

  lemma {:induction false} AbortedLog(
      log: seq<Event>, a: Adapter, db: Database, tenant: Text, fetched: Fetched, run: nat, now: int)
    requires !fetched.Unavailable? && !NoBug(a, db, tenant, fetched.records)
    ensures log + RunEvents(a, db, tenant, fetched, run, now) ==
            log + [Start(KeyFor(a, tenant))] +
            Observations(run, Stored(a, db, tenant, UntilBug(a, db, tenant, fetched.records))) + [End(run)]
  {
    StartThen(log, Start(KeyFor(a, tenant)),
              Observations(run, Stored(a, db, tenant, UntilBug(a, db, tenant, fetched.records))), End(run));
  }

  lemma {:induction false} StartThen(log: seq<Event>, s: Event, kept: seq<Event>, e: Event)
    ensures log + ([s] + (kept + [e])) == log + [s] + kept + [e]
  {}

  lemma {:induction false} NothingRead(log: seq<Event>, owner: Owner)
    requires Legal(log) && LockFree(Replay(log), owner)
    ensures var run := |Replay(log).runs|;
            var after := log + [Start(owner)] + [Finish(run, Failed, false)] + [End(run)];
            Legal(after) && run < |Replay(after).runs| && Replay(after).runs[run].owner == owner
  {
    var run := |Replay(log).runs|;
    Extended(log, Start(owner));
    Extended(log + [Start(owner)], Finish(run, Failed, false));
    Extended(log + [Start(owner)] + [Finish(run, Failed, false)], End(run));
  }

  lemma {:induction false} StoppedShort(log: seq<Event>, owner: Owner, snapshots: seq<Snapshot>)
    requires Legal(log) && LockFree(Replay(log), owner)
    requires forall s :: s in snapshots ==> s.key.tenant == owner.tenant
    ensures var run := |Replay(log).runs|;
            var after := log + [Start(owner)] + Observations(run, snapshots) + [End(run)];
            Legal(after) && run < |Replay(after).runs| && Replay(after).runs[run].owner == owner
  {
    var run := |Replay(log).runs|;
    Extended(log, Start(owner));
    ObservedAll(log + [Start(owner)], run, snapshots);
    Extended(log + [Start(owner)] + Observations(run, snapshots), End(run));
  }

  // ---------------------------------------------------------------- provider ids

  predicate ProvidersTellApart(snapshots: seq<Snapshot>) {
    forall i, j :: 0 <= i < |snapshots| && 0 <= j < |snapshots| && snapshots[i].providerId == snapshots[j].providerId ==>
                     snapshots[i].key == snapshots[j].key
  }

  ghost predicate ShownApart(p: Plane, owner: Owner) {
    forall k, l :: Shows(p, owner, k) && Shows(p, owner, l) && p.rows[k].snapshot.providerId == p.rows[l].snapshot.providerId ==> k == l
  }

  /** A row still shown when a clean read concludes says what that read stored. */
  lemma {:induction false} ShownIsStored(
      log: seq<Event>, n: nat, run: nat, a: Adapter, db: Database, tenant: Text, fetched: Fetched, now: int, k: NaturalKey)
    requires Legal(log) && HoldsRun(log, run, a, db, tenant, fetched, now) && Clean(a, db, tenant, fetched)
    requires n < |log| && log[n] == Mark(run, now) && Shows(Before(log, n + 1), KeyFor(a, tenant), k)
    ensures Before(log, n + 1).rows[k].snapshot.key == k
    ensures Before(log, n + 1).rows[k].snapshot in Stored(a, db, tenant, fetched.records)
  {
    var read, snapshots := log[..n + 1], Stored(a, db, tenant, fetched.records);
    LegalPrefix(log, n + 1);
    CleanIsComplete(log, n, run, a, db, tenant, fetched, now);
    CleanDone(log, n, run, a, db, tenant, fetched, now);
    CompleteReadIsThePlane(read, k);
    var i :| LastObservedAt(read, k, i) && read[i].run == run;
    AbsentExactlyWhenConcluded(read, k, i);
    ObservedIsStored(read, run, snapshots, now, k, i);
  }

  /** And that is what the adapter made of a record the provider gave. */
  lemma {:induction false} ShownIsWhatWasRead(
      log: seq<Event>, n: nat, run: nat, a: Adapter, db: Database, tenant: Text, fetched: Fetched, now: int, k: NaturalKey)
    requires Legal(log) && HoldsRun(log, run, a, db, tenant, fetched, now) && Clean(a, db, tenant, fetched)
    requires n < |log| && log[n] == Mark(run, now) && Shows(Before(log, n + 1), KeyFor(a, tenant), k)
    ensures exists i :: 0 <= i < |fetched.records| &&
                        ObservedAs(a, tenant, fetched.records[i], Before(log, n + 1).rows[k].snapshot)
  {
    var shown := Before(log, n + 1).rows[k].snapshot;
    ShownIsStored(log, n, run, a, db, tenant, fetched, now, k);
    var stored := Stored(a, db, tenant, fetched.records);
    var at := StoredIsWhatWasObserved(a, db, tenant, fetched.records);
    var i :| 0 <= i < |stored| && stored[i] == shown;
    assert ObservedAs(a, tenant, fetched.records[at[i]], shown);
  }

  /** After a clean read of records with distinct provider ids, no two shown resources share one. */
  lemma {:induction false} CleanReadSeparatesProviders(
      log: seq<Event>, n: nat, run: nat, a: Adapter, db: Database, tenant: Text, fetched: Fetched, now: int)
    requires Legal(log) && HoldsRun(log, run, a, db, tenant, fetched, now) && Clean(a, db, tenant, fetched)
    requires n < |log| && log[n] == Mark(run, now)
    requires ProvidersTellApart(Stored(a, db, tenant, fetched.records))
    ensures ShownApart(Before(log, n + 1), KeyFor(a, tenant))
  {
    var p, owner, snapshots := Before(log, n + 1), KeyFor(a, tenant), Stored(a, db, tenant, fetched.records);
    forall k, l | Shows(p, owner, k) && Shows(p, owner, l) && p.rows[k].snapshot.providerId == p.rows[l].snapshot.providerId
      ensures k == l
    {
      ShownIsStored(log, n, run, a, db, tenant, fetched, now, k);
      ShownIsStored(log, n, run, a, db, tenant, fetched, now, l);
    }
  }

  lemma {:induction false} ShownTogether(p: Plane, owner: Owner, k: NaturalKey, l: NaturalKey)
    requires Shows(p, owner, k) && Shows(p, owner, l) && k != l
    requires p.rows[k].snapshot.providerId == p.rows[l].snapshot.providerId
    ensures !ShownApart(p, owner)
  {}

  /** Marking nothing, a run that saw one resource shows it and whatever was shown before. */
  lemma {:induction false} BothShown(before: Plane, read: Plane, after: Plane, owner: Owner, run: nat, s: Snapshot, k: NaturalKey)
    requires run == |before.runs| && Refiled(before.(runs := read.runs), read, run, [s]) && s.key != k
    requires after.rows == read.rows && |after.runs| == |read.runs| == run + 1
    requires forall r :: 0 <= r < |after.runs| ==> after.runs[r].owner == read.runs[r].owner
    requires read.runs[run].owner == owner && forall r :: 0 <= r < run ==> read.runs[r] == before.runs[r]
    requires Shows(before, owner, k)
    ensures Shows(after, owner, k) && Shows(after, owner, s.key) && after.rows[k] == before.rows[k]
  {
    assert [s][0].key == s.key && !Sees([s], k);
  }

  /** A partial read that meets a resource under a new name leaves both names present with one provider id. */
  lemma {:induction false} RenameInPartialReadLeavesBoth(
      log: seq<Event>, a: Adapter, db: Database, tenant: Text, fetched: Fetched, now: int, k: NaturalKey, s: Snapshot)
    requires Legal(log) && LockFree(Replay(log), KeyFor(a, tenant)) && Shows(Replay(log), KeyFor(a, tenant), k)
    requires fetched.PartialRead? && NoBug(a, db, tenant, fetched.records) && Stored(a, db, tenant, fetched.records) == [s]
    requires s.key != k && s.providerId == Replay(log).rows[k].snapshot.providerId
    ensures var after := log + RunEvents(a, db, tenant, fetched, |Replay(log).runs|, now);
            && Legal(after)
            && Shows(Replay(after), KeyFor(a, tenant), k)
            && Shows(Replay(after), KeyFor(a, tenant), s.key)
            && !ShownApart(Replay(after), KeyFor(a, tenant))
  {
    var run, owner := |Replay(log).runs|, KeyFor(a, tenant);
    var r := Expected(a, db, tenant, fetched);
    RunLog(log, a, db, tenant, fetched, run, now);
    StoredIsOfTenant(a, db, tenant, fetched.records);
    assert s in Stored(a, db, tenant, fetched.records);
    OneStored(log, owner, s, r.status, r.gap);
    var read := ReadAndFinished(log, owner, run, [s], r.status, r.gap);
    Concluding(read, run, now);
    var after := Replay(read + [Mark(run, now), End(run)]);
    BothShown(Replay(log), Replay(read), after, owner, run, s, k);
    ShownTogether(after, owner, k, s.key);
  }

  lemma {:induction false} OneStored(log: seq<Event>, owner: Owner, s: Snapshot, status: Status, gap: bool)
    requires Legal(log) && LockFree(Replay(log), owner) && s.key.tenant == owner.tenant
    ensures var run := |Replay(log).runs|;
            var read := ReadAndFinished(log, owner, run, [s], status, gap);
            && Legal(read)
            && Refiled(Replay(log).(runs := Replay(read).runs), Replay(read), run, [s])
            && Replay(read).runs == Replay(log).runs + [CollectorRun(owner, status, gap, Finished, true)]
            && s.key in Replay(read).rows && Replay(read).rows[s.key].snapshot == s
  {
    var run := |Replay(log).runs|;
    Finishing(log, owner, [s], status, gap);
    Extended(log, Start(owner));
    var started := log + [Start(owner)];
    Extended(started, Observe(run, s));
    assert Observations(run, [s]) == [Observe(run, s)];
    Extended(started + [Observe(run, s)], Finish(run, status, gap));
  }
}
