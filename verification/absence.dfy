/** The discovered plane as collector runs write it, and when one of its rows counts as gone. */
module Absence {
  import opened Options
  import opened Texts
  import opened Snapshots

  /** What absence is scoped by, and what one run at a time holds the lock of. */
  datatype Owner = Owner(tenant: Text, collector: Text)

  datatype Status = Success | Partial | Failed

  datatype Phase = Reading | Finished | Concluded

  /** A run is alive while it holds its lock; one that ends without finishing stays Failed. */
  datatype CollectorRun = CollectorRun(owner: Owner, status: Status, gap: bool, phase: Phase, alive: bool)

  datatype Row = Row(snapshot: Snapshot, lastSeenRun: nat, absent: bool, absentSince: Option<int>)

  datatype Plane = Plane(runs: seq<CollectorRun>, rows: map<NaturalKey, Row>)

  datatype Event =
    | Start(owner: Owner)
    | Observe(run: nat, snapshot: Snapshot)
    | Finish(run: nat, status: Status, gap: bool)
    | Mark(run: nat, time: int)
    | End(run: nat)

  const Nothing := Plane([], map[])

  predicate Alive(p: Plane, run: nat) { run < |p.runs| && p.runs[run].alive }

  predicate LockFree(p: Plane, owner: Owner) {
    forall r :: 0 <= r < |p.runs| && p.runs[r].owner == owner ==> !p.runs[r].alive
  }

  /** A positive whitelist: only a success, and only without a gap. */
  predicate MayInferAbsence(run: CollectorRun) { run.status == Success && !run.gap }

  /** Rows the run was responsible for and did not observe, unless they are absent already. */
  predicate UnseenBy(p: Plane, run: nat, row: Row)
    requires run < |p.runs|
  {
    && row.snapshot.key.tenant == p.runs[run].owner.tenant
    && row.lastSeenRun < |p.runs|
    && p.runs[row.lastSeenRun].owner.collector == p.runs[run].owner.collector
    && !row.absent
    && row.lastSeenRun != run
  }

  function MarkAbsentAfter(p: Plane, run: nat, time: int): map<NaturalKey, Row>
    requires run < |p.runs|
  {
    if !MayInferAbsence(p.runs[run]) then p.rows
    else map k | k in p.rows :: if UnseenBy(p, run, p.rows[k])
                                then p.rows[k].(absent := true, absentSince := Some(time))
                                else p.rows[k]
  }

  /** What the lock, and the order of one run's own statements, let happen next. */
  predicate Enabled(p: Plane, e: Event) {
    match e
    case Start(owner) => LockFree(p, owner)
    case Observe(run, s) => Alive(p, run) && p.runs[run].phase == Reading && s.key.tenant == p.runs[run].owner.tenant
    case Finish(run, _, _) => Alive(p, run) && p.runs[run].phase == Reading
    case Mark(run, _) => Alive(p, run) && p.runs[run].phase == Finished
    case End(run) => Alive(p, run)
  }

  function Applied(p: Plane, e: Event): Plane
    requires Enabled(p, e)
  {
    match e
    case Start(owner) => p.(runs := p.runs + [CollectorRun(owner, Failed, false, Reading, true)])
    case Observe(run, s) => p.(rows := p.rows[s.key := Row(s, run, false, None)])
    case Finish(run, status, gap) =>
      p.(runs := p.runs[run := p.runs[run].(status := status, gap := gap, phase := Finished)])
    case Mark(run, time) =>
      Plane(p.runs[run := p.runs[run].(phase := Concluded)], MarkAbsentAfter(p, run, time))
    case End(run) => p.(runs := p.runs[run := p.runs[run].(alive := false)])
  }

  /** Any interleaving of runs, as the log of what they did. */
  ghost predicate Legal(log: seq<Event>)
    decreases |log|, 0
  {
    log == [] || (Legal(log[..|log| - 1]) && Enabled(Replay(log[..|log| - 1]), log[|log| - 1]))
  }

  ghost function Replay(log: seq<Event>): Plane
    requires Legal(log)
    decreases |log|, 1
  {
    if log == [] then Nothing else Applied(Replay(log[..|log| - 1]), log[|log| - 1])
  }

  lemma {:induction false} LegalPrefix(log: seq<Event>, n: nat)
    requires Legal(log) && n <= |log|
    ensures Legal(log[..n])
  {
    if n < |log| {
      LegalPrefix(log[..|log| - 1], n);
      assert log[..|log| - 1][..n] == log[..n];
    } else {
      assert log[..n] == log;
    }
  }

  /** The plane as the event at `n` found it. */
  ghost function Before(log: seq<Event>, n: nat): Plane
    requires Legal(log) && n <= |log|
  {
    LegalPrefix(log, n);
    Replay(log[..n])
  }

  lemma {:induction false} Stepped(log: seq<Event>, n: nat)
    requires Legal(log) && n < |log|
    ensures Enabled(Before(log, n), log[n]) && Before(log, n + 1) == Applied(Before(log, n), log[n])
  {
    LegalPrefix(log, n + 1);
    assert log[..n + 1][..n] == log[..n];
  }

  lemma {:induction false} BeforeFront(log: seq<Event>, n: nat)
    requires Legal(log) && n < |log|
    ensures Legal(log[..|log| - 1]) && Before(log[..|log| - 1], n) == Before(log, n)
  {
    LegalPrefix(log, |log| - 1);
    assert log[..|log| - 1][..n] == log[..n];
  }

  // ---------------------------------------------------------------- exclusion among runs

  ghost predicate OneAlive(p: Plane) {
    forall q, r :: (0 <= q < |p.runs| && 0 <= r < |p.runs| && p.runs[q].owner == p.runs[r].owner
                    && p.runs[q].alive && p.runs[r].alive) ==> q == r
  }

  ghost predicate RowsOwned(p: Plane) {
    forall k :: k in p.rows ==>
      && p.rows[k].snapshot.key == k
      && p.rows[k].lastSeenRun < |p.runs|
      && p.runs[p.rows[k].lastSeenRun].owner.tenant == k.tenant
  }

  /** No other run of its collector can have marked what a running one has just seen. */
  ghost predicate FreshRowsPresent(p: Plane) {
    forall k :: k in p.rows && Alive(p, p.rows[k].lastSeenRun) ==> !p.rows[k].absent
  }

  ghost predicate Consistent(p: Plane) {
    && OneAlive(p)
    && RowsOwned(p)
    && FreshRowsPresent(p)
    && (forall k :: k in p.rows ==> (p.rows[k].absent <==> p.rows[k].absentSince.Some?))
  }

  lemma {:induction false} MarkKeepsRow(p: Plane, run: nat, time: int, k: NaturalKey)
    requires Consistent(p) && Enabled(p, Mark(run, time)) && k in p.rows
    ensures var row := MarkAbsentAfter(p, run, time)[k];
            && row.snapshot == p.rows[k].snapshot && row.lastSeenRun == p.rows[k].lastSeenRun
            && (row.absent <==> row.absentSince.Some?)
            && (Alive(p, row.lastSeenRun) ==> !row.absent)
  {
    var last := p.rows[k].lastSeenRun;
    assert UnseenBy(p, run, p.rows[k]) ==> p.runs[last].owner == p.runs[run].owner;
  }

  lemma {:induction false} MarkKeepsConsistent(p: Plane, run: nat, time: int)
    requires Consistent(p) && Enabled(p, Mark(run, time))
    ensures Consistent(Applied(p, Mark(run, time)))
  {
    forall k | k in p.rows
      ensures var row := MarkAbsentAfter(p, run, time)[k];
              && row.snapshot == p.rows[k].snapshot && row.lastSeenRun == p.rows[k].lastSeenRun
              && (row.absent <==> row.absentSince.Some?)
              && (Alive(p, row.lastSeenRun) ==> !row.absent)
    {
      MarkKeepsRow(p, run, time, k);
    }
  }

  lemma {:induction false} StepKeepsConsistent(p: Plane, e: Event)
    requires Consistent(p) && Enabled(p, e)
    ensures Consistent(Applied(p, e))
  {
    if e.Mark? { MarkKeepsConsistent(p, e.run, e.time); }
  }

  lemma {:induction false} AlwaysConsistent(log: seq<Event>)
    requires Legal(log)
    ensures Consistent(Replay(log))
  {
    if log != [] {
      AlwaysConsistent(log[..|log| - 1]);
      StepKeepsConsistent(Replay(log[..|log| - 1]), log[|log| - 1]);
    }
  }

  /** A run may start exactly when no live run has its owner: runs of other collectors and tenants are no obstacle. */
  lemma {:induction false} StartsExactly(log: seq<Event>, owner: Owner)
    requires Legal(log)
    ensures Legal(log + [Start(owner)]) <==>
            forall r :: 0 <= r < |Replay(log).runs| && Replay(log).runs[r].alive ==> Replay(log).runs[r].owner != owner
  {
    assert (log + [Start(owner)])[..|log|] == log;
  }

  predicate Of(e: Event, run: nat) { !e.Start? && e.run == run }

  /** The order of one run's statements. */
  function Place(e: Event): nat {
    match e
    case Start(_) => 0
    case Observe(_, _) => 1
    case Finish(_, _, _) => 2
    case Mark(_, _) => 3
    case End(_) => 4
  }

  /** What a run may still do, as its phase says. */
  function PlaceOf(r: CollectorRun): nat {
    if !r.alive then 4
    else match r.phase
         case Reading => 1
         case Finished => 2
         case Concluded => 3
  }

  /** A run's place only moves on, and is where its last statement put it or further. */
  lemma {:induction false} PlaceMovesOn(log: seq<Event>, run: nat, n: nat, m: nat)
    requires Legal(log) && n < m <= |log| && Of(log[n], run)
    ensures run < |Before(log, m).runs| && PlaceOf(Before(log, m).runs[run]) >= Place(log[n])
    decreases m - n
  {
    Stepped(log, m - 1);
    if n < m - 1 {
      PlaceMovesOn(log, run, n, m - 1);
    }
  }

  /** One run observes, then finishes once, then concludes once, then ends; nothing follows its end. */
  lemma {:induction false} EachRunInOrder(log: seq<Event>, run: nat, n: nat, m: nat)
    requires Legal(log) && n < m < |log| && Of(log[n], run) && Of(log[m], run)
    ensures Place(log[n]) < Place(log[m]) || (log[n].Observe? && log[m].Observe?)
  {
    PlaceMovesOn(log, run, n, m);
    Stepped(log, m);
  }

  /** A run is alive exactly from its start to its end. */
  lemma {:induction false} AliveExactly(log: seq<Event>, run: nat)
    requires Legal(log)
    ensures Alive(Replay(log), run) <==> run < |Starts(log)| && End(run) !in log
  {
    if log != [] {
      var front, e := log[..|log| - 1], log[|log| - 1];
      assert log == front + [e];
      AliveExactly(front, run);
      RunsAreStarts(front);
      RunsAreStarts(log);
      if e.Start? && run == |Starts(front)| { NotYetOpen(front, run); }
    }
  }

  lemma {:induction false} NotYetOpen(log: seq<Event>, run: nat)
    requires Legal(log) && run >= |Replay(log).runs|
    ensures End(run) !in log
  {
    if log != [] {
      assert log == log[..|log| - 1] + [log[|log| - 1]];
      NotYetOpen(log[..|log| - 1], run);
    }
  }

  /** Two collectors can read at the same time, and each run can go on to finish, conclude and end. */
  lemma {:induction false} CollectorsRunTogether(a: Owner, b: Owner, time: int) returns (log: seq<Event>)
    requires a != b
    ensures Legal(log) && |Replay(log).runs| == 2
    ensures Alive(Replay(log), 0) && Replay(log).runs[0].owner == a
    ensures Alive(Replay(log), 1) && Replay(log).runs[1].owner == b
    ensures Legal(log + [Finish(0, Success, false)] + [Mark(0, time)] + [End(0)])
  {
    assert Legal([]);
    Extended([], Start(a));
    Extended([] + [Start(a)], Start(b));
    log := [] + [Start(a)] + [Start(b)];
    Extended(log, Finish(0, Success, false));
    Extended(log + [Finish(0, Success, false)], Mark(0, time));
    Extended(log + [Finish(0, Success, false)] + [Mark(0, time)], End(0));
  }

  lemma {:induction false} Extended(log: seq<Event>, e: Event)
    requires Legal(log) && Enabled(Replay(log), e)
    ensures Legal(log + [e]) && Replay(log + [e]) == Applied(Replay(log), e)
  {
    assert (log + [e])[..|log|] == log;
  }

  // ---------------------------------------------------------------- absent, read off the history

  predicate ObservesAt(log: seq<Event>, k: NaturalKey, n: int) {
    0 <= n < |log| && log[n].Observe? && log[n].snapshot.key == k
  }

  ghost predicate LastObservedAt(log: seq<Event>, k: NaturalKey, n: int) {
    ObservesAt(log, k, n) && forall m :: n < m < |log| ==> !ObservesAt(log, k, m)
  }

  /**
   * At `m` a complete run of the collector that made the observation at `n`, though not that run
   * itself, concludes.
   */
  ghost predicate ConcludesWithout(log: seq<Event>, n: int, m: int)
    requires Legal(log) && 0 <= n < m < |log| && log[n].Observe?
  {
    && log[m].Mark?
    && log[m].run != log[n].run
    && log[m].run < |Before(log, m).runs|
    && log[n].run < |Before(log, m).runs|
    && Before(log, m).runs[log[m].run].owner == Before(log, m).runs[log[n].run].owner
    && MayInferAbsence(Before(log, m).runs[log[m].run])
  }

  ghost predicate FirstConclusion(log: seq<Event>, n: int, m: int)
    requires Legal(log) && 0 <= n < |log| && log[n].Observe?
  {
    n < m < |log| && ConcludesWithout(log, n, m) && forall j :: n < j < m ==> !ConcludesWithout(log, n, j)
  }

  ghost predicate EverConcluded(log: seq<Event>, n: nat)
    requires Legal(log) && n < |log| && log[n].Observe?
  {
    exists m :: n < m < |log| && ConcludesWithout(log, n, m)
  }

  lemma {:induction false} ConclusionInFront(log: seq<Event>, n: int, m: int)
    requires Legal(log) && 0 <= n < m < |log| - 1 && log[n].Observe?
    ensures Legal(log[..|log| - 1])
    ensures ConcludesWithout(log[..|log| - 1], n, m) <==> ConcludesWithout(log, n, m)
  {
    BeforeFront(log, m);
  }

  lemma {:induction false} FirstInFront(log: seq<Event>, n: int, m: int)
    requires Legal(log) && 0 <= n < m < |log| - 1 && log[n].Observe?
    ensures Legal(log[..|log| - 1])
    ensures FirstConclusion(log[..|log| - 1], n, m) <==> FirstConclusion(log, n, m)
  {
    var front := log[..|log| - 1];
    ConclusionInFront(log, n, m);
    if FirstConclusion(front, n, m) {
      forall j | n < j < m ensures !ConcludesWithout(log, n, j) {
        ConclusionInFront(log, n, j);
        assert !ConcludesWithout(front, n, j);
      }
    }
    if FirstConclusion(log, n, m) {
      forall j | n < j < m ensures !ConcludesWithout(front, n, j) {
        ConclusionInFront(log, n, j);
        assert !ConcludesWithout(log, n, j);
      }
    }
  }

  lemma {:induction false} NeverObservedIsNoRow(log: seq<Event>, k: NaturalKey)
    requires Legal(log)
    ensures k in Replay(log).rows <==> exists n :: ObservesAt(log, k, n)
  {
    if log != [] {
      var front := log[..|log| - 1];
      NeverObservedIsNoRow(front, k);
      if n :| ObservesAt(front, k, n) { assert ObservesAt(log, k, n); }
      if n :| ObservesAt(log, k, n) {
        if n < |front| { assert ObservesAt(front, k, n); }
      }
      if log[|log| - 1].Observe? && log[|log| - 1].snapshot.key == k { assert ObservesAt(log, k, |log| - 1); }
    }
  }

  /** What the row of a resource last observed at `n` says, read off the log alone. */
  ghost predicate RowTells(log: seq<Event>, k: NaturalKey, n: nat)
    requires Legal(log) && n < |log| && log[n].Observe?
  {
    && k in Replay(log).rows
    && var row := Replay(log).rows[k];
       && row.snapshot == log[n].snapshot
       && row.lastSeenRun == log[n].run
       && (row.absent <==> EverConcluded(log, n))
       && (row.absent ==> exists m :: FirstConclusion(log, n, m) && row.absentSince == Some(log[m].time))
       && (!row.absent ==> row.absentSince == None)
  }

  lemma {:induction false} JustObserved(log: seq<Event>, k: NaturalKey)
    requires Legal(log) && log != [] && ObservesAt(log, k, |log| - 1)
    ensures RowTells(log, k, |log| - 1)
  {}

  lemma {:induction false} NothingConcluded(log: seq<Event>, k: NaturalKey, n: nat)
    requires Legal(log) && n < |log| - 1 && log[n].Observe?
    requires Legal(log[..|log| - 1]) && RowTells(log[..|log| - 1], k, n)
    requires Replay(log).rows[k := Replay(log[..|log| - 1]).rows[k]] == Replay(log).rows
    requires k in Replay(log).rows
    requires !ConcludesWithout(log, n, |log| - 1) || Replay(log).rows[k].absent
    ensures RowTells(log, k, n)
  {
    var front := log[..|log| - 1];
    forall m | n < m < |front| ensures ConcludesWithout(front, n, m) <==> ConcludesWithout(log, n, m) {
      ConclusionInFront(log, n, m);
    }
    assert Replay(log).rows[k] == Replay(front).rows[k];
    if Replay(log).rows[k].absent {
      var m :| FirstConclusion(front, n, m) && Replay(front).rows[k].absentSince == Some(front[m].time);
      FirstInFront(log, n, m);
      assert log[m].time == front[m].time;
    }
  }

  lemma {:induction false} JustConcluded(log: seq<Event>, k: NaturalKey, n: nat)
    requires Legal(log) && n < |log| - 1 && log[n].Observe?
    requires Legal(log[..|log| - 1]) && RowTells(log[..|log| - 1], k, n) && !Replay(log[..|log| - 1]).rows[k].absent
    requires ConcludesWithout(log, n, |log| - 1)
    requires k in Replay(log).rows
    requires Replay(log).rows[k] ==
             Replay(log[..|log| - 1]).rows[k].(absent := true, absentSince := Some(log[|log| - 1].time))
    ensures RowTells(log, k, n)
  {
    var front, last := log[..|log| - 1], |log| - 1;
    forall j | n < j < last ensures !ConcludesWithout(log, n, j) {
      ConclusionInFront(log, n, j);
    }
    assert FirstConclusion(log, n, last);
  }

  lemma {:induction false} LastBefore(log: seq<Event>)
    requires Legal(log) && log != []
    ensures Before(log, |log| - 1) == Replay(log[..|log| - 1])
  {}

  /**
   * Over every interleaving of lock-excluded runs, crashed and partial ones included: a row is absent
   * exactly when some complete run of the collector that last saw it concluded after that observation,
   * and it says it has been missing since the first such run.
   */
  lemma {:induction false} AbsentExactlyWhenConcluded(log: seq<Event>, k: NaturalKey, n: nat)
    requires Legal(log) && LastObservedAt(log, k, n)
    ensures RowTells(log, k, n)
  {
    var front, e := log[..|log| - 1], log[|log| - 1];
    if n == |log| - 1 {
      JustObserved(log, k);
    } else {
      assert LastObservedAt(front, k, n) by {
        forall m | n < m < |front| ensures !ObservesAt(front, k, m) { assert !ObservesAt(log, k, m); }
      }
      assert !ObservesAt(log, k, |log| - 1);
      AbsentExactlyWhenConcluded(front, k, n);
      AlwaysConsistent(front);
      LastBefore(log);
      if e.Mark? {
        MarkOnRow(log, k, n);
      } else {
        NothingConcluded(log, k, n);
      }
    }
  }

  lemma {:induction false} MarkOnRow(log: seq<Event>, k: NaturalKey, n: nat)
    requires Legal(log) && n < |log| - 1 && log[n].Observe? && log[|log| - 1].Mark?
    requires Legal(log[..|log| - 1]) && RowTells(log[..|log| - 1], k, n) && Consistent(Replay(log[..|log| - 1]))
    ensures RowTells(log, k, n)
  {
    var front, run := log[..|log| - 1], log[|log| - 1].run;
    var p := Replay(front);
    LastBefore(log);
    var row := p.rows[k];
    assert p.runs[row.lastSeenRun].owner.tenant == k.tenant == row.snapshot.key.tenant;
    assert UnseenBy(p, run, row) && MayInferAbsence(p.runs[run]) <==>
           ConcludesWithout(log, n, |log| - 1) && !row.absent;
    if UnseenBy(p, run, row) && MayInferAbsence(p.runs[run]) {
      JustConcluded(log, k, n);
    } else {
      NothingConcluded(log, k, n);
    }
  }

  // ---------------------------------------------------------------- a conclusion is about a later read

  predicate StartsRun(log: seq<Event>, run: nat, s: nat)
  {
    s < |log| && log[s].Start? && run == |Starts(log[..s])|
  }

  /** The runs opened so far, in order: a run's number is its place among them. */
  function Starts(log: seq<Event>): seq<Owner> {
    if log == [] then []
    else Starts(log[..|log| - 1]) + if log[|log| - 1].Start? then [log[|log| - 1].owner] else []
  }

  lemma {:induction false} RunsAreStarts(log: seq<Event>)
    requires Legal(log)
    ensures |Replay(log).runs| == |Starts(log)|
    ensures forall r :: 0 <= r < |Starts(log)| ==> Replay(log).runs[r].owner == Starts(log)[r]
  {
    if log != [] { RunsAreStarts(log[..|log| - 1]); }
  }

  lemma {:induction false} StartedBetween(log: seq<Event>, run: nat, n: nat, m: nat)
    requires n <= m <= |log| && |Starts(log[..n])| <= run < |Starts(log[..m])|
    ensures exists s :: n <= s < m && StartsRun(log, run, s)
  {
    if n < m {
      assert log[..m][..m - 1] == log[..m - 1];
      if run < |Starts(log[..m - 1])| {
        StartedBetween(log, run, n, m - 1);
      } else {
        assert StartsRun(log, run, m - 1);
      }
    }
  }

  lemma {:induction false} DeadStaysDead(log: seq<Event>, run: nat, n: nat, m: nat)
    requires Legal(log) && n <= m <= |log| && run < |Before(log, n).runs| && Alive(Before(log, m), run)
    ensures Alive(Before(log, n), run) && Before(log, n).runs[run].owner == Before(log, m).runs[run].owner
  {
    if n < m {
      Stepped(log, m - 1);
      RunsGrow(log, n, m - 1);
      DeadStaysDead(log, run, n, m - 1);
    }
  }

  lemma {:induction false} RunsGrow(log: seq<Event>, n: nat, m: nat)
    requires Legal(log) && n <= m <= |log|
    ensures |Before(log, n).runs| <= |Before(log, m).runs|
    ensures forall r :: 0 <= r < |Before(log, n).runs| ==> Before(log, n).runs[r].owner == Before(log, m).runs[r].owner
  {
    if n < m {
      Stepped(log, m - 1);
      RunsGrow(log, n, m - 1);
    }
  }

  /** The run that concludes a resource is gone began after the resource was last seen. */
  lemma {:induction false} ConclusionsComeFromLaterReads(log: seq<Event>, n: nat, m: nat)
    requires Legal(log) && n < m < |log| && log[n].Observe? && ConcludesWithout(log, n, m)
    ensures exists s :: n < s < m && StartsRun(log, log[m].run, s)
  {
    var q, r := log[m].run, log[n].run;
    Stepped(log, n);
    Stepped(log, m);
    RunsGrow(log, n, m);
    LegalPrefix(log, n);
    LegalPrefix(log, m);
    AlwaysConsistent(log[..n]);
    if q < |Before(log, n).runs| {
      DeadStaysDead(log, q, n, m);
    }
    RunsAreStarts(log[..n]);
    RunsAreStarts(log[..m]);
    StartedBetween(log, q, n, m);
    var s :| n <= s < m && StartsRun(log, q, s);
  }

  // ---------------------------------------------------------------- after a complete read

  predicate Shows(p: Plane, owner: Owner, k: NaturalKey) {
    k in p.rows && !p.rows[k].absent && p.rows[k].lastSeenRun < |p.runs| && p.runs[p.rows[k].lastSeenRun].owner == owner
  }

  /** Once a complete run concludes, its collector shows exactly what that run was the last to see. */
  lemma {:induction false} CompleteReadIsThePlane(log: seq<Event>, k: NaturalKey)
    requires Legal(log) && log != [] && log[|log| - 1].Mark?
    requires var run := log[|log| - 1].run;
             run < |Replay(log).runs| && MayInferAbsence(Replay(log).runs[run])
    ensures var run := log[|log| - 1].run;
            Shows(Replay(log), Replay(log).runs[run].owner, k) <==>
            exists n :: LastObservedAt(log, k, n) && log[n].run == run
  {
    var run := log[|log| - 1].run;
    AlwaysConsistent(log);
    NeverObservedIsNoRow(log, k);
    if k in Replay(log).rows {
      var n := LastObservation(log, k);
      AbsentExactlyWhenConcluded(log, k, n);
      LastBefore(log);
      assert log[n].run != run && Replay(log).runs[log[n].run].owner == Replay(log).runs[run].owner ==>
             ConcludesWithout(log, n, |log| - 1);
      forall i | LastObservedAt(log, k, i) ensures i == n {
        assert i < n ==> !ObservesAt(log, k, n);
        assert n < i ==> !ObservesAt(log, k, i);
      }
    }
  }

  lemma {:induction false} LastObservation(log: seq<Event>, k: NaturalKey) returns (n: int)
    requires Legal(log) && k in Replay(log).rows
    ensures LastObservedAt(log, k, n)
  {
    NeverObservedIsNoRow(log, k);
    n :| ObservesAt(log, k, n);
    n := LastFrom(log, k, n);
  }

  lemma {:induction false} LastFrom(log: seq<Event>, k: NaturalKey, i: int) returns (n: int)
    requires ObservesAt(log, k, i)
    ensures LastObservedAt(log, k, n)
    decreases |log| - i
  {
    if m :| i < m < |log| && ObservesAt(log, k, m) {
      n := LastFrom(log, k, m);
    } else {
      n := i;
    }
  }
}
