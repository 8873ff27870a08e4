/** Reconciliation runs under their lock: whatever interleaves, what is committed is a history of whole runs. */
module Exclusion {
  import opened Options
  import opened Texts
  import opened Diffing
  import opened Reconciliation
  import opened Runs
  import opened Outcomes
  import opened Locks

  /** What this tenant's reconciliation excludes on. */
  function ReconcileKey(tenant: Text): Key { Key(tenant, AsText("reconcile")) }

  const Blank := Store([], map[], [], [], 0, [], 0)

  /** A run as a write of what it read: the state it commits, or the same state if it raises. */
  function RunAs(tenant: Text, judge: Judge, now: int): Option<Store> -> Store {
    (o: Option<Store>) =>
      match o
      case None => Blank
      case Some(s) => (match Run(s, tenant, judge, now) case Some(t) => t case None => s)
  }

  ghost predicate IsRun(u: Update<Store>, tenant: Text) {
    u.key == ReconcileKey(tenant) ==> exists judge, now :: u.change == RunAs(tenant, judge, now)
  }

  ghost predicate OnlyRuns(log: seq<Update<Store>>, tenant: Text) {
    forall i :: 0 <= i < |log| ==> IsRun(log[i], tenant)
  }

  /** The tenant's cell is written by reconciliation runs and nothing else. */
  ghost predicate Reconciles(steps: seq<Locks.Step<Store>>, tenant: Text) {
    forall i :: 0 <= i < |steps| && steps[i].action.Write? ==> IsRun(Update(steps[i].action.key, steps[i].action.change), tenant)
  }

  // ---------------------------------------------------------------- every logged update is a run

  ghost predicate LevelsRun(levels: seq<Level<Store>>, tenant: Text) {
    forall i :: 0 <= i < |levels| ==> OnlyRuns(levels[i].log, tenant)
  }

  ghost predicate SystemRuns(s: System<Store>, tenant: Text) {
    && (forall i :: 0 <= i < |s.sessions| ==> LevelsRun(s.sessions[i].levels, tenant))
    && (forall i :: 0 <= i < |s.history| ==> OnlyRuns(s.history[i], tenant))
  }

  lemma {:induction false} RunsConcat(a: seq<Update<Store>>, b: seq<Update<Store>>, tenant: Text)
    requires OnlyRuns(a, tenant) && OnlyRuns(b, tenant)
    ensures OnlyRuns(a + b, tenant)
  {}

  lemma {:induction false} LevelsReplaced(levels: seq<Level<Store>>, l: Level<Store>, tenant: Text)
    requires levels != [] && LevelsRun(levels, tenant) && OnlyRuns(l.log, tenant)
    ensures LevelsRun(Below(levels) + [l], tenant) && LevelsRun(Below(levels), tenant)
  {}

  lemma {:induction false} SessionStepRuns(s: System<Store>, i: nat, a: Action<Store>, tenant: Text)
    requires i < |s.sessions| && SystemRuns(s, tenant)
    requires a.Write? ==> IsRun(Update(a.key, a.change), tenant)
    ensures LevelsRun(Next(s, i, a).sessions[i].levels, tenant)
  {
    var levels := s.sessions[i].levels;
    assert LevelsRun(levels, tenant);
    if levels != [] {
      var top := Top(levels);
      assert OnlyRuns(top.log, tenant);
      LevelsReplaced(levels, top, tenant);
      if a.Write? {
        assert OnlyRuns([Update(a.key, a.change)], tenant);
        RunsConcat(top.log, [Update(a.key, a.change)], tenant);
      }
      if a.Close? && |levels| >= 2 {
        var lower := Below(levels);
        assert OnlyRuns(Top(lower).log, tenant);
        RunsConcat(Top(lower).log, top.log, tenant);
        LevelsReplaced(lower, Merged(Top(lower), top), tenant);
      }
    }
  }

  lemma {:induction false} StepRuns(s: System<Store>, i: nat, a: Action<Store>, tenant: Text)
    requires SystemRuns(s, tenant) && (a.Write? ==> IsRun(Update(a.key, a.change), tenant))
    ensures SystemRuns(Next(s, i, a), tenant)
  {
    if i < |s.sessions| {
      var t := Next(s, i, a);
      SessionStepRuns(s, i, a, tenant);
      assert forall j :: 0 <= j < |s.sessions| && j != i ==> t.sessions[j] == s.sessions[j];
      HistoryRuns(s, i, a, tenant);
    }
  }

  lemma {:induction false} HistoryRuns(s: System<Store>, i: nat, a: Action<Store>, tenant: Text)
    requires i < |s.sessions| && SystemRuns(s, tenant)
    ensures forall j :: 0 <= j < |Next(s, i, a).history| ==> OnlyRuns(Next(s, i, a).history[j], tenant)
  {
    if a.Close? && |s.sessions[i].levels| == 1 {
      assert LevelsRun(s.sessions[i].levels, tenant);
      assert OnlyRuns(s.sessions[i].levels[0].log, tenant);
    }
  }

  lemma {:induction false} AlwaysRuns(sessions: nat, cells: map<Key, Store>, steps: seq<Locks.Step<Store>>, tenant: Text)
    requires Reconciles(steps, tenant)
    ensures SystemRuns(After(Start(sessions, cells), steps), tenant)
  {
    if steps != [] {
      var front, last := steps[..|steps| - 1], steps[|steps| - 1];
      assert forall i :: 0 <= i < |front| ==> front[i] == steps[i];
      AlwaysRuns(sessions, cells, front, tenant);
      StepRuns(After(Start(sessions, cells), front), last.session, last.action, tenant);
    }
  }

  // ---------------------------------------------------------------- runs replayed are a history

  /** The updates of one cell that a log holds, in order. */
  function UpdatesOf(log: seq<Update<Store>>, k: Key): seq<Update<Store>> {
    if log == [] then []
    else UpdatesOf(log[..|log| - 1], k) + if log[|log| - 1].key == k then [log[|log| - 1]] else []
  }

  /** And those that were committed, in commit order. */
  function CommittedUpdates(history: seq<seq<Update<Store>>>, k: Key): seq<Update<Store>> {
    if history == [] then []
    else CommittedUpdates(history[..|history| - 1], k) + UpdatesOf(history[|history| - 1], k)
  }

  /** Each event is the run that made the update at its place. */
  ghost predicate AreRuns(events: seq<Event>, updates: seq<Update<Store>>, tenant: Text) {
    |events| == |updates| && forall i :: 0 <= i < |events| ==> IsRunOf(events[i], updates[i], tenant)
  }

  ghost predicate IsRunOf(e: Event, u: Update<Store>, tenant: Text) {
    e.RunOf? && e.tenant == tenant && u.change == RunAs(tenant, e.judge, e.now)
  }

  lemma {:induction false} AreRunsConcat(
      es: seq<Event>, us: seq<Update<Store>>, fs: seq<Event>, vs: seq<Update<Store>>, tenant: Text)
    requires AreRuns(es, us, tenant) && AreRuns(fs, vs, tenant)
    ensures AreRuns(es + fs, us + vs, tenant)
  {}

  lemma {:induction false} HistoryFrom(s: Store, e: Event, events: seq<Event>, t: Store)
    requires WellKept(s) && t == Happens(s, e)
    ensures WellKept(t) && History(s, [e] + events) == History(t, events)
  {
    HappensKeeps(s, e);
    assert ([e] + events)[1..] == events;
  }

  lemma {:induction false} FirstApart(a: seq<Event>, b: seq<Event>)
    requires a != []
    ensures a == [a[0]] + a[1..] && a + b == [a[0]] + (a[1..] + b)
  {}

  lemma {:induction false} HistoryConcat(s: Store, a: seq<Event>, b: seq<Event>)
    requires WellKept(s)
    ensures History(s, a + b) == History(History(s, a), b)
    decreases |a|
  {
    if a == [] {
      assert a + b == b;
    } else {
      var e, rest := a[0], a[1..];
      var t := Happens(s, e);
      FirstApart(a, b);
      HistoryFrom(s, e, rest, t);
      HistoryFrom(s, e, rest + b, t);
      HistoryConcat(t, rest, b);
    }
  }

  lemma {:induction false} OneRun(s: Store, u: Update<Store>, tenant: Text) returns (e: Event)
    requires WellKept(s) && IsRun(u, tenant) && u.key == ReconcileKey(tenant)
    ensures IsRunOf(e, u, tenant) && u.change(Some(s)) == History(s, [e])
  {
    var judge, now :| u.change == RunAs(tenant, judge, now);
    e := RunOf(tenant, judge, now);
    RunIsHistory(s, tenant, judge, now);
  }

  lemma {:induction false} ReplayIsHistory(s: Store, log: seq<Update<Store>>, tenant: Text) returns (events: seq<Event>)
    requires WellKept(s) && OnlyRuns(log, tenant)
    ensures AreRuns(events, UpdatesOf(log, ReconcileKey(tenant)), tenant)
    ensures Replayed(Some(s), log, ReconcileKey(tenant)) == Some(History(s, events))
  {
    events := [];
    if log != [] {
      var front, u := log[..|log| - 1], log[|log| - 1];
      assert OnlyRuns(front, tenant) by { assert forall i :: 0 <= i < |front| ==> front[i] == log[i]; }
      events := ReplayIsHistory(s, front, tenant);
      if u.key == ReconcileKey(tenant) {
        assert IsRun(u, tenant);
        var e := OneRun(History(s, events), u, tenant);
        HistoryConcat(s, events, [e]);
        AreRunsConcat(events, UpdatesOf(front, ReconcileKey(tenant)), [e], [u], tenant);
        events := events + [e];
      }
    }
  }

  lemma {:induction false} SerialIsHistory(s: Store, history: seq<seq<Update<Store>>>, tenant: Text) returns (events: seq<Event>)
    requires WellKept(s) && forall i :: 0 <= i < |history| ==> OnlyRuns(history[i], tenant)
    ensures AreRuns(events, CommittedUpdates(history, ReconcileKey(tenant)), tenant)
    ensures Serial(Some(s), history, ReconcileKey(tenant)) == Some(History(s, events))
  {
    events := [];
    if history != [] {
      var front, last := history[..|history| - 1], history[|history| - 1];
      assert forall i :: 0 <= i < |front| ==> front[i] == history[i];
      events := SerialIsHistory(s, front, tenant);
      var more := ReplayIsHistory(History(s, events), last, tenant);
      HistoryConcat(s, events, more);
      AreRunsConcat(events, CommittedUpdates(front, ReconcileKey(tenant)), more, UpdatesOf(last, ReconcileKey(tenant)), tenant);
      events := events + more;
    }
  }

  /**
   * However sessions interleave, nest, roll back and crash, the committed state of a tenant is what its
   * committed reconciliation runs make, each once, in commit order, one whole run after another, and so
   * keeps every constraint.
   */
  lemma {:induction false} CommittedRunsAreAHistory(
      sessions: nat, cells: map<Key, Store>, steps: seq<Locks.Step<Store>>, tenant: Text)
    requires Disciplined(steps) && Reconciles(steps, tenant)
    requires ReconcileKey(tenant) in cells && WellKept(cells[ReconcileKey(tenant)])
    ensures var s := After(Start(sessions, cells), steps);
            exists events ::
              && AreRuns(events, CommittedUpdates(s.history, ReconcileKey(tenant)), tenant)
              && Lookup(s.committed, ReconcileKey(tenant)) == Some(History(cells[ReconcileKey(tenant)], events))
  {
    AlwaysRuns(sessions, cells, steps, tenant);
    CommittedRunsAreSerial(sessions, cells, steps, ReconcileKey(tenant));
    var events := SerialIsHistory(cells[ReconcileKey(tenant)], After(Start(sessions, cells), steps).history, tenant);
  }

  lemma {:induction false} OneMoreUpdate(history: seq<seq<Update<Store>>>, u: Update<Store>)
    ensures CommittedUpdates(history + [[u]], u.key) == CommittedUpdates(history, u.key) + [u]
  {
    assert (history + [[u]])[..|history|] == history;
    assert [u][..0] == [];
    assert UpdatesOf([u], u.key) == [u];
  }

  /** A run on a session of its own, nobody else holding its lock, commits what the run makes of what is committed. */
  lemma {:induction false} OneRunCommits(
      s: System<Store>, i: nat, tenant: Text, judge: Judge, now: int, before: Store, u: Update<Store>)
    requires i < |s.sessions| && s.sessions[i].levels == [] && !HeldElsewhere(s, i, u.key)
    requires u == Update(ReconcileKey(tenant), RunAs(tenant, judge, now))
    requires Lookup(s.committed, u.key) == Some(before) && WellKept(before)
    ensures var t := LockedRun(s, i, u.key, u.change);
            && t.committed == s.committed[u.key := History(before, [RunOf(tenant, judge, now)])]
            && CommittedUpdates(t.history, u.key) == CommittedUpdates(s.history, u.key) + [u]
  {
    LockedRunCommits(s, i, u.key, u.change);
    RunIsHistory(before, tenant, judge, now);
    OneMoreUpdate(s.history, u);
  }

  lemma {:induction false} RunIsHistory(s: Store, tenant: Text, judge: Judge, now: int)
    requires WellKept(s)
    ensures RunAs(tenant, judge, now)(Some(s)) == History(s, [RunOf(tenant, judge, now)])
  {
    var e := RunOf(tenant, judge, now);
    HappensKeeps(s, e);
    assert [e][1..] == [];
    assert History(Happens(s, e), []) == Happens(s, e);
  }

  /** A run shuts out the other runs of its tenant while it lasts, and no run of another tenant. */
  lemma {:induction false} OnlyTheTenantIsExcluded(s: System<Store>, i: nat, j: nat, tenant: Text, other: Text)
    requires i < |s.sessions| && j < |s.sessions| && i != j && tenant != other
    requires !HeldElsewhere(s, i, ReconcileKey(tenant))
    ensures var t := Next(Next(s, i, Open), i, TryRun(ReconcileKey(tenant)));
            && HeldElsewhere(t, j, ReconcileKey(tenant))
            && (HeldElsewhere(t, j, ReconcileKey(other)) <==> HeldElsewhere(s, j, ReconcileKey(other)))
  {
    var k := ReconcileKey(tenant);
    var levels := s.sessions[i].levels;
    var t := Next(Next(s, i, Open), i, TryRun(k));
    RunEnters(s, i, k);
    TopReplaced(levels, RunLevel<Store>(k), s.committed);
    assert Holds(t.sessions[i], k);
    assert Holds(t.sessions[i], ReconcileKey(other)) <==> Holds(s.sessions[i], ReconcileKey(other));
    assert forall o :: 0 <= o < |s.sessions| && o != i ==> t.sessions[o] == s.sessions[o];
    if o :| 0 <= o < |s.sessions| && o != j && Holds(s.sessions[o], ReconcileKey(other)) {
      assert Holds(t.sessions[o], ReconcileKey(other));
    }
  }
}
