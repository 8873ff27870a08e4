/** Writers racing to project commits into revisions, under READ COMMITTED and two unique indexes. */
module Ingestion {
  import opened Options
  import opened Texts
  import opened Snapshots

  datatype Revision = Revision(tenant: Text, sha: Text, active: bool)

  /** How far one call has come. The stages from Updating to Ready are inside its transaction. */
  datatype Stage =
    | Idle
    | Checking
    | Starting
    | Updating(todo: set<nat>)
    | Inserting
    | Filling(revision: nat)
    | Ready(revision: nat)
    | Resolving
    | Returned(revision: nat)
    | Raised

  /** A writer, its call's arguments, and the rows its open transaction has stood down. */
  datatype Writer = Writer(tenant: Text, sha: Text, snapshots: seq<Snapshot>, stage: Stage, locked: set<nat>)

  /** What is committed, the writers, and the revision numbers handed out so far. */
  datatype System = System(
    writers: seq<Writer>, revisions: map<nat, Revision>, resources: map<nat, seq<Snapshot>>, next: nat)

  datatype Action =
    | Call(tenant: Text, sha: Text, snapshots: seq<Snapshot>)
    | Check
    | BeginUpdate
    | UpdateRow(revision: nat)
    | EndUpdate
    | Insert
    | Fill
    | Commit
    | LoseRace
    | Crash
    | Resolve

  datatype Step = Step(writer: nat, action: Action)

  predicate Inserted(w: Writer) { w.stage.Filling? || w.stage.Ready? }
  predicate Holding(w: Writer) { w.stage.Updating? || w.stage.Inserting? || Inserted(w) }
  predicate Finished(w: Writer) { w.stage.Idle? || w.stage.Returned? || w.stage.Raised? }

  /** `_existing_revision`, active or not. */
  predicate IsRevisionOf(s: System, r: nat, tenant: Text, sha: Text) {
    r in s.revisions && s.revisions[r].tenant == tenant && s.revisions[r].sha == sha
  }

  predicate IsActiveFor(s: System, r: nat, tenant: Text) {
    r in s.revisions && s.revisions[r].tenant == tenant && s.revisions[r].active
  }

  function ActiveFor(s: System, tenant: Text): set<nat> { set r | r in s.revisions && IsActiveFor(s, r, tenant) }

  function RevisionsOf(s: System, tenant: Text, sha: Text): set<nat> {
    set r | r in s.revisions && IsRevisionOf(s, r, tenant, sha)
  }

  function Least(ids: set<nat>): (r: nat)
    requires ids != {}
    ensures r in ids
  {
    LeastExists(ids);
    var r :| r in ids && forall q :: q in ids ==> r <= q;
    r
  }

  lemma {:induction false} LeastExists(ids: set<nat>)
    requires ids != {}
    ensures exists r :: r in ids && forall q :: q in ids ==> r <= q
  {
    var x :| x in ids;
    LeastBelow(ids, x);
  }

  lemma {:induction false} LeastBelow(ids: set<nat>, x: nat)
    requires x in ids
    ensures exists r :: r in ids && forall q :: q in ids ==> r <= q
    decreases x
  {
    if q :| q in ids && q < x {
      LeastBelow(ids, q);
    }
  }

  /** Another transaction has updated the row and has not ended: whoever wants the row waits for it. */
  predicate LockedElsewhere(s: System, i: nat, r: nat) {
    exists j :: 0 <= j < |s.writers| && j != i && r in s.writers[j].locked
  }

  /**
   * Another transaction's insert holds the tenant's active slot, or has stood down a row that still
   * does: the unique check waits until that transaction ends.
   */
  predicate MustWait(s: System, i: nat) {
    i < |s.writers| &&
    ((exists j :: 0 <= j < |s.writers| && j != i && Inserted(s.writers[j]) && s.writers[j].tenant == s.writers[i].tenant)
     || exists r :: r in ActiveFor(s, s.writers[i].tenant) && LockedElsewhere(s, i, r))
  }

  /** A committed row already holds the commit, or the active slot this transaction did not free. */
  predicate ViolatesIndex(s: System, w: Writer) {
    RevisionsOf(s, w.tenant, w.sha) != {} || !(ActiveFor(s, w.tenant) <= w.locked)
  }

  function Put(s: System, i: nat, w: Writer): System
    requires i < |s.writers|
  {
    s.(writers := s.writers[i := w])
  }

  /** Everything the transaction wrote becomes visible at once. */
  function Published(s: System, w: Writer, rev: nat): map<nat, Revision> {
    map r | r in s.revisions.Keys + {rev} ::
      if r == rev then Revision(w.tenant, w.sha, true)
      else if r in w.locked then s.revisions[r].(active := false)
      else s.revisions[r]
  }

  /** One step of one writer; an action that is not enabled, or must wait, changes nothing. */
  function Next(s: System, i: nat, a: Action): System {
    if i >= |s.writers| then s
    else
      var w := s.writers[i];
      match a
      case Call(tenant, sha, snapshots) =>
        if Finished(w) then Put(s, i, Writer(tenant, sha, snapshots, Checking, {})) else s
      case Check =>
        if !w.stage.Checking? then s
        else if RevisionsOf(s, w.tenant, w.sha) != {} then
          Put(s, i, w.(stage := Returned(Least(RevisionsOf(s, w.tenant, w.sha)))))
        else Put(s, i, w.(stage := Starting))
      case BeginUpdate =>
        if w.stage.Starting? then Put(s, i, w.(stage := Updating(ActiveFor(s, w.tenant)))) else s
      case UpdateRow(r) =>
        if !w.stage.Updating? || r !in w.stage.todo || LockedElsewhere(s, i, r) then s
        else if IsActiveFor(s, r, w.tenant) then
          Put(s, i, w.(stage := Updating(w.stage.todo - {r}), locked := w.locked + {r}))
        else Put(s, i, w.(stage := Updating(w.stage.todo - {r})))
      case EndUpdate =>
        if w.stage.Updating? && w.stage.todo == {} then Put(s, i, w.(stage := Inserting)) else s
      case Insert =>
        if !w.stage.Inserting? || MustWait(s, i) then s
        else if ViolatesIndex(s, w) then Put(s, i, w.(stage := Resolving, locked := {}))
        else Put(s, i, w.(stage := Filling(s.next))).(next := s.next + 1)
      case Fill =>
        if w.stage.Filling? then Put(s, i, w.(stage := Ready(w.stage.revision))) else s
      case Commit =>
        if !w.stage.Ready? then s
        else
          var rev := w.stage.revision;
          Put(s, i, w.(stage := Returned(rev), locked := {})).(
            revisions := Published(s, w, rev), resources := s.resources[rev := w.snapshots])
      case LoseRace =>
        if Holding(w) then Put(s, i, w.(stage := Resolving, locked := {})) else s
      case Crash =>
        if !Finished(w) then Put(s, i, w.(stage := Raised, locked := {})) else s
      case Resolve =>
        if !w.stage.Resolving? then s
        else if RevisionsOf(s, w.tenant, w.sha) != {} then
          Put(s, i, w.(stage := Returned(Least(RevisionsOf(s, w.tenant, w.sha)))))
        else Put(s, i, w.(stage := Raised))
  }

  function After(s: System, steps: seq<Step>): System {
    if steps == [] then s
    else
      var last := steps[|steps| - 1];
      Next(After(s, steps[..|steps| - 1]), last.writer, last.action)
  }

  function Start(writers: nat): System {
    System(seq(writers, i => Writer([], [], [], Idle, {})), map[], map[], 0)
  }

  // ---------------------------------------------------------------- what is committed

  ghost predicate OneRevisionPerCommit(s: System) {
    forall r, q :: (r in s.revisions && q in s.revisions && s.revisions[r].tenant == s.revisions[q].tenant
                    && s.revisions[r].sha == s.revisions[q].sha) ==> r == q
  }

  ghost predicate AtMostOneActive(s: System) {
    forall r, q :: (r in s.revisions && q in s.revisions && s.revisions[r].tenant == s.revisions[q].tenant
                    && s.revisions[r].active && s.revisions[q].active) ==> r == q
  }

  ghost predicate SomeActive(s: System) {
    forall r :: r in s.revisions ==> ActiveFor(s, s.revisions[r].tenant) != {}
  }

  /** Revisions and row sets are committed together, under numbers handed out. */
  ghost predicate RowsWithRevisions(s: System) {
    s.resources.Keys == s.revisions.Keys && forall r :: r in s.revisions ==> r < s.next
  }

  ghost predicate Committed(s: System) {
    OneRevisionPerCommit(s) && AtMostOneActive(s) && SomeActive(s) && RowsWithRevisions(s)
  }

  // ---------------------------------------------------------------- what is in flight

  /** One writer against what is committed. */
  ghost predicate WriterOk(s: System, w: Writer) {
    && (w.locked != {} ==> Holding(w))
    && (forall r :: r in w.locked ==> IsActiveFor(s, r, w.tenant))
    && (w.stage.Returned? ==> IsRevisionOf(s, w.stage.revision, w.tenant, w.sha))
    && (Inserted(w) ==>
          && w.stage.revision < s.next
          && w.stage.revision !in s.revisions
          && RevisionsOf(s, w.tenant, w.sha) == {}
          && ActiveFor(s, w.tenant) <= w.locked)
  }

  /** Two writers against each other: no row stood down twice, no active slot taken twice. */
  ghost predicate Apart(v: Writer, w: Writer) {
    && v.locked !! w.locked
    && (Inserted(v) && Inserted(w) ==> v.tenant != w.tenant && v.stage.revision != w.stage.revision)
  }

  ghost predicate InFlight(s: System) {
    && (forall i :: 0 <= i < |s.writers| ==> WriterOk(s, s.writers[i]))
    && (forall i, j :: 0 <= i < j < |s.writers| ==> Apart(s.writers[i], s.writers[j]))
  }

  ghost predicate Sound(s: System) { Committed(s) && InFlight(s) }

  lemma {:induction false} ApartPut(s: System, i: nat, w: Writer)
    requires i < |s.writers| && InFlight(s) && WriterOk(s, w)
    requires forall j :: 0 <= j < |s.writers| && j != i ==> Apart(s.writers[j], w)
    ensures InFlight(Put(s, i, w))
  {
    var t := Put(s, i, w);
    forall j | 0 <= j < |t.writers| ensures WriterOk(t, t.writers[j]) {
      SameCommitted(s, t, t.writers[j]);
    }
    forall j, k | 0 <= j < k < |t.writers| ensures Apart(t.writers[j], t.writers[k]) {
      assert j != i && k != i ==> Apart(s.writers[j], s.writers[k]);
    }
  }

  lemma {:induction false} SameCommitted(s: System, t: System, w: Writer)
    requires t.revisions == s.revisions && t.next >= s.next && WriterOk(s, w)
    ensures WriterOk(t, w)
  {
    assert ActiveFor(t, w.tenant) == ActiveFor(s, w.tenant);
    assert RevisionsOf(t, w.tenant, w.sha) == RevisionsOf(s, w.tenant, w.sha);
  }

  /** A writer that gives up rows, or holds what it held, stays apart from the rest. */
  lemma {:induction false} LessIsApart(s: System, i: nat, w: Writer)
    requires i < |s.writers| && InFlight(s) && w.locked <= s.writers[i].locked
    requires Inserted(w) ==> Inserted(s.writers[i]) && w.tenant == s.writers[i].tenant && w.stage.revision == s.writers[i].stage.revision
    ensures forall j :: 0 <= j < |s.writers| && j != i ==> Apart(s.writers[j], w)
  {
    forall j | 0 <= j < |s.writers| && j != i ensures Apart(s.writers[j], w) {
      assert if i < j then Apart(s.writers[i], s.writers[j]) else Apart(s.writers[j], s.writers[i]);
    }
  }

  // ---------------------------------------------------------------- each step

  lemma {:induction false} UpdateKeeps(s: System, i: nat, r: nat)
    requires Sound(s) && i < |s.writers|
    ensures Sound(Next(s, i, UpdateRow(r)))
  {
    var w := s.writers[i];
    if w.stage.Updating? && r in w.stage.todo && !LockedElsewhere(s, i, r) {
      var w' := Next(s, i, UpdateRow(r)).writers[i];
      forall j | 0 <= j < |s.writers| && j != i ensures Apart(s.writers[j], w') {
        assert r !in s.writers[j].locked;
        assert if i < j then Apart(w, s.writers[j]) else Apart(s.writers[j], w);
      }
      assert WriterOk(s, w);
      ApartPut(s, i, w');
      CommittedPut(s, i, w');
    }
  }

  lemma {:induction false} CommittedPut(s: System, i: nat, w: Writer)
    requires Committed(s) && i < |s.writers|
    ensures Committed(Put(s, i, w))
  {
    forall r | r in s.revisions ensures ActiveFor(Put(s, i, w), s.revisions[r].tenant) != {} {
      assert ActiveFor(Put(s, i, w), s.revisions[r].tenant) == ActiveFor(s, s.revisions[r].tenant);
    }
  }

  lemma {:induction false} InsertKeeps(s: System, i: nat)
    requires Sound(s) && i < |s.writers|
    ensures Sound(Next(s, i, Insert))
  {
    var w := s.writers[i];
    assert WriterOk(s, w);
    if w.stage.Inserting? && !MustWait(s, i) {
      if ViolatesIndex(s, w) {
        LessIsApart(s, i, w.(stage := Resolving, locked := {}));
        ApartPut(s, i, w.(stage := Resolving, locked := {}));
        CommittedPut(s, i, w.(stage := Resolving, locked := {}));
      } else {
        InsertSucceeds(s, i);
      }
    }
  }

  lemma {:induction false} InsertSucceeds(s: System, i: nat)
    requires Sound(s) && i < |s.writers| && s.writers[i].stage.Inserting? && !MustWait(s, i) && !ViolatesIndex(s, s.writers[i])
    ensures Sound(Next(s, i, Insert))
  {
    var w := s.writers[i];
    var w' := w.(stage := Filling(s.next));
    var grown := s.(next := s.next + 1);
    assert Sound(grown) by {
      forall j | 0 <= j < |s.writers| ensures WriterOk(grown, s.writers[j]) { SameCommitted(s, grown, s.writers[j]); }
      CommittedGrown(s);
    }
    assert WriterOk(grown, w') by {
      assert WriterOk(grown, w);
      assert ActiveFor(grown, w.tenant) == ActiveFor(s, w.tenant);
      assert RevisionsOf(grown, w.tenant, w.sha) == RevisionsOf(s, w.tenant, w.sha);
    }
    forall j | 0 <= j < |s.writers| && j != i ensures Apart(grown.writers[j], w') {
      assert if i < j then Apart(w, s.writers[j]) else Apart(s.writers[j], w);
      assert WriterOk(s, s.writers[j]);
    }
    ApartPut(grown, i, w');
    CommittedPut(grown, i, w');
    assert Put(grown, i, w') == Next(s, i, Insert);
  }

  lemma {:induction false} CommittedGrown(s: System)
    requires Committed(s)
    ensures Committed(s.(next := s.next + 1))
  {
    forall r | r in s.revisions ensures ActiveFor(s.(next := s.next + 1), s.revisions[r].tenant) != {} {
      assert ActiveFor(s.(next := s.next + 1), s.revisions[r].tenant) == ActiveFor(s, s.revisions[r].tenant);
    }
  }

  // ---------------------------------------------------------------- the commit

  lemma {:induction false} PublishedRows(s: System, w: Writer, rev: nat, t: System)
    requires WriterOk(s, w) && w.stage == Ready(rev) && t.revisions == Published(s, w, rev)
    ensures forall r, tenant :: tenant != w.tenant ==> (IsActiveFor(t, r, tenant) <==> IsActiveFor(s, r, tenant))
    ensures forall r :: IsActiveFor(t, r, w.tenant) <==> r == rev
    ensures forall r, tenant, sha :: IsRevisionOf(t, r, tenant, sha) <==>
                                     IsRevisionOf(s, r, tenant, sha) || (r == rev && tenant == w.tenant && sha == w.sha)
  {
    forall r | r in s.revisions && r != rev ensures !IsActiveFor(t, r, w.tenant) {
      if IsActiveFor(s, r, w.tenant) { assert r in ActiveFor(s, w.tenant); }
    }
    forall r | r in w.locked ensures IsActiveFor(s, r, w.tenant) {}
  }

  lemma {:induction false} CommitIsNew(s: System, i: nat)
    requires Sound(s) && i < |s.writers| && s.writers[i].stage.Ready?
    ensures OneRevisionPerCommit(Next(s, i, Commit))
  {
    var w := s.writers[i];
    var rev, t := w.stage.revision, Next(s, i, Commit);
    assert WriterOk(s, w);
    PublishedRows(s, w, rev, t);
    assert forall x :: IsRevisionOf(s, x, w.tenant, w.sha) ==> x in RevisionsOf(s, w.tenant, w.sha);
    forall r, q | r in t.revisions && q in t.revisions && t.revisions[r].tenant == t.revisions[q].tenant
                  && t.revisions[r].sha == t.revisions[q].sha
      ensures r == q
    {
      assert IsRevisionOf(t, r, t.revisions[r].tenant, t.revisions[r].sha);
      assert IsRevisionOf(t, q, t.revisions[r].tenant, t.revisions[r].sha);
    }
  }

  lemma {:induction false} CommitTakesTheSlot(s: System, i: nat)
    requires Sound(s) && i < |s.writers| && s.writers[i].stage.Ready?
    ensures AtMostOneActive(Next(s, i, Commit))
  {
    var w, t := s.writers[i], Next(s, i, Commit);
    assert WriterOk(s, w);
    PublishedRows(s, w, w.stage.revision, t);
    forall r, q | r in t.revisions && q in t.revisions && t.revisions[r].tenant == t.revisions[q].tenant
                  && t.revisions[r].active && t.revisions[q].active
      ensures r == q
    {
      assert IsActiveFor(t, r, t.revisions[r].tenant) && IsActiveFor(t, q, t.revisions[r].tenant);
      assert t.revisions[r].tenant != w.tenant ==>
             IsActiveFor(s, r, t.revisions[r].tenant) && IsActiveFor(s, q, t.revisions[r].tenant);
    }
  }

  lemma {:induction false} CommitPublishes(s: System, i: nat)
    requires Sound(s) && i < |s.writers| && s.writers[i].stage.Ready?
    ensures Committed(Next(s, i, Commit))
  {
    CommitIsNew(s, i);
    CommitTakesTheSlot(s, i);
    CommitLeavesOneActive(s, i);
    CommitBringsRows(s, i);
  }

  lemma {:induction false} CommitLeavesOneActive(s: System, i: nat)
    requires Sound(s) && i < |s.writers| && s.writers[i].stage.Ready?
    ensures SomeActive(Next(s, i, Commit))
  {
    var t := Next(s, i, Commit);
    forall r | r in t.revisions ensures ActiveFor(t, t.revisions[r].tenant) != {} {
      SomeActiveAfter(s, i, r);
    }
  }

  lemma {:induction false} CommitBringsRows(s: System, i: nat)
    requires Sound(s) && i < |s.writers| && s.writers[i].stage.Ready?
    ensures RowsWithRevisions(Next(s, i, Commit))
  {
    var t := Next(s, i, Commit);
    assert WriterOk(s, s.writers[i]);
    assert t.resources.Keys == s.resources.Keys + {s.writers[i].stage.revision};
  }

  lemma {:induction false} SomeActiveAfter(s: System, i: nat, r: nat)
    requires Sound(s) && i < |s.writers| && s.writers[i].stage.Ready? && r in Next(s, i, Commit).revisions
    ensures var t := Next(s, i, Commit); ActiveFor(t, t.revisions[r].tenant) != {}
  {
    var w := s.writers[i];
    var rev, t := w.stage.revision, Next(s, i, Commit);
    assert WriterOk(s, w);
    PublishedRows(s, w, rev, t);
    var tenant := t.revisions[r].tenant;
    if tenant == w.tenant {
      assert rev in ActiveFor(t, tenant);
    } else {
      assert r in s.revisions && s.revisions[r].tenant == tenant;
      var q :| q in ActiveFor(s, tenant);
      assert q in ActiveFor(t, tenant);
    }
  }

  /** The commit touches nothing another transaction has in hand. */
  lemma {:induction false} OthersSurviveCommit(s: System, i: nat, j: nat)
    requires Sound(s) && i < |s.writers| && j < |s.writers| && i != j && s.writers[i].stage.Ready?
    ensures WriterOk(Next(s, i, Commit), s.writers[j])
  {
    var w, v := s.writers[i], s.writers[j];
    var rev, t := w.stage.revision, Next(s, i, Commit);
    assert WriterOk(s, w) && WriterOk(s, v);
    assert if i < j then Apart(w, v) else Apart(v, w);
    PublishedRows(s, w, rev, t);
    forall r | r in v.locked ensures IsActiveFor(t, r, v.tenant) {
      assert IsActiveFor(s, r, v.tenant);
      assert v.tenant == w.tenant ==> r in ActiveFor(s, w.tenant) && r in w.locked;
    }
    if Inserted(v) {
      assert v.tenant != w.tenant;
      forall r | r in ActiveFor(t, v.tenant) ensures r in v.locked { assert r in ActiveFor(s, v.tenant); }
      forall r ensures r !in RevisionsOf(t, v.tenant, v.sha) { assert r !in RevisionsOf(s, v.tenant, v.sha); }
    }
  }

  lemma {:induction false} CommitKeeps(s: System, i: nat)
    requires Sound(s) && i < |s.writers| && s.writers[i].stage.Ready?
    ensures Sound(Next(s, i, Commit))
  {
    var w := s.writers[i];
    var rev, t := w.stage.revision, Next(s, i, Commit);
    var w' := t.writers[i];
    assert WriterOk(s, w);
    CommitPublishes(s, i);
    PublishedRows(s, w, rev, t);
    forall j | 0 <= j < |t.writers| ensures WriterOk(t, t.writers[j]) {
      if j != i { OthersSurviveCommit(s, i, j); }
    }
    LessIsApart(s, i, w');
    forall j, k | 0 <= j < k < |t.writers| ensures Apart(t.writers[j], t.writers[k]) {
      assert j != i && k != i ==> Apart(s.writers[j], s.writers[k]);
      assert k == i ==> Apart(s.writers[j], w');
      assert j == i ==> Apart(s.writers[k], w');
    }
  }

  // ---------------------------------------------------------------- every interleaving

  /** Steps that only move their own writer along, taking no row and inserting nothing. */
  lemma {:induction false} QuietStepKeeps(s: System, i: nat, a: Action)
    requires Sound(s) && i < |s.writers|
    requires a.Call? || a.Check? || a.BeginUpdate? || a.EndUpdate? || a.Fill? || a.LoseRace? || a.Crash? || a.Resolve?
    ensures Sound(Next(s, i, a))
  {
    var w, t := s.writers[i], Next(s, i, a);
    assert WriterOk(s, w);
    if t != s {
      var w' := t.writers[i];
      assert t == Put(s, i, w');
      LessIsApart(s, i, w');
      ApartPut(s, i, w');
      CommittedPut(s, i, w');
    }
  }

  lemma {:induction false} StepKeeps(s: System, i: nat, a: Action)
    requires Sound(s)
    ensures Sound(Next(s, i, a))
  {
    if i < |s.writers| {
      match a
      case UpdateRow(r) => UpdateKeeps(s, i, r);
      case Insert => InsertKeeps(s, i);
      case Commit => if s.writers[i].stage.Ready? { CommitKeeps(s, i); }
      case _ => QuietStepKeeps(s, i, a);
    }
  }

  lemma {:induction false} AlwaysSound(writers: nat, steps: seq<Step>)
    ensures Sound(After(Start(writers), steps))
  {
    if steps != [] {
      AlwaysSound(writers, steps[..|steps| - 1]);
      var last := steps[|steps| - 1];
      StepKeeps(After(Start(writers), steps[..|steps| - 1]), last.writer, last.action);
    }
  }

  /**
   * Under every interleaving: a commit has at most one revision, a tenant that has any revision has
   * exactly one active one, and a call that returns does so with a revision of its own commit.
   */
  lemma {:induction false} RacesAreSafe(writers: nat, steps: seq<Step>)
    ensures var s := After(Start(writers), steps);
            && OneRevisionPerCommit(s)
            && (forall r :: r in s.revisions ==> |ActiveFor(s, s.revisions[r].tenant)| == 1)
            && (forall i :: 0 <= i < |s.writers| && s.writers[i].stage.Returned? ==>
                  IsRevisionOf(s, s.writers[i].stage.revision, s.writers[i].tenant, s.writers[i].sha))
  {
    AlwaysSound(writers, steps);
    var s := After(Start(writers), steps);
    forall r | r in s.revisions ensures |ActiveFor(s, s.revisions[r].tenant)| == 1 {
      var q :| q in ActiveFor(s, s.revisions[r].tenant);
      assert ActiveFor(s, s.revisions[r].tenant) == {q};
    }
    forall i | 0 <= i < |s.writers| && s.writers[i].stage.Returned?
      ensures IsRevisionOf(s, s.writers[i].stage.revision, s.writers[i].tenant, s.writers[i].sha)
    {
      assert WriterOk(s, s.writers[i]);
    }
  }

  // ---------------------------------------------------------------- whole or not at all

  /** Nothing a call writes is committed before its commit, and the commit brings all of it. */
  lemma {:induction false} OnlyACommitPublishes(s: System, i: nat, a: Action)
    ensures var t := Next(s, i, a);
            (t.revisions != s.revisions || t.resources != s.resources) ==>
              && a.Commit? && i < |s.writers| && s.writers[i].stage.Ready?
              && var w, rev := s.writers[i], s.writers[i].stage.revision;
                 && t.writers[i].stage == Returned(rev)
                 && t.revisions == Published(s, w, rev)
                 && t.resources == s.resources[rev := w.snapshots]
  {}

  /** The commit of revision `r` is step `n` of the history. */
  ghost predicate CommittedAt(writers: nat, steps: seq<Step>, n: int, r: nat, rows: seq<Snapshot>) {
    && 0 <= n < |steps|
    && steps[n].action.Commit?
    && var s := After(Start(writers), steps[..n]);
       && steps[n].writer < |s.writers|
       && s.writers[steps[n].writer].stage == Ready(r)
       && s.writers[steps[n].writer].snapshots == rows
  }

  /** Every committed revision has the complete row set of the call that committed it. */
  lemma {:induction false} RevisionsAreWhole(writers: nat, steps: seq<Step>, r: nat)
    requires r in After(Start(writers), steps).revisions
    ensures var s := After(Start(writers), steps);
            r in s.resources && exists n :: CommittedAt(writers, steps, n, r, s.resources[r])
  {
    if steps != [] {
      var front, last := steps[..|steps| - 1], steps[|steps| - 1];
      var s := After(Start(writers), front);
      OnlyACommitPublishes(s, last.writer, last.action);
      if last.action.Commit? && last.writer < |s.writers| && s.writers[last.writer].stage == Ready(r) {
        assert CommittedAt(writers, steps, |front|, r, After(Start(writers), steps).resources[r]);
      } else {
        RevisionsAreWhole(writers, front, r);
        var n :| CommittedAt(writers, front, n, r, s.resources[r]);
        assert steps[..n] == front[..n];
        assert CommittedAt(writers, steps, n, r, s.resources[r]);
      }
    }
  }

  /** From this call on the writer makes no other, and the history ends with the call raised. */
  ghost predicate EndsRaised(writers: nat, steps: seq<Step>, i: nat, c: nat) {
    && c < |steps| && steps[c].writer == i && steps[c].action.Call?
    && (forall m :: c < m < |steps| && steps[m].writer == i ==> !steps[m].action.Call?)
    && i < |After(Start(writers), steps).writers|
    && After(Start(writers), steps).writers[i].stage.Raised?
  }

  lemma {:induction false} OneMore(s: System, steps: seq<Step>, n: nat)
    requires n < |steps|
    ensures After(s, steps[..n + 1]) == Next(After(s, steps[..n]), steps[n].writer, steps[n].action)
  {
    assert steps[..n + 1][..n] == steps[..n];
  }

  lemma {:induction false} ReturnedStep(s: System, j: nat, a: Action, i: nat)
    requires i < |s.writers| && s.writers[i].stage.Returned? && (j == i ==> !a.Call?)
    ensures i < |Next(s, j, a).writers| && Next(s, j, a).writers[i].stage.Returned?
  {}

  /** A call that has returned stays returned until the writer makes another. */
  lemma {:induction false} ReturnedStays(s: System, steps: seq<Step>, i: nat, m: nat)
    requires m <= |steps| && i < |After(s, steps[..m]).writers| && After(s, steps[..m]).writers[i].stage.Returned?
    requires forall k :: m <= k < |steps| && steps[k].writer == i ==> !steps[k].action.Call?
    ensures i < |After(s, steps).writers| && After(s, steps).writers[i].stage.Returned?
    decreases |steps| - m
  {
    if m == |steps| {
      assert steps[..m] == steps;
    } else {
      OneMore(s, steps, m);
      ReturnedStep(After(s, steps[..m]), steps[m].writer, steps[m].action, i);
      ReturnedStays(s, steps, i, m + 1);
    }
  }

  /** The step with which a call changes anything committed is the one with which it returns. */
  lemma {:induction false} ChangingReturns(s: System, i: nat, a: Action, t: System)
    requires t == Next(s, i, a)
    ensures t.revisions != s.revisions || t.resources != s.resources ==> i < |t.writers| && t.writers[i].stage.Returned?
  {
    OnlyACommitPublishes(s, i, a);
  }

  /** A call that ends up raised has committed nothing, neither revision nor row, at any of its steps. */
  lemma {:induction false} RaisedLeavesNothing(writers: nat, steps: seq<Step>, i: nat, c: nat, m: nat)
    requires EndsRaised(writers, steps, i, c) && c <= m < |steps| && steps[m].writer == i
    ensures var before, after := After(Start(writers), steps[..m]), After(Start(writers), steps[..m + 1]);
            after.revisions == before.revisions && after.resources == before.resources
  {
    var before, after := After(Start(writers), steps[..m]), After(Start(writers), steps[..m + 1]);
    OneMore(Start(writers), steps, m);
    ChangingReturns(before, i, steps[m].action, after);
    if i < |after.writers| && after.writers[i].stage.Returned? {
      ReturnedStays(Start(writers), steps, i, m + 1);
    }
  }

  ghost predicate SameCommits(was: map<nat, Revision>, now: map<nat, Revision>) {
    forall r :: r in was ==> r in now && now[r].tenant == was[r].tenant && now[r].sha == was[r].sha
  }

  lemma {:induction false} PublishedKeeps(s: System, w: Writer, rev: nat)
    requires rev !in s.revisions
    ensures Published(s, w, rev).Keys == s.revisions.Keys + {rev}
    ensures Published(s, w, rev)[rev] == Revision(w.tenant, w.sha, true)
    ensures SameCommits(s.revisions, Published(s, w, rev))
  {}

  ghost predicate StillThere(s: System, t: System) {
    SameCommits(s.revisions, t.revisions) &&
    forall r :: r in s.revisions && r in s.resources ==> r in t.resources && t.resources[r] == s.resources[r]
  }

  lemma {:induction false} StepLeavesCommitted(s: System, i: nat, a: Action)
    requires Sound(s)
    ensures StillThere(s, Next(s, i, a))
  {
    OnlyACommitPublishes(s, i, a);
    if a.Commit? && i < |s.writers| && s.writers[i].stage.Ready? {
      var w, rev := s.writers[i], s.writers[i].stage.revision;
      assert WriterOk(s, w);
      PublishedKeeps(s, w, rev);
    } else {
      assert Next(s, i, a).revisions == s.revisions && Next(s, i, a).resources == s.resources;
    }
  }

  /** What is committed at any point of a history keeps its tenant, its commit and its rows ever after. */
  lemma {:induction false} CommittedNeverChanges(writers: nat, steps: seq<Step>, n: nat)
    requires n <= |steps|
    ensures StillThere(After(Start(writers), steps[..n]), After(Start(writers), steps))
  {
    if n == |steps| {
      assert steps[..n] == steps;
    } else {
      var front, last := steps[..|steps| - 1], steps[|steps| - 1];
      assert front[..n] == steps[..n];
      CommittedNeverChanges(writers, front, n);
      AlwaysSound(writers, front);
      StepLeavesCommitted(After(Start(writers), front), last.writer, last.action);
    }
  }

  /** Another call of the tenant is past its insert, or has stood down a revision of the tenant that is still active. */
  ghost predicate SlotInHand(s: System, i: nat) {
    exists j :: 0 <= j < |s.writers| && j != i && i < |s.writers| &&
                ((s.writers[j].tenant == s.writers[i].tenant && (s.writers[j].stage.Filling? || s.writers[j].stage.Ready?))
                 || exists r :: r in s.writers[j].locked && r in s.revisions &&
                                s.revisions[r].tenant == s.writers[i].tenant && s.revisions[r].active)
  }

  /**
   * An insert waits exactly while another transaction has the tenant's active slot in hand; otherwise it is
   * refused exactly when the commit is recorded or another revision is active that this one did not stand
   * down; and otherwise it is made, under a new number.
   */
  lemma {:induction false} InsertExactly(s: System, i: nat)
    requires i < |s.writers| && s.writers[i].stage.Inserting?
    ensures var w, t := s.writers[i], Next(s, i, Insert);
            var recorded := exists r: nat :: IsRevisionOf(s, r, w.tenant, w.sha);
            var taken := exists r: nat :: IsActiveFor(s, r, w.tenant) && r !in w.locked;
            if SlotInHand(s, i) then t == s
            else if recorded || taken then t == Put(s, i, w.(stage := Resolving, locked := {}))
            else t == Put(s, i, w.(stage := Filling(s.next))).(next := s.next + 1)
  {
    var w := s.writers[i];
    SlotInHandIsMustWait(s, i);
    assert RevisionsOf(s, w.tenant, w.sha) != {} <==> exists r: nat :: IsRevisionOf(s, r, w.tenant, w.sha) by {
      if r: nat :| IsRevisionOf(s, r, w.tenant, w.sha) { assert r in RevisionsOf(s, w.tenant, w.sha); }
    }
    assert !(ActiveFor(s, w.tenant) <= w.locked) <==> exists r: nat :: IsActiveFor(s, r, w.tenant) && r !in w.locked by {
      if r: nat :| IsActiveFor(s, r, w.tenant) && r !in w.locked { assert r in ActiveFor(s, w.tenant); }
    }
  }

  lemma {:induction false} SlotInHandIsMustWait(s: System, i: nat)
    requires i < |s.writers|
    ensures SlotInHand(s, i) <==> MustWait(s, i)
  {
    if j, r :| 0 <= j < |s.writers| && j != i && r in s.writers[j].locked && r in s.revisions &&
               s.revisions[r].tenant == s.writers[i].tenant && s.revisions[r].active
    {
      assert r in ActiveFor(s, s.writers[i].tenant) && LockedElsewhere(s, i, r);
    }
  }

  /**
   * A call that crashes, at any point short of its end, has raised, holds nothing, and leaves what is
   * committed and the others as they were.
   */
  lemma {:induction false} CrashLosesEverything(s: System, i: nat)
    requires i < |s.writers| && !Finished(s.writers[i])
    ensures var w, t := s.writers[i], Next(s, i, Crash);
            && t == Put(s, i, t.writers[i])
            && t.writers[i].stage == Raised && t.writers[i].locked == {}
            && t.writers[i].tenant == w.tenant && t.writers[i].sha == w.sha
  {}

  // ---------------------------------------------------------------- losing a race

  /**
   * A call that has lost a race returns exactly when a revision of its commit is recorded by then, with that
   * revision, and raises otherwise; either way it writes nothing.
   */
  lemma {:induction false} LostRaceReturnsExactly(s: System, i: nat)
    requires Sound(s) && i < |s.writers| && s.writers[i].stage.Resolving?
    ensures var w, t := s.writers[i], Next(s, i, Resolve);
            && t == Put(s, i, t.writers[i])
            && (t.writers[i].stage.Returned? <==> exists r: nat :: IsRevisionOf(s, r, w.tenant, w.sha))
            && (t.writers[i].stage.Raised? <==> forall r: nat :: !IsRevisionOf(s, r, w.tenant, w.sha))
            && (forall r: nat :: IsRevisionOf(s, r, w.tenant, w.sha) ==> t.writers[i].stage == Returned(r))
  {
    var w := s.writers[i];
    var recorded := RevisionsOf(s, w.tenant, w.sha);
    forall r: nat | IsRevisionOf(s, r, w.tenant, w.sha) ensures recorded == {r} {
      assert r in recorded;
    }
  }

  /**
   * Once another call has recorded this one's commit, neither a refused insert, nor a transaction the
   * database ends, nor a late check makes any difference: this call returns the recorded revision.
   */
  lemma {:induction false} WinnerIsReturned(s: System, i: nat, r: nat)
    requires Sound(s) && i < |s.writers| && IsRevisionOf(s, r, s.writers[i].tenant, s.writers[i].sha)
    ensures s.writers[i].stage.Checking? ==> Next(s, i, Check).writers[i].stage == Returned(r)
    ensures s.writers[i].stage.Inserting? && !MustWait(s, i) ==> Next(Next(s, i, Insert), i, Resolve).writers[i].stage == Returned(r)
    ensures Holding(s.writers[i]) ==> Next(Next(s, i, LoseRace), i, Resolve).writers[i].stage == Returned(r)
  {
    var w := s.writers[i];
    assert r in RevisionsOf(s, w.tenant, w.sha);
    OnlyRevision(s, w.tenant, w.sha, r);
    var resolving := Put(s, i, w.(stage := Resolving, locked := {}));
    assert RevisionsOf(resolving, w.tenant, w.sha) == RevisionsOf(s, w.tenant, w.sha);
  }

  lemma {:induction false} OnlyRevision(s: System, tenant: Text, sha: Text, r: nat)
    requires OneRevisionPerCommit(s) && IsRevisionOf(s, r, tenant, sha)
    ensures RevisionsOf(s, tenant, sha) == {r}
  {}

  // ---------------------------------------------------------------- every call can come to an end

  /** Nobody else is in the middle of a call. */
  ghost predicate OthersFinished(s: System, i: nat) {
    forall j :: 0 <= j < |s.writers| && j != i ==> Finished(s.writers[j])
  }

  /** The writer's own next step, short of crashing or losing a race. */
  function Onward(w: Writer): Action {
    match w.stage
    case Checking => Check
    case Starting => BeginUpdate
    case Updating(todo) => if todo == {} then EndUpdate else UpdateRow(Least(todo))
    case Inserting => Insert
    case Filling(_) => Fill
    case Ready(_) => Commit
    case Resolving => Resolve
    case _ => Check
  }

  /** How far a call has to go. */
  function Distance(w: Writer): nat {
    match w.stage
    case Checking => 6
    case Starting => 5
    case Updating(_) => 4
    case Inserting => 3
    case Filling(_) => 2
    case Ready(_) => 1
    case Resolving => 1
    case _ => 0
  }

  function Left(w: Writer): set<nat> { if w.stage.Updating? then w.stage.todo else {} }

  lemma {:induction false} NobodyInTheWay(s: System, i: nat)
    requires Sound(s) && i < |s.writers| && OthersFinished(s, i)
    ensures !MustWait(s, i) && forall r :: !LockedElsewhere(s, i, r)
  {
    forall j | 0 <= j < |s.writers| && j != i ensures s.writers[j].locked == {} { assert WriterOk(s, s.writers[j]); }
  }

  /** The call is nearer its end, and nothing else has moved. */
  ghost predicate Nearer(s: System, i: nat, t: System) {
    && i < |s.writers| == |t.writers|
    && (forall j :: 0 <= j < |s.writers| && j != i ==> t.writers[j] == s.writers[j])
    && var v, w := s.writers[i], t.writers[i];
       Distance(w) < Distance(v) || (Distance(w) == Distance(v) && Left(w) < Left(v))
  }

  lemma {:induction false} UpdateMoves(s: System, i: nat)
    requires i < |s.writers| && s.writers[i].stage.Updating? && forall r :: !LockedElsewhere(s, i, r)
    ensures Nearer(s, i, Next(s, i, Onward(s.writers[i])))
  {}

  lemma {:induction false} InsertMoves(s: System, i: nat)
    requires i < |s.writers| && s.writers[i].stage.Inserting? && !MustWait(s, i)
    ensures Nearer(s, i, Next(s, i, Insert))
  {}

  lemma {:induction false} OtherwiseMoves(s: System, i: nat)
    requires i < |s.writers| && !Finished(s.writers[i]) && !s.writers[i].stage.Updating? && !s.writers[i].stage.Inserting?
    ensures Nearer(s, i, Next(s, i, Onward(s.writers[i])))
  {}

  lemma {:induction false} OnwardMoves(s: System, i: nat)
    requires Sound(s) && i < |s.writers| && OthersFinished(s, i) && !Finished(s.writers[i])
    ensures Nearer(s, i, Next(s, i, Onward(s.writers[i]))) && OthersFinished(Next(s, i, Onward(s.writers[i])), i)
  {
    NobodyInTheWay(s, i);
    if s.writers[i].stage.Updating? {
      UpdateMoves(s, i);
    } else if s.writers[i].stage.Inserting? {
      InsertMoves(s, i);
    } else {
      OtherwiseMoves(s, i);
    }
  }

  /** With nobody else in the middle of a call, a call anywhere in its course returns or raises by its own next steps. */
  lemma {:induction false} EveryCallCanFinish(s: System, i: nat) returns (steps: seq<Step>)
    requires Sound(s) && i < |s.writers| && OthersFinished(s, i)
    ensures forall n :: 0 <= n < |steps| ==> steps[n].writer == i && !steps[n].action.Crash? && !steps[n].action.LoseRace?
    ensures i < |After(s, steps).writers| && Finished(After(s, steps).writers[i])
    decreases Distance(s.writers[i]), Left(s.writers[i])
  {
    steps := [];
    if !Finished(s.writers[i]) {
      var a := Onward(s.writers[i]);
      OnwardMoves(s, i);
      StepKeeps(s, i, a);
      var rest := EveryCallCanFinish(Next(s, i, a), i);
      steps := [Step(i, a)] + rest;
      assert After(s, [Step(i, a)]) == Next(s, i, a) by { assert [Step(i, a)][..0] == []; }
      AfterConcat(s, [Step(i, a)], rest);
    }
  }

  // ---------------------------------------------------------------- an old commit again

  /** The promise is about the commit: an old commit's revision is returned as it is, active or not. */
  lemma {:induction false} ReingestingDoesNotReactivate(s: System, i: nat, tenant: Text, sha: Text, snapshots: seq<Snapshot>)
    requires Sound(s) && i < |s.writers| && Finished(s.writers[i]) && RevisionsOf(s, tenant, sha) != {}
    ensures var t := Next(Next(s, i, Call(tenant, sha, snapshots)), i, Check);
            && t.writers[i].stage.Returned?
            && IsRevisionOf(t, t.writers[i].stage.revision, tenant, sha)
            && t.revisions == s.revisions && t.resources == s.resources
  {
    var called := Next(s, i, Call(tenant, sha, snapshots));
    assert RevisionsOf(called, tenant, sha) == RevisionsOf(s, tenant, sha);
  }

  /** One writer, between calls. */
  ghost predicate Quiet(s: System) { Sound(s) && |s.writers| == 1 && Finished(s.writers[0]) }

  /** What one writer does next, action by action. */
  function Solo(i: nat, actions: seq<Action>): (steps: seq<Step>)
    ensures |steps| == |actions|
  {
    seq(|actions|, n requires 0 <= n < |actions| => Step(i, actions[n]))
  }

  lemma {:induction false} SoloMore(s: System, i: nat, actions: seq<Action>, a: Action)
    ensures After(s, Solo(i, actions + [a])) == Next(After(s, Solo(i, actions)), i, a)
  {
    assert Solo(i, actions + [a])[..|actions|] == Solo(i, actions);
  }

  lemma {:induction false} SoloTwo(s: System, i: nat, a: Action, b: Action)
    ensures After(s, Solo(i, [a, b])) == Next(Next(s, i, a), i, b)
  {
    SoloMore(s, i, [], a);
    SoloMore(s, i, [a], b);
    assert [] + [a] == [a] && [a] + [b] == [a, b];
  }

  lemma {:induction false} SoloThree(s: System, i: nat, a: Action, b: Action, c: Action)
    ensures After(s, Solo(i, [a, b, c])) == Next(Next(Next(s, i, a), i, b), i, c)
  {
    SoloTwo(s, i, a, b);
    SoloMore(s, i, [a, b], c);
    assert [a, b] + [c] == [a, b, c];
  }

  lemma {:induction false} CanEnter(s: System, tenant: Text, sha: Text, rows: seq<Snapshot>)
    requires Quiet(s) && RevisionsOf(s, tenant, sha) == {}
    ensures After(s, Solo(0, [Call(tenant, sha, rows), Check, BeginUpdate])) ==
            Put(s, 0, Writer(tenant, sha, rows, Updating(ActiveFor(s, tenant)), {}))
  {
    SoloThree(s, 0, Call(tenant, sha, rows), Check, BeginUpdate);
    var called := Put(s, 0, Writer(tenant, sha, rows, Checking, {}));
    var starting := Put(s, 0, Writer(tenant, sha, rows, Starting, {}));
    assert Next(s, 0, Call(tenant, sha, rows)) == called;
    assert RevisionsOf(called, tenant, sha) == RevisionsOf(s, tenant, sha);
    assert Next(called, 0, Check) == starting;
    assert ActiveFor(starting, tenant) == ActiveFor(s, tenant);
  }

  /** A lone writer can stand down whatever is active. */
  lemma {:induction false} CanStandDown(s: System, w: Writer) returns (steps: seq<Step>)
    requires Sound(s) && |s.writers| == 1 && w.stage == Updating(ActiveFor(s, w.tenant)) && w.locked == {}
    ensures After(Put(s, 0, w), steps) == Put(s, 0, w.(stage := Inserting, locked := ActiveFor(s, w.tenant)))
  {
    var t := Put(s, 0, w);
    if ActiveFor(s, w.tenant) == {} {
      steps := Solo(0, [EndUpdate]);
      SoloMore(t, 0, [], EndUpdate);
      assert [] + [EndUpdate] == [EndUpdate];
    } else {
      var r := OnlyActive(s, w.tenant);
      steps := Solo(0, [UpdateRow(r), EndUpdate]);
      SoloTwo(t, 0, UpdateRow(r), EndUpdate);
      StandsDown(s, w, r);
    }
  }

  lemma {:induction false} StandsDown(s: System, w: Writer, r: nat)
    requires |s.writers| == 1 && w.stage == Updating({r}) && w.locked == {} && IsActiveFor(s, r, w.tenant)
    ensures Next(Next(Put(s, 0, w), 0, UpdateRow(r)), 0, EndUpdate) == Put(s, 0, w.(stage := Inserting, locked := {r}))
  {
    assert !LockedElsewhere(Put(s, 0, w), 0, r);
    assert {r} - {r} == {} && {} + {r} == {r};
  }

  lemma {:induction false} OnlyActive(s: System, tenant: Text) returns (r: nat)
    requires Sound(s) && ActiveFor(s, tenant) != {}
    ensures ActiveFor(s, tenant) == {r} && IsActiveFor(s, r, tenant)
  {
    r :| r in ActiveFor(s, tenant);
  }

  /** And then insert and commit. */
  lemma {:induction false} CanCommit(s: System, w: Writer)
    requires |s.writers| == 1 && w.stage.Inserting? && w.locked == ActiveFor(s, w.tenant)
    requires RevisionsOf(s, w.tenant, w.sha) == {}
    ensures var t := After(Put(s, 0, w), Solo(0, [Insert, Fill, Commit]));
            && t.writers == [w.(stage := Returned(s.next), locked := {})]
            && t.revisions == Published(s, w, s.next)
  {
    var t := Put(s, 0, w);
    SoloThree(t, 0, Insert, Fill, Commit);
    SameRevisions(s, t, w.tenant, w.sha);
    assert !MustWait(t, 0);
    Projects(t, 0, w);
    assert Published(t, w, s.next) == Published(s, w, s.next);
  }

  lemma {:induction false} CanReachInsert(s: System, tenant: Text, sha: Text, rows: seq<Snapshot>) returns (steps: seq<Step>)
    requires Quiet(s) && RevisionsOf(s, tenant, sha) == {}
    ensures After(s, steps) == Put(s, 0, Writer(tenant, sha, rows, Inserting, ActiveFor(s, tenant)))
  {
    var entering := Solo(0, [Call(tenant, sha, rows), Check, BeginUpdate]);
    CanEnter(s, tenant, sha, rows);
    var standing := CanStandDown(s, Writer(tenant, sha, rows, Updating(ActiveFor(s, tenant)), {}));
    AfterConcat(s, entering, standing);
    steps := entering + standing;
  }

  /** A commit no revision records yet can be ingested: it becomes the tenant's active revision. */
  lemma {:induction false} CanIngest(s: System, tenant: Text, sha: Text, rows: seq<Snapshot>) returns (steps: seq<Step>)
    requires Quiet(s) && RevisionsOf(s, tenant, sha) == {}
    ensures var t := After(s, steps);
            && Quiet(t)
            && t.revisions.Keys == s.revisions.Keys + {s.next} && s.next !in s.revisions
            && t.revisions[s.next] == Revision(tenant, sha, true)
            && SameCommits(s.revisions, t.revisions)
  {
    var inserting := Writer(tenant, sha, rows, Inserting, ActiveFor(s, tenant));
    PublishedKeeps(s, inserting, s.next);
    var standing := CanReachInsert(s, tenant, sha, rows);
    CanCommit(s, inserting);
    AfterConcat(s, standing, Solo(0, [Insert, Fill, Commit]));
    steps := standing + Solo(0, [Insert, Fill, Commit]);
    SoundAfter(s, steps);
  }

  lemma {:induction false} SoundAfter(s: System, steps: seq<Step>)
    requires Sound(s)
    ensures Sound(After(s, steps))
  {
    if steps != [] {
      var front, last := steps[..|steps| - 1], steps[|steps| - 1];
      SoundAfter(s, front);
      StepKeeps(After(s, front), last.writer, last.action);
    }
  }

  lemma {:induction false} AfterConcat(s: System, steps: seq<Step>, more: seq<Step>)
    ensures After(s, steps + more) == After(After(s, steps), more)
  {
    if more == [] {
      assert steps + more == steps;
    } else {
      assert (steps + more)[..|steps + more| - 1] == steps + more[..|more| - 1];
      AfterConcat(s, steps, more[..|more| - 1]);
    }
  }

  /**
   * One commit, then another, then the first again: the last call returns the first commit's revision, and
   * that revision is not the active one.
   */
  lemma {:induction false} FormerCommitReturnsInactive(tenant: Text, first: Text, second: Text, rows: seq<Snapshot>)
    returns (steps: seq<Step>)
    requires first != second
    ensures var s := After(Start(1), steps);
            && |s.writers| == 1 && s.writers[0].tenant == tenant && s.writers[0].sha == first
            && s.writers[0].stage.Returned?
            && IsRevisionOf(s, s.writers[0].stage.revision, tenant, first)
            && !s.revisions[s.writers[0].stage.revision].active
            && ActiveFor(s, tenant) != {}
  {
    var ingesting, two, active := CanIngestBoth(tenant, first, second, rows);
    var again := Solo(0, [Call(tenant, first, rows), Check]);
    steps := ingesting + again;
    AfterConcat(Start(1), ingesting, again);
    SoloTwo(two, 0, Call(tenant, first, rows), Check);
    ReingestingDoesNotReactivate(two, 0, tenant, first, rows);
    var s := After(Start(1), steps);
    assert s.revisions == two.revisions;
    assert active in ActiveFor(s, tenant);
  }

  lemma {:induction false} CanIngestBoth(tenant: Text, first: Text, second: Text, rows: seq<Snapshot>)
    returns (steps: seq<Step>, two: System, active: nat)
    requires first != second
    ensures two == After(Start(1), steps) && Quiet(two)
    ensures RevisionsOf(two, tenant, first) != {} && active in two.revisions && two.revisions[active] == Revision(tenant, second, true)
  {
    var start := Start(1);
    AlwaysSound(1, []);
    assert RevisionsOf(start, tenant, first) == {};
    var ingestFirst := CanIngest(start, tenant, first, rows);
    var one := After(start, ingestFirst);
    assert RevisionsOf(one, tenant, second) == {};
    var ingestSecond := CanIngest(one, tenant, second, rows);
    AfterConcat(start, ingestFirst, ingestSecond);
    steps, active := ingestFirst + ingestSecond, one.next;
    two := After(start, steps);
    assert start.next in RevisionsOf(two, tenant, first);
  }

  // ---------------------------------------------------------------- a race, both ways out

  /** A writer gets as far as its insert, whoever else has got as far and nothing being recorded. */
  lemma {:induction false} ReachesInsert(s: System, i: nat, tenant: Text, sha: Text, rows: seq<Snapshot>)
    requires i < |s.writers| && Finished(s.writers[i]) && s.revisions == map[]
    ensures After(s, Solo(i, [Call(tenant, sha, rows), Check, BeginUpdate, EndUpdate])) ==
            Put(s, i, Writer(tenant, sha, rows, Inserting, {}))
  {
    SoloThree(s, i, Call(tenant, sha, rows), Check, BeginUpdate);
    SoloMore(s, i, [Call(tenant, sha, rows), Check, BeginUpdate], EndUpdate);
    assert [Call(tenant, sha, rows), Check, BeginUpdate] + [EndUpdate] == [Call(tenant, sha, rows), Check, BeginUpdate, EndUpdate];
    var called := Put(s, i, Writer(tenant, sha, rows, Checking, {}));
    var starting := Put(s, i, Writer(tenant, sha, rows, Starting, {}));
    var updating := Put(s, i, Writer(tenant, sha, rows, Updating({}), {}));
    assert RevisionsOf(called, tenant, sha) == {};
    assert Next(called, i, Check) == starting;
    assert ActiveFor(starting, tenant) == {};
    assert Next(starting, i, BeginUpdate) == updating;
  }

  lemma {:induction false} BothReachInsert(tenant: Text, sha: Text, rows: seq<Snapshot>) returns (steps: seq<Step>)
    ensures var w := Writer(tenant, sha, rows, Inserting, {}); After(Start(2), steps) == System([w, w], map[], map[], 0)
  {
    var start := Start(2);
    var reach := [Call(tenant, sha, rows), Check, BeginUpdate, EndUpdate];
    var w := Writer(tenant, sha, rows, Inserting, {});
    ReachesInsert(start, 0, tenant, sha, rows);
    var one := After(start, Solo(0, reach));
    ReachesInsert(one, 1, tenant, sha, rows);
    AfterConcat(start, Solo(0, reach), Solo(1, reach));
    steps := Solo(0, reach) + Solo(1, reach);
    assert one.writers[1 := w] == [w, w];
  }

  /** The first to insert commits. */
  lemma {:induction false} FirstCommits(s: System, w: Writer)
    requires s == System([w, w], map[], map[], 0) && w.stage == Inserting && w.locked == {}
    ensures var t := After(s, Solo(0, [Insert, Fill, Commit]));
            && t.writers == [w.(stage := Returned(0), locked := {}), w]
            && t.revisions == map[0 := Revision(w.tenant, w.sha, true)]
  {
    SoloThree(s, 0, Insert, Fill, Commit);
    assert ActiveFor(s, w.tenant) == {} && RevisionsOf(s, w.tenant, w.sha) == {};
    assert !MustWait(s, 0);
    Projects(s, 0, w);
  }

  lemma {:induction false} InsertIsRefused(s: System, i: nat)
    requires i < |s.writers| && s.writers[i].stage.Inserting? && !MustWait(s, i)
    requires RevisionsOf(s, s.writers[i].tenant, s.writers[i].sha) != {}
    ensures Next(s, i, Insert) == Put(s, i, s.writers[i].(stage := Resolving, locked := {}))
  {}

  lemma {:induction false} Resolves(s: System, i: nat, r: nat)
    requires i < |s.writers| && s.writers[i].stage.Resolving? && RevisionsOf(s, s.writers[i].tenant, s.writers[i].sha) == {r}
    ensures Next(s, i, Resolve) == Put(s, i, s.writers[i].(stage := Returned(r)))
  {}

  lemma {:induction false} NobodyHolds(s: System)
    requires Sound(s) && |s.writers| == 2 && s.writers[0].stage.Returned?
    ensures !MustWait(s, 1)
  {
    assert WriterOk(s, s.writers[0]);
  }

  /** The second, refused by an index, returns the recorded revision. */
  lemma {:induction false} SecondReturns(s: System, w: Writer, r: nat)
    requires Sound(s) && |s.writers| == 2 && s.writers[0].stage.Returned? && s.writers[1] == w && w.stage == Inserting
    requires IsRevisionOf(s, r, w.tenant, w.sha)
    ensures After(s, Solo(1, [Insert, Resolve])) == Put(s, 1, w.(stage := Returned(r), locked := {}))
  {
    SoloTwo(s, 1, Insert, Resolve);
    NobodyHolds(s);
    OnlyRevision(s, w.tenant, w.sha, r);
    var resolving := Put(s, 1, w.(stage := Resolving, locked := {}));
    InsertIsRefused(s, 1);
    SameRevisions(s, resolving, w.tenant, w.sha);
    Resolves(resolving, 1, r);
    assert s.writers[1 := w.(stage := Resolving, locked := {})][1 := w.(stage := Returned(r), locked := {})] ==
           s.writers[1 := w.(stage := Returned(r), locked := {})];
  }

  /** Two writers that both find a commit unrecorded both return it: the one that records it, and the other with its revision. */
  lemma {:induction false} RaceReturnsOneRevision(tenant: Text, sha: Text, rows: seq<Snapshot>) returns (steps: seq<Step>)
    ensures var s := After(Start(2), steps);
            && |s.writers| == 2
            && s.writers[0].stage.Returned? && s.writers[1].stage == s.writers[0].stage
            && IsRevisionOf(s, s.writers[0].stage.revision, tenant, sha)
            && |s.revisions| == 1
  {
    var w := Writer(tenant, sha, rows, Inserting, {});
    var racing := BothReachInsert(tenant, sha, rows);
    FirstCommits(System([w, w], map[], map[], 0), w);
    AfterConcat(Start(2), racing, Solo(0, [Insert, Fill, Commit]));
    var committed := After(Start(2), racing + Solo(0, [Insert, Fill, Commit]));
    AlwaysSound(2, racing + Solo(0, [Insert, Fill, Commit]));
    SecondReturns(committed, w, 0);
    AfterConcat(Start(2), racing + Solo(0, [Insert, Fill, Commit]), Solo(1, [Insert, Resolve]));
    steps := racing + Solo(0, [Insert, Fill, Commit]) + Solo(1, [Insert, Resolve]);
  }

  // ---------------------------------------------------------------- one call, undisturbed

  ghost predicate OthersIdle(s: System, i: nat) {
    forall j :: 0 <= j < |s.writers| && j != i ==> Finished(s.writers[j])
  }

  lemma {:induction false} SameRevisions(s: System, t: System, tenant: Text, sha: Text)
    requires t.revisions == s.revisions
    ensures ActiveFor(t, tenant) == ActiveFor(s, tenant) && RevisionsOf(t, tenant, sha) == RevisionsOf(s, tenant, sha)
  {}

  /** The insert, its rows and the commit, when no other writer has anything in hand. */
  lemma {:induction false} Projects(s: System, i: nat, w: Writer)
    requires i < |s.writers| && w == s.writers[i] && w.stage.Inserting? && !MustWait(s, i)
    requires w.locked == ActiveFor(s, w.tenant) && RevisionsOf(s, w.tenant, w.sha) == {}
    ensures var t := Next(Next(Next(s, i, Insert), i, Fill), i, Commit);
            && t.writers == s.writers[i := w.(stage := Returned(s.next), locked := {})]
            && t.revisions == Published(s, w, s.next)
            && t.resources == s.resources[s.next := w.snapshots]
  {
    var filling := Put(s, i, w.(stage := Filling(s.next))).(next := s.next + 1);
    assert Next(s, i, Insert) == filling;
    var ready := Put(s, i, w.(stage := Ready(s.next))).(next := s.next + 1);
    assert Next(filling, i, Fill) == ready;
    assert Published(ready, ready.writers[i], s.next) == Published(s, w, s.next);
  }

  lemma {:induction false} PublishedIsTheActiveOne(s: System, w: Writer, rev: nat, t: System)
    requires w.locked == ActiveFor(s, w.tenant) && rev !in s.revisions && t.revisions == Published(s, w, rev)
    ensures IsRevisionOf(t, rev, w.tenant, w.sha) && ActiveFor(t, w.tenant) == {rev}
  {
    forall r | r in t.revisions && r != rev ensures !IsActiveFor(t, r, w.tenant) {
      assert IsActiveFor(s, r, w.tenant) ==> r in w.locked;
    }
  }

  /** The writer has stood down all its tenant's active rows but those to do. */
  function StandingDown(s: System, i: nat, active: set<nat>, todo: set<nat>): System
    requires i < |s.writers|
  {
    Put(s, i, s.writers[i].(stage := Updating(todo), locked := active - todo))
  }

  lemma {:induction false} OneMoreDown(s: System, i: nat, active: set<nat>, todo: set<nat>, r: nat)
    requires i < |s.writers| && r in todo && todo <= active
    ensures var t := StandingDown(s, i, active, todo);
            var w := t.writers[i];
            Put(t, i, w.(stage := Updating(w.stage.todo - {r}), locked := w.locked + {r})) ==
            StandingDown(s, i, active, todo - {r})
  {
    assert active - (todo - {r}) == (active - todo) + {r};
  }

  lemma {:induction false} BeginsAndEnds(s: System, i: nat, active: set<nat>)
    requires Sound(s) && i < |s.writers| && s.writers[i].stage.Starting? && active == ActiveFor(s, s.writers[i].tenant)
    ensures Next(s, i, BeginUpdate) == StandingDown(s, i, active, active)
    ensures Next(StandingDown(s, i, active, {}), i, EndUpdate) == Put(s, i, s.writers[i].(stage := Inserting, locked := active))
  {
    assert WriterOk(s, s.writers[i]);
    assert active - active == {} && active - {} == active;
  }

  class Ingester {
    var system: System

    constructor (s: System)
      ensures system == s
    {
      system := s;
    }

    /** `ingest_revision` with no other writer about: what exists is returned, anything else is projected. */
    method Ingest(i: nat, tenant: Text, sha: Text, snapshots: seq<Snapshot>) returns (r: nat)
      requires Sound(system) && i < |system.writers| && Finished(system.writers[i]) && OthersIdle(system, i)
      modifies this
      ensures Sound(system) && IsRevisionOf(system, r, tenant, sha)
      ensures RevisionsOf(old(system), tenant, sha) != {} ==>
                system.revisions == old(system).revisions && system.resources == old(system).resources
      ensures RevisionsOf(old(system), tenant, sha) == {} ==>
                && ActiveFor(system, tenant) == {r}
                && system.resources == old(system).resources[r := snapshots]
      ensures system.revisions[r].active <==>
              RevisionsOf(old(system), tenant, sha) == {} || (r in old(system).revisions && old(system).revisions[r].active)
    {
      var known := IsKnown(i, tenant, sha, snapshots);
      if known.Some? {
        return known.value;
      }
      ghost var starting := system;
      StandDownActive(i);
      SameRevisions(starting, system, tenant, sha);
      r := Project(i);
    }

    /** The call, and its look for a revision of the commit. */
    method IsKnown(i: nat, tenant: Text, sha: Text, snapshots: seq<Snapshot>) returns (known: Option<nat>)
      requires Sound(system) && i < |system.writers| && Finished(system.writers[i])
      modifies this
      ensures Sound(system)
      ensures known.Some? <==> RevisionsOf(old(system), tenant, sha) != {}
      ensures known.Some? ==>
                && IsRevisionOf(system, known.value, tenant, sha)
                && system.revisions == old(system).revisions && system.resources == old(system).resources
      ensures known == None ==>
                && i < |old(system).writers|
                && system == Put(old(system), i, Writer(tenant, sha, snapshots, Starting, {}))
                && RevisionsOf(system, tenant, sha) == {}
    {
      ghost var start := system;
      Take(i, Call(tenant, sha, snapshots));
      SameRevisions(start, system, tenant, sha);
      Take(i, Check);
      SameRevisions(start, system, tenant, sha);
      known := if system.writers[i].stage.Returned? then Some(system.writers[i].stage.revision) else None;
    }

    method Take(i: nat, a: Action)
      requires Sound(system)
      modifies this
      ensures Sound(system) && system == Next(old(system), i, a)
    {
      StepKeeps(system, i, a);
      system := Next(system, i, a);
    }

    /** `_deactivate_current`: row by row, as the update meets them. */
    method StandDownActive(i: nat)
      requires Sound(system) && i < |system.writers| && system.writers[i].stage.Starting? && OthersIdle(system, i)
      modifies this
      ensures Sound(system) && i < |old(system).writers|
      ensures var me := old(system).writers[i];
              system == Put(old(system), i, me.(stage := Inserting, locked := ActiveFor(old(system), me.tenant)))
    {
      ghost var start := system;
      ghost var active := ActiveFor(start, start.writers[i].tenant);
      BeginsAndEnds(start, i, active);
      Take(i, BeginUpdate);
      ghost var todo := active;
      while system.writers[i].stage.todo != {}
        invariant Sound(system) && todo <= active
        invariant system == StandingDown(start, i, active, todo)
        decreases todo
      {
        SameRevisions(start, system, start.writers[i].tenant, start.writers[i].sha);
        var r := StandDownRow(i);
        OneMoreDown(start, i, active, todo, r);
        todo := todo - {r};
      }
      Take(i, EndUpdate);
    }

    method StandDownRow(i: nat) returns (r: nat)
      requires Sound(system) && i < |system.writers| && OthersIdle(system, i)
      requires var w := system.writers[i];
               w.stage.Updating? && w.stage.todo != {} && w.stage.todo <= ActiveFor(system, w.tenant)
      modifies this
      ensures Sound(system) && i < |old(system).writers|
      ensures var w := old(system).writers[i];
              && w.stage.Updating? && r in w.stage.todo
              && system == Put(old(system), i, w.(stage := Updating(w.stage.todo - {r}), locked := w.locked + {r}))
    {
      r :| r in system.writers[i].stage.todo;
      NothingLocked(system, i);
      assert r in ActiveFor(system, system.writers[i].tenant);
      Take(i, UpdateRow(r));
    }

    /** The insert, its rows and the commit. */
    method Project(i: nat) returns (r: nat)
      requires Sound(system) && i < |system.writers| && OthersIdle(system, i)
      requires var w := system.writers[i];
               w.stage.Inserting? && w.locked == ActiveFor(system, w.tenant) && RevisionsOf(system, w.tenant, w.sha) == {}
      modifies this
      ensures Sound(system) && IsRevisionOf(system, r, old(system).writers[i].tenant, old(system).writers[i].sha)
      ensures ActiveFor(system, old(system).writers[i].tenant) == {r}
      ensures system.resources == old(system).resources[r := old(system).writers[i].snapshots]
    {
      ghost var start := system;
      NothingLocked(start, i);
      Projects(start, i, start.writers[i]);
      r := system.next;
      assert r !in start.revisions;
      Take(i, Insert);
      Take(i, Fill);
      Take(i, Commit);
      PublishedIsTheActiveOne(start, start.writers[i], r, system);
    }
  }

  lemma {:induction false} NothingLocked(s: System, i: nat)
    requires Sound(s) && i < |s.writers| && OthersIdle(s, i)
    ensures !MustWait(s, i) && forall r :: !LockedElsewhere(s, i, r)
  {
    forall j | 0 <= j < |s.writers| && j != i ensures s.writers[j].locked == {} { assert WriterOk(s, s.writers[j]); }
  }
}
