/** Run exclusion: sessions, their stacks of transaction blocks, and the advisory locks those hold. */
module Locks {
  import opened Options
  import opened Texts

  /** What a run excludes on; the derived advisory key is taken to tell these apart. */
  datatype Key = Key(tenant: Text, operation: Text)

  /** A write of one cell, computed from what the run had read there. */
  datatype Update<!V> = Update(key: Key, change: Option<V> -> V)

  /**
   * One open block: the transaction itself at the bottom, savepoints above it.
   * `run` is set while the block is the body of a `locked_run`.
   */
  datatype Level<!V> = Level(
    run: Option<Key>, locks: set<Key>, seen: map<Key, Option<V>>, local: map<Key, V>, log: seq<Update<V>>)

  /** A database session: its open blocks, and the locks it holds beyond any transaction. */
  datatype Session<!V> = Session(levels: seq<Level<V>>, held: multiset<Key>)

  /** `history` lists the committed transactions in commit order. */
  datatype System<!V> = System(sessions: seq<Session<V>>, committed: map<Key, V>, history: seq<seq<Update<V>>>)

  /** What a body relies on while it touches a cell. */
  datatype Scope = InLockedRun | UnderSessionLock

  datatype Action<!V> =
    | Open
    | TryRun(key: Key)
    | Read(key: Key, scope: Scope)
    | Write(key: Key, change: Option<V> -> V, scope: Scope)
    | Close
    | Fail
    | Disconnect
    | LockSession(key: Key)
    | UnlockSession(key: Key)

  datatype Step<!V> = Step(session: nat, action: Action<V>)

  // ---------------------------------------------------------------- views of a session

  function Lookup<V>(cells: map<Key, V>, k: Key): Option<V> {
    if k in cells then Some(cells[k]) else None
  }

  function Top<V>(levels: seq<Level<V>>): Level<V>
    requires levels != []
  {
    levels[|levels| - 1]
  }

  function Below<V>(levels: seq<Level<V>>): seq<Level<V>>
    requires levels != []
  {
    levels[..|levels| - 1]
  }

  /** The session's own latest write, or what is committed. */
  function Visible<V>(levels: seq<Level<V>>, committed: map<Key, V>, k: Key): Option<V> {
    if levels == [] then Lookup(committed, k)
    else if k in Top(levels).local then Some(Top(levels).local[k])
    else Visible(Below(levels), committed, k)
  }

  function TransactionLocks<V>(levels: seq<Level<V>>): set<Key> {
    if levels == [] then {} else TransactionLocks(Below(levels)) + Top(levels).locks
  }

  predicate InRun<V>(levels: seq<Level<V>>, k: Key) {
    levels != [] && (Top(levels).run == Some(k) || InRun(Below(levels), k))
  }

  /** What the innermost block that has read the cell saw there. */
  function Recalled<V>(levels: seq<Level<V>>, k: Key): Option<Option<V>> {
    if levels == [] then None
    else if k in Top(levels).seen then Some(Top(levels).seen[k])
    else Recalled(Below(levels), k)
  }

  predicate Holds<V>(s: Session<V>, k: Key) { k in TransactionLocks(s.levels) || k in s.held }

  predicate HeldElsewhere<V>(s: System<V>, i: nat, k: Key) {
    exists j :: 0 <= j < |s.sessions| && j != i && Holds(s.sessions[j], k)
  }

  function EmptyLevel<V>(): Level<V> { Level(None, {}, map[], map[], []) }

  /** The block a `locked_run` has just opened: nothing in it yet. */
  predicate JustOpened<V>(l: Level<V>) {
    l.run == None && |l.locks| == 0 && |l.seen| == 0 && |l.local| == 0 && |l.log| == 0
  }

  function Merged<V>(parent: Level<V>, child: Level<V>): Level<V> {
    Level(parent.run, parent.locks + child.locks, parent.seen + child.seen, parent.local + child.local,
          parent.log + child.log)
  }

  function MergedLevels<V>(levels: seq<Level<V>>): seq<Level<V>>
    requires |levels| >= 2
  {
    Below(Below(levels)) + [Merged(Top(Below(levels)), Top(levels))]
  }

  function Noted<V>(l: Level<V>, k: Key, v: Option<V>): Level<V> { l.(seen := l.seen[k := v]) }

  function Wrote<V>(l: Level<V>, k: Key, v: V, change: Option<V> -> V): Level<V> {
    l.(seen := l.seen[k := Some(v)], local := l.local[k := v], log := l.log + [Update(k, change)])
  }

  predicate Permits<V>(s: Session<V>, k: Key, scope: Scope) {
    s.levels != [] && match scope case InLockedRun => InRun(s.levels, k) case UnderSessionLock => k in s.held
  }

  // ---------------------------------------------------------------- steps

  function Put<V>(s: System<V>, i: nat, session: Session<V>): System<V>
    requires i < |s.sessions|
  {
    s.(sessions := s.sessions[i := session])
  }

  /** Leaving a block normally: a savepoint merges into its parent, the last block commits. */
  function Closed<V>(s: System<V>, i: nat): System<V>
    requires i < |s.sessions| && s.sessions[i].levels != []
  {
    var levels := s.sessions[i].levels;
    if |levels| == 1 then
      Put(s, i, s.sessions[i].(levels := [])).(
        committed := s.committed + levels[0].local, history := s.history + [levels[0].log])
    else
      Put(s, i, s.sessions[i].(levels := MergedLevels(levels)))
  }

  /** Dropping the innermost block: its writes and its locks go together. */
  function Dropped<V>(s: Session<V>): Session<V>
    requires s.levels != []
  {
    s.(levels := Below(s.levels))
  }

  function OnTop<V>(s: Session<V>, l: Level<V>): Session<V>
    requires s.levels != []
  {
    s.(levels := Below(s.levels) + [l])
  }

  /** One step of one session; an action that is not enabled changes nothing. */
  function Next<V>(s: System<V>, i: nat, a: Action<V>): System<V> {
    if i >= |s.sessions| then s
    else
      var me := s.sessions[i];
      match a
      case Open => Put(s, i, me.(levels := me.levels + [EmptyLevel()]))
      case TryRun(k) =>
        if me.levels == [] || !JustOpened(Top(me.levels)) then s
        else if HeldElsewhere(s, i, k) then Put(s, i, Dropped(me))
        else Put(s, i, OnTop(me, Top(me.levels).(run := Some(k), locks := {k})))
      case Read(k, scope) =>
        if !Permits(me, k, scope) then s
        else
          var top := Top(me.levels);
          Put(s, i, OnTop(me, Noted(top, k, Visible(me.levels, s.committed, k))))
      case Write(k, change, scope) =>
        if !Permits(me, k, scope) || Recalled(me.levels, k) == None then s
        else
          var top := Top(me.levels);
          Put(s, i, OnTop(me, Wrote(top, k, change(Recalled(me.levels, k).value), change)))
      case Close => if me.levels == [] then s else Closed(s, i)
      case Fail => if me.levels == [] then s else Put(s, i, Dropped(me))
      case Disconnect => Put(s, i, Session([], multiset{}))
      case LockSession(k) => if HeldElsewhere(s, i, k) then s else Put(s, i, me.(held := me.held + multiset{k}))
      case UnlockSession(k) => if k in me.held then Put(s, i, me.(held := me.held - multiset{k})) else s
  }

  function After<V>(s: System<V>, steps: seq<Step<V>>): System<V> {
    if steps == [] then s
    else
      var last := steps[|steps| - 1];
      Next(After(s, steps[..|steps| - 1]), last.session, last.action)
  }

  function Start<V>(sessions: nat, cells: map<Key, V>): System<V> {
    System(seq(sessions, i => Session([], multiset{})), cells, [])
  }

  /** Every cell is touched only inside the `locked_run` that guards it. */
  predicate Disciplined<V>(steps: seq<Step<V>>) {
    forall i :: 0 <= i < |steps| ==>
      (steps[i].action.Read? || steps[i].action.Write? ==> steps[i].action.scope.InLockedRun?)
  }

  // ---------------------------------------------------------------- serial execution

  /** The cell after the updates of one transaction, applied with nothing in between. */
  function Replayed<V>(v: Option<V>, log: seq<Update<V>>, k: Key): Option<V> {
    if log == [] then v
    else
      var before, u := Replayed(v, log[..|log| - 1], k), log[|log| - 1];
      if u.key == k then Some(u.change(before)) else before
  }

  /** The cell after the transactions, one whole transaction after another. */
  function Serial<V>(v: Option<V>, history: seq<seq<Update<V>>>, k: Key): Option<V> {
    if history == [] then v
    else Replayed(Serial(v, history[..|history| - 1], k), history[|history| - 1], k)
  }

  function Logs<V>(levels: seq<Level<V>>): seq<Update<V>> {
    if levels == [] then [] else Logs(Below(levels)) + Top(levels).log
  }

  predicate Logged<V>(log: seq<Update<V>>, k: Key) { exists i :: 0 <= i < |log| && log[i].key == k }

  // ---------------------------------------------------------------- the invariant

  /** No block touches a cell whose lock is not held at its level or below. */
  ghost predicate Covered<V>(levels: seq<Level<V>>) {
    levels != [] ==>
      var top := Top(levels);
      && Covered(Below(levels))
      && (forall k :: k in top.local ==> k in top.seen)
      && (forall k :: Logged(top.log, k) ==> k in top.seen)
      && (forall k :: k in top.seen || top.run == Some(k) ==> k in TransactionLocks(levels))
  }

  /** What every block saw is still so, and the session's view is its own log replayed. */
  ghost predicate Current<V>(levels: seq<Level<V>>, committed: map<Key, V>) {
    && (levels != [] ==> Current(Below(levels), committed))
    && (levels != [] ==> forall k :: k in Top(levels).seen ==> Top(levels).seen[k] == Visible(levels, committed, k))
    && (forall k :: Visible(levels, committed, k) == Replayed(Lookup(committed, k), Logs(levels), k))
  }

  ghost predicate Exclusive<V>(s: System<V>) {
    forall i, j, k :: 0 <= i < |s.sessions| && 0 <= j < |s.sessions| && i != j && Holds(s.sessions[i], k) ==>
                        !Holds(s.sessions[j], k)
  }

  ghost predicate Sound<V>(s: System<V>) {
    forall i :: 0 <= i < |s.sessions| ==> Covered(s.sessions[i].levels) && Current(s.sessions[i].levels, s.committed)
  }

  ghost predicate IsSerial<V>(s: System<V>, cells: map<Key, V>) {
    forall k :: Lookup(s.committed, k) == Serial(Lookup(cells, k), s.history, k)
  }

  // ---------------------------------------------------------------- one session's blocks

  lemma {:induction false} RunIsLocked<V(!new)>(levels: seq<Level<V>>, k: Key)
    requires Covered(levels) && InRun(levels, k)
    ensures k in TransactionLocks(levels)
  {
    if Top(levels).run != Some(k) { RunIsLocked(Below(levels), k); }
  }

  lemma {:induction false} RecalledIsVisible<V(!new)>(levels: seq<Level<V>>, committed: map<Key, V>, k: Key)
    requires Covered(levels) && Current(levels, committed) && Recalled(levels, k).Some?
    ensures Recalled(levels, k).value == Visible(levels, committed, k)
  {
    if k !in Top(levels).seen { RecalledIsVisible(Below(levels), committed, k); }
  }

  lemma {:induction false} ReplayConcat<V>(v: Option<V>, a: seq<Update<V>>, b: seq<Update<V>>, k: Key)
    ensures Replayed(v, a + b, k) == Replayed(Replayed(v, a, k), b, k)
  {
    if b == [] {
      assert a + b == a;
    } else {
      assert (a + b)[..|a + b| - 1] == a + b[..|b| - 1];
      ReplayConcat(v, a, b[..|b| - 1], k);
    }
  }

  lemma {:induction false} ReplayUnlogged<V>(v: Option<V>, log: seq<Update<V>>, k: Key)
    requires !Logged(log, k)
    ensures Replayed(v, log, k) == v
  {
    if log != [] {
      assert log[|log| - 1].key != k;
      var front := log[..|log| - 1];
      forall i | 0 <= i < |front| ensures front[i].key != k { assert log[i].key != k; }
      ReplayUnlogged(v, front, k);
    }
  }

  /** A cell whose lock the session does not hold is one it has not touched. */
  lemma {:induction false} UnlockedIsUntouched<V(!new)>(levels: seq<Level<V>>, committed: map<Key, V>, k: Key)
    requires Covered(levels) && k !in TransactionLocks(levels)
    ensures Visible(levels, committed, k) == Lookup(committed, k)
    ensures Replayed(Lookup(committed, k), Logs(levels), k) == Lookup(committed, k)
  {
    if levels != [] {
      UnlockedIsUntouched(Below(levels), committed, k);
      ReplayConcat(Lookup(committed, k), Logs(Below(levels)), Top(levels).log, k);
      ReplayUnlogged(Lookup(committed, k), Top(levels).log, k);
    }
  }

  lemma {:induction false} SameStartSameView<V(!new)>(levels: seq<Level<V>>, c: map<Key, V>, d: map<Key, V>, k: Key)
    requires Lookup(c, k) == Lookup(d, k)
    ensures Visible(levels, c, k) == Visible(levels, d, k)
  {
    if levels != [] { SameStartSameView(Below(levels), c, d, k); }
  }

  /** A commit elsewhere, of cells this session has no lock on, leaves its view in order. */
  lemma {:induction false} CommitElsewhere<V(!new)>(levels: seq<Level<V>>, c: map<Key, V>, d: map<Key, V>)
    requires Covered(levels) && Current(levels, c)
    requires forall k :: k in TransactionLocks(levels) ==> Lookup(c, k) == Lookup(d, k)
    ensures Current(levels, d)
  {
    if levels != [] { CommitElsewhere(Below(levels), c, d); }
    forall k
      ensures Visible(levels, d, k) == Replayed(Lookup(d, k), Logs(levels), k)
      ensures levels != [] && k in Top(levels).seen ==> Top(levels).seen[k] == Visible(levels, d, k)
    {
      if k in TransactionLocks(levels) {
        SameStartSameView(levels, c, d, k);
      } else {
        UnlockedIsUntouched(levels, d, k);
      }
    }
  }

  lemma {:induction false} TopReplaced<V(!new)>(levels: seq<Level<V>>, l: Level<V>, committed: map<Key, V>)
    ensures Below(levels + [l]) == levels && Top(levels + [l]) == l
    ensures TransactionLocks(levels + [l]) == TransactionLocks(levels) + l.locks
    ensures Logs(levels + [l]) == Logs(levels) + l.log
    ensures forall k :: Visible(levels + [l], committed, k) ==
                        if k in l.local then Some(l.local[k]) else Visible(levels, committed, k)
  {
    assert (levels + [l])[..|levels|] == levels;
  }

  lemma {:induction false} OpenedIsSound<V(!new)>(levels: seq<Level<V>>, l: Level<V>, committed: map<Key, V>)
    requires Covered(levels) && Current(levels, committed)
    requires l.seen == map[] && l.local == map[] && l.log == [] && (l.run.Some? ==> l.run.value in l.locks)
    ensures Covered(levels + [l]) && Current(levels + [l], committed)
  {
    TopReplaced(levels, l, committed);
    assert Logs(levels) + [] == Logs(levels);
  }

  lemma {:induction false} SameBelow<V(!new)>(levels: seq<Level<V>>, l: Level<V>, committed: map<Key, V>)
    requires levels != [] && l.locks == Top(levels).locks && l.local == Top(levels).local && l.log == Top(levels).log
    ensures Below(Below(levels) + [l]) == Below(levels) && Top(Below(levels) + [l]) == l
    ensures TransactionLocks(Below(levels) + [l]) == TransactionLocks(levels)
    ensures Logs(Below(levels) + [l]) == Logs(levels)
    ensures forall k :: Visible(Below(levels) + [l], committed, k) == Visible(levels, committed, k)
  {
    assert levels == Below(levels) + [Top(levels)];
    TopReplaced(Below(levels), l, committed);
    TopReplaced(Below(levels), Top(levels), committed);
  }

  lemma {:induction false} ReadIsSound<V(!new)>(levels: seq<Level<V>>, committed: map<Key, V>, k: Key)
    requires Covered(levels) && Current(levels, committed) && InRun(levels, k)
    ensures var l := Noted(Top(levels), k, Visible(levels, committed, k));
            Covered(Below(levels) + [l]) && Current(Below(levels) + [l], committed)
  {
    var l := Noted(Top(levels), k, Visible(levels, committed, k));
    RunIsLocked(levels, k);
    SameBelow(levels, l, committed);
  }

  lemma {:induction false} LoggedAppend<V>(log: seq<Update<V>>, u: Update<V>, k: Key)
    ensures Logged(log + [u], k) <==> Logged(log, k) || u.key == k
  {
    var all := log + [u];
    if Logged(log, k) {
      var i :| 0 <= i < |log| && log[i].key == k;
      assert all[i].key == k;
    }
    if u.key == k { assert all[|log|].key == k; }
  }

  lemma {:induction false} LoggedConcat<V>(a: seq<Update<V>>, b: seq<Update<V>>, k: Key)
    requires Logged(a + b, k)
    ensures Logged(a, k) || Logged(b, k)
  {
    var i :| 0 <= i < |a + b| && (a + b)[i].key == k;
    if i < |a| { assert a[i].key == k; } else { assert b[i - |a|].key == k; }
  }

  /** The write is the one update the session's view gains. */
  lemma {:induction false} WriteReplays<V(!new)>(
      levels: seq<Level<V>>, committed: map<Key, V>, k: Key, change: Option<V> -> V, l: Level<V>, x: Key)
    requires levels != [] && Current(levels, committed)
    requires l == Wrote(Top(levels), k, change(Visible(levels, committed, k)), change)
    ensures Visible(Below(levels) + [l], committed, x) == Replayed(Lookup(committed, x), Logs(Below(levels) + [l]), x)
  {
    assert levels == Below(levels) + [Top(levels)];
    TopReplaced(Below(levels), l, committed);
    TopReplaced(Below(levels), Top(levels), committed);
    LastOfBoth(Logs(Below(levels)), Top(levels).log, Update(k, change));
    ReplayAppend(Lookup(committed, x), Logs(levels), Update(k, change), x);
  }

  lemma {:induction false} LastOfBoth<V>(a: seq<Update<V>>, b: seq<Update<V>>, u: Update<V>)
    ensures a + (b + [u]) == (a + b) + [u]
  {}

  lemma {:induction false} ReplayAppend<V>(v: Option<V>, log: seq<Update<V>>, u: Update<V>, k: Key)
    ensures Replayed(v, log + [u], k) == if u.key == k then Some(u.change(Replayed(v, log, k))) else Replayed(v, log, k)
  {
    assert (log + [u])[..|log|] == log;
  }

  lemma {:induction false} WriteIsCovered<V(!new)>(levels: seq<Level<V>>, k: Key, v: V, change: Option<V> -> V)
    requires Covered(levels) && InRun(levels, k)
    ensures Covered(Below(levels) + [Wrote(Top(levels), k, v, change)])
  {
    var l := Wrote(Top(levels), k, v, change);
    RunIsLocked(levels, k);
    TopReplaced(Below(levels), l, map[]);
    forall x ensures Logged(l.log, x) ==> x in l.seen { LoggedAppend(Top(levels).log, Update(k, change), x); }
  }

  lemma {:induction false} WriteIsSound<V(!new)>(
      levels: seq<Level<V>>, committed: map<Key, V>, k: Key, change: Option<V> -> V)
    requires Covered(levels) && Current(levels, committed) && InRun(levels, k) && Recalled(levels, k).Some?
    ensures var l := Wrote(Top(levels), k, change(Recalled(levels, k).value), change);
            Covered(Below(levels) + [l]) && Current(Below(levels) + [l], committed)
  {
    var l := Wrote(Top(levels), k, change(Recalled(levels, k).value), change);
    RecalledIsVisible(levels, committed, k);
    WriteIsCovered(levels, k, change(Recalled(levels, k).value), change);
    TopReplaced(Below(levels), l, committed);
    TopReplaced(Below(levels), Top(levels), committed);
    assert levels == Below(levels) + [Top(levels)];
    forall x ensures Visible(Below(levels) + [l], committed, x) ==
                     Replayed(Lookup(committed, x), Logs(Below(levels) + [l]), x)
    {
      WriteReplays(levels, committed, k, change, l, x);
    }
  }

  /** Merging a block into its parent changes neither what is held, nor what is logged, nor what is seen. */
  lemma {:induction false} MergeLooksTheSame<V(!new)>(levels: seq<Level<V>>, committed: map<Key, V>)
    requires |levels| >= 2
    ensures TransactionLocks(MergedLevels(levels)) == TransactionLocks(levels)
    ensures Logs(MergedLevels(levels)) == Logs(levels)
    ensures forall k :: Visible(MergedLevels(levels), committed, k) == Visible(levels, committed, k)
  {
    var lower := Below(levels);
    assert lower == Below(lower) + [Top(lower)] && levels == lower + [Top(levels)];
    TopReplaced(Below(lower), Merged(Top(lower), Top(levels)), committed);
    TopReplaced(Below(lower), Top(lower), committed);
    TopReplaced(lower, Top(levels), committed);
  }

  lemma {:induction false} MergeIsSound<V(!new)>(levels: seq<Level<V>>, committed: map<Key, V>)
    requires |levels| >= 2 && Covered(levels) && Current(levels, committed)
    ensures Covered(MergedLevels(levels)) && Current(MergedLevels(levels), committed)
    ensures TransactionLocks(MergedLevels(levels)) == TransactionLocks(levels)
  {
    var lower, merged := Below(levels), MergedLevels(levels);
    var m := Merged(Top(lower), Top(levels));
    MergeLooksTheSame(levels, committed);
    TopReplaced(Below(lower), m, committed);
    forall k ensures Logged(m.log, k) ==> k in m.seen {
      if Logged(m.log, k) { LoggedConcat(Top(lower).log, Top(levels).log, k); }
    }
    forall k | k in m.seen ensures m.seen[k] == Visible(merged, committed, k) {
      if k !in Top(levels).seen { assert k !in Top(levels).local; }
    }
  }

  // ---------------------------------------------------------------- every step of every session

  lemma {:induction false} ExclusivePut<V>(s: System<V>, i: nat, session: Session<V>)
    requires i < |s.sessions| && Exclusive(s)
    requires forall k :: Holds(session, k) ==> Holds(s.sessions[i], k) || !HeldElsewhere(s, i, k)
    ensures Exclusive(Put(s, i, session))
  {}

  lemma {:induction false} SoundPut<V(!new)>(s: System<V>, i: nat, session: Session<V>)
    requires i < |s.sessions| && Sound(s)
    requires Covered(session.levels) && Current(session.levels, s.committed)
    ensures Sound(Put(s, i, session))
  {}

  /** A commit publishes only cells its session has locked, so every other view stays in order. */
  lemma {:induction false} CommitIsSound<V(!new)>(s: System<V>, i: nat)
    requires i < |s.sessions| && |s.sessions[i].levels| == 1 && Exclusive(s) && Sound(s)
    ensures Sound(Closed(s, i))
  {
    var t, top := Closed(s, i), Top(s.sessions[i].levels);
    assert forall k :: k in top.local ==> Holds(s.sessions[i], k);
    forall j | 0 <= j < |t.sessions| ensures Covered(t.sessions[j].levels) && Current(t.sessions[j].levels, t.committed) {
      if j != i {
        var levels := s.sessions[j].levels;
        forall k | k in TransactionLocks(levels) ensures Lookup(s.committed, k) == Lookup(t.committed, k) {
          assert Holds(s.sessions[j], k) && !Holds(s.sessions[i], k);
        }
        CommitElsewhere(levels, s.committed, t.committed);
      }
    }
  }

  lemma {:induction false} CommitIsSerial<V(!new)>(s: System<V>, i: nat, cells: map<Key, V>)
    requires i < |s.sessions| && |s.sessions[i].levels| == 1 && Sound(s) && IsSerial(s, cells)
    ensures IsSerial(Closed(s, i), cells)
  {
    var t, levels := Closed(s, i), s.sessions[i].levels;
    var top := Top(levels);
    assert Current(levels, s.committed);
    assert Logs(levels) == top.log by { assert Logs(Below(levels)) == []; }
    assert t.history[..|t.history| - 1] == s.history;
    forall k ensures Lookup(t.committed, k) == Serial(Lookup(cells, k), t.history, k) {
      assert Lookup(t.committed, k) == Visible(levels, s.committed, k) by { assert Below(levels) == []; }
    }
  }

  ghost predicate Kept<V>(s: System<V>, cells: map<Key, V>) { Exclusive(s) && Sound(s) && IsSerial(s, cells) }

  ghost predicate KeepsDiscipline<V>(a: Action<V>) { a.Read? || a.Write? ==> a.scope.InLockedRun? }

  /** The step changed one session only, and left its view in order. */
  ghost predicate OnlySession<V>(s: System<V>, i: nat, t: System<V>) {
    && i < |s.sessions| == |t.sessions|
    && t == Put(s, i, t.sessions[i])
    && Covered(t.sessions[i].levels)
    && Current(t.sessions[i].levels, s.committed)
  }

  lemma {:induction false} EnteringOnSession<V(!new)>(s: System<V>, i: nat, a: Action<V>)
    requires i < |s.sessions| && Sound(s) && (a.Open? || a.TryRun?)
    ensures OnlySession(s, i, Next(s, i, a))
  {
    var me := s.sessions[i];
    assert s == Put(s, i, me);
    if a.Open? {
      OpenedIsSound(me.levels, EmptyLevel(), s.committed);
    } else if me.levels != [] && JustOpened(Top(me.levels)) && !HeldElsewhere(s, i, a.key) {
      OpenedIsSound(Below(me.levels), Top(me.levels).(run := Some(a.key), locks := {a.key}), s.committed);
    }
  }

  lemma {:induction false} ReadingOnSession<V(!new)>(s: System<V>, i: nat, a: Action<V>)
    requires i < |s.sessions| && Sound(s) && a.Read? && a.scope.InLockedRun?
    ensures OnlySession(s, i, Next(s, i, a))
  {
    var me := s.sessions[i];
    assert s == Put(s, i, me);
    if Permits(me, a.key, a.scope) { ReadIsSound(me.levels, s.committed, a.key); }
  }

  lemma {:induction false} WritingOnSession<V(!new)>(s: System<V>, i: nat, a: Action<V>)
    requires i < |s.sessions| && Sound(s) && a.Write? && a.scope.InLockedRun?
    ensures OnlySession(s, i, Next(s, i, a))
  {
    var me := s.sessions[i];
    assert s == Put(s, i, me);
    if Permits(me, a.key, a.scope) && Recalled(me.levels, a.key).Some? { WriteIsSound(me.levels, s.committed, a.key, a.change); }
  }

  lemma {:induction false} MergingOnSession<V(!new)>(s: System<V>, i: nat)
    requires i < |s.sessions| && Sound(s) && |s.sessions[i].levels| != 1
    ensures OnlySession(s, i, Next(s, i, Close))
  {
    var me := s.sessions[i];
    assert s == Put(s, i, me);
    if me.levels != [] { MergeIsSound(me.levels, s.committed); }
  }

  lemma {:induction false} DroppingOnSession<V(!new)>(s: System<V>, i: nat, a: Action<V>)
    requires i < |s.sessions| && Sound(s) && (a.Fail? || a.Disconnect? || a.LockSession? || a.UnlockSession?)
    ensures OnlySession(s, i, Next(s, i, a))
  {
    assert s == Put(s, i, s.sessions[i]);
  }

  /** What an action may do to the session taking it, short of a commit. */
  lemma {:induction false} StepOnSession<V(!new)>(s: System<V>, i: nat, a: Action<V>)
    requires i < |s.sessions| && Sound(s) && KeepsDiscipline(a)
    requires !(a.Close? && |s.sessions[i].levels| == 1)
    ensures OnlySession(s, i, Next(s, i, a))
  {
    match a
    case Open => EnteringOnSession(s, i, a);
    case TryRun(_) => EnteringOnSession(s, i, a);
    case Read(_, _) => ReadingOnSession(s, i, a);
    case Write(_, _, _) => WritingOnSession(s, i, a);
    case Close => MergingOnSession(s, i);
    case _ => DroppingOnSession(s, i, a);
  }

  lemma {:induction false} TryHolds<V(!new)>(s: System<V>, i: nat, x: Key, k: Key)
    requires i < |s.sessions| && Holds(Next(s, i, TryRun(x)).sessions[i], k)
    ensures Holds(s.sessions[i], k) || !HeldElsewhere(s, i, k)
  {
    var me := s.sessions[i];
    if me.levels != [] && JustOpened(Top(me.levels)) && !HeldElsewhere(s, i, x) {
      TopReplaced(Below(me.levels), Top(me.levels).(run := Some(x), locks := {x}), s.committed);
    }
  }

  /** Reading and writing take no lock. */
  lemma {:induction false} BodyHolds<V(!new)>(s: System<V>, i: nat, a: Action<V>)
    requires i < |s.sessions| && (a.Read? || a.Write?)
    ensures TransactionLocks(Next(s, i, a).sessions[i].levels) == TransactionLocks(s.sessions[i].levels)
    ensures Next(s, i, a).sessions[i].held == s.sessions[i].held
  {
    var me := s.sessions[i];
    if a.Read? && Permits(me, a.key, a.scope) {
      SameBelowLocks(me.levels, Noted(Top(me.levels), a.key, Visible(me.levels, s.committed, a.key)), s.committed);
    }
    if a.Write? && Permits(me, a.key, a.scope) && Recalled(me.levels, a.key).Some? {
      SameBelowLocks(me.levels, Wrote(Top(me.levels), a.key, a.change(Recalled(me.levels, a.key).value), a.change), s.committed);
    }
  }

  lemma {:induction false} CloseHolds<V(!new)>(s: System<V>, i: nat)
    requires i < |s.sessions| && Sound(s)
    ensures TransactionLocks(Next(s, i, Close).sessions[i].levels) <= TransactionLocks(s.sessions[i].levels)
    ensures Next(s, i, Close).sessions[i].held == s.sessions[i].held
  {
    var me := s.sessions[i];
    if |me.levels| >= 2 { MergeIsSound(me.levels, s.committed); }
  }

  lemma {:induction false} StepHolds<V(!new)>(s: System<V>, i: nat, a: Action<V>, k: Key)
    requires i < |s.sessions| && Sound(s)
    requires Holds(Next(s, i, a).sessions[i], k)
    ensures Holds(s.sessions[i], k) || !HeldElsewhere(s, i, k)
  {
    match a
    case Open => TopReplaced(s.sessions[i].levels, EmptyLevel(), s.committed);
    case TryRun(x) => TryHolds(s, i, x, k);
    case Read(_, _) => BodyHolds(s, i, a);
    case Write(_, _, _) => BodyHolds(s, i, a);
    case Close => CloseHolds(s, i);
    case _ =>
  }

  lemma {:induction false} SameBelowLocks<V(!new)>(levels: seq<Level<V>>, l: Level<V>, committed: map<Key, V>)
    requires levels != [] && l.locks == Top(levels).locks
    ensures TransactionLocks(Below(levels) + [l]) == TransactionLocks(levels)
  {
    TopReplaced(Below(levels), l, committed);
  }

  /** One step of any session keeps exclusion, every session's view, and serial commits. */
  lemma {:induction false} StepKeeps<V(!new)>(s: System<V>, i: nat, a: Action<V>, cells: map<Key, V>)
    requires Kept(s, cells) && KeepsDiscipline(a)
    ensures Kept(Next(s, i, a), cells)
  {
    if i < |s.sessions| {
      forall k | Holds(Next(s, i, a).sessions[i], k) ensures Holds(s.sessions[i], k) || !HeldElsewhere(s, i, k) {
        StepHolds(s, i, a, k);
      }
      ExclusivePut(s, i, Next(s, i, a).sessions[i]);
      if a.Close? && |s.sessions[i].levels| == 1 {
        CommitIsSound(s, i);
        CommitIsSerial(s, i, cells);
      } else {
        StepOnSession(s, i, a);
        SoundPut(s, i, Next(s, i, a).sessions[i]);
      }
    }
  }

  lemma {:induction false} AlwaysKept<V(!new)>(sessions: nat, cells: map<Key, V>, steps: seq<Step<V>>)
    requires Disciplined(steps)
    ensures Kept(After(Start(sessions, cells), steps), cells)
  {
    if steps != [] {
      var front, last := steps[..|steps| - 1], steps[|steps| - 1];
      assert KeepsDiscipline(steps[|steps| - 1].action);
      assert Disciplined(front) by {
        forall i | 0 <= i < |front|
          ensures front[i].action.Read? || front[i].action.Write? ==> front[i].action.scope.InLockedRun?
        {
          assert front[i] == steps[i];
        }
      }
      AlwaysKept(sessions, cells, front);
      StepKeeps(After(Start(sessions, cells), front), last.session, last.action, cells);
    }
  }

  // ---------------------------------------------------------------- the guarantees

  /** In some block of the session a write of the cell waits to be committed. */
  predicate Uncommitted<V>(levels: seq<Level<V>>, k: Key) {
    levels != [] && (k in Top(levels).local || Uncommitted(Below(levels), k))
  }

  lemma {:induction false} UncommittedIsLocked<V(!new)>(levels: seq<Level<V>>, k: Key)
    requires Covered(levels) && Uncommitted(levels, k)
    ensures k in TransactionLocks(levels)
  {
    if k !in Top(levels).local { UncommittedIsLocked(Below(levels), k); }
  }

  /**
   * In every interleaving, however deep in a caller's transaction the run is nested, a write that
   * is not committed yet is covered by its lock, which no other session holds.
   */
  lemma {:induction false} WritesStayLocked<V(!new)>(
      sessions: nat, cells: map<Key, V>, steps: seq<Step<V>>, i: nat, j: nat, k: Key)
    requires Disciplined(steps)
    requires var s := After(Start(sessions, cells), steps);
             i < |s.sessions| && j < |s.sessions| && i != j && Uncommitted(s.sessions[i].levels, k)
    ensures var s := After(Start(sessions, cells), steps);
            && k in TransactionLocks(s.sessions[i].levels)
            && !Holds(s.sessions[j], k)
            && !Uncommitted(s.sessions[j].levels, k)
  {
    AlwaysKept(sessions, cells, steps);
    var s := After(Start(sessions, cells), steps);
    UncommittedIsLocked(s.sessions[i].levels, k);
    assert Holds(s.sessions[i], k);
    if Uncommitted(s.sessions[j].levels, k) {
      UncommittedIsLocked(s.sessions[j].levels, k);
      assert Holds(s.sessions[j], k);
    }
  }

  /** What is committed is what the committed transactions make, run one whole one after another. */
  lemma {:induction false} CommittedRunsAreSerial<V(!new)>(sessions: nat, cells: map<Key, V>, steps: seq<Step<V>>, k: Key)
    requires Disciplined(steps)
    ensures var s := After(Start(sessions, cells), steps);
            Lookup(s.committed, k) == Serial(Lookup(cells, k), s.history, k)
  {
    AlwaysKept(sessions, cells, steps);
  }

  // ---------------------------------------------------------------- what a run does takes effect

  /** Reading in a run recalls what is visible, and changes nothing that anyone sees. */
  lemma {:induction false} ReadTakesEffect<V(!new)>(s: System<V>, i: nat, k: Key)
    requires i < |s.sessions| && InRun(s.sessions[i].levels, k)
    ensures var t := Next(s, i, Read(k, InLockedRun));
            && t == Put(s, i, t.sessions[i])
            && Recalled(t.sessions[i].levels, k) == Some(Visible(s.sessions[i].levels, s.committed, k))
            && InRun(t.sessions[i].levels, k)
            && Logs(t.sessions[i].levels) == Logs(s.sessions[i].levels)
            && forall x :: Visible(t.sessions[i].levels, t.committed, x) == Visible(s.sessions[i].levels, s.committed, x)
  {
    var levels := s.sessions[i].levels;
    var l := Noted(Top(levels), k, Visible(levels, s.committed, k));
    TopReplaced(Below(levels), l, s.committed);
    TopReplaced(Below(levels), Top(levels), s.committed);
    assert levels == Below(levels) + [Top(levels)];
  }

  /**
   * Writing in a run that has read the cell makes what is visible there what the write makes of it, and
   * leaves every other cell alone; the write is logged, last, and waits to be committed.
   */
  lemma {:induction false} WriteTakesEffect<V(!new)>(s: System<V>, i: nat, k: Key, change: Option<V> -> V)
    requires i < |s.sessions| && Covered(s.sessions[i].levels) && Current(s.sessions[i].levels, s.committed)
    requires InRun(s.sessions[i].levels, k) && Recalled(s.sessions[i].levels, k).Some?
    ensures var t := Next(s, i, Write(k, change, InLockedRun));
            && t == Put(s, i, t.sessions[i])
            && Visible(t.sessions[i].levels, t.committed, k) == Some(change(Visible(s.sessions[i].levels, s.committed, k)))
            && (forall x :: x != k ==>
                  Visible(t.sessions[i].levels, t.committed, x) == Visible(s.sessions[i].levels, s.committed, x))
            && Logs(t.sessions[i].levels) == Logs(s.sessions[i].levels) + [Update(k, change)]
            && Uncommitted(t.sessions[i].levels, k)
  {
    var levels := s.sessions[i].levels;
    var l := Wrote(Top(levels), k, change(Recalled(levels, k).value), change);
    RecalledIsVisible(levels, s.committed, k);
    TopReplaced(Below(levels), l, s.committed);
    TopReplaced(Below(levels), Top(levels), s.committed);
    assert levels == Below(levels) + [Top(levels)];
    LastOfBoth(Logs(Below(levels)), Top(levels).log, Update(k, change));
  }

  /** One whole run of one update: enter, read, write, leave. */
  function LockedRun<V>(s: System<V>, i: nat, k: Key, change: Option<V> -> V): System<V> {
    var entered := Next(Next(s, i, Open), i, TryRun(k));
    Next(Next(Next(entered, i, Read(k, InLockedRun)), i, Write(k, change, InLockedRun)), i, Close)
  }

  function RunLevel<V>(k: Key): Level<V> { Level(Some(k), {k}, map[], map[], []) }

  lemma {:induction false} RunEnters<V>(s: System<V>, i: nat, k: Key)
    requires i < |s.sessions| && !HeldElsewhere(s, i, k)
    ensures Next(Next(s, i, Open), i, TryRun(k)) ==
            Put(s, i, s.sessions[i].(levels := s.sessions[i].levels + [RunLevel(k)]))
  {
    var levels := s.sessions[i].levels;
    var inside := Next(s, i, Open);
    assert (levels + [EmptyLevel()])[..|levels|] == levels;
    assert !HeldElsewhere(inside, i, k) by {
      assert forall j :: 0 <= j < |s.sessions| && j != i ==> inside.sessions[j] == s.sessions[j];
    }
  }

  lemma {:induction false} RunUpdates<V>(s: System<V>, i: nat, k: Key, change: Option<V> -> V)
    requires i < |s.sessions| && s.sessions[i].levels == [RunLevel(k)]
    ensures var v := change(Lookup(s.committed, k));
            Next(Next(s, i, Read(k, InLockedRun)), i, Write(k, change, InLockedRun)) ==
            Put(s, i, s.sessions[i].(levels := [Level(Some(k), {k}, map[k := Some(v)], map[k := v], [Update(k, change)])]))
  {
    var v := change(Lookup(s.committed, k));
    var noted := RunLevel<V>(k).(seen := map[k := Lookup(s.committed, k)]);
    var wrote := Level(Some(k), {k}, map[k := Some(v)], map[k := v], [Update(k, change)]);
    assert Below([RunLevel<V>(k)]) == [] && Below([noted]) == [];
    assert Visible([RunLevel<V>(k)], s.committed, k) == Lookup(s.committed, k);
    assert Noted(RunLevel<V>(k), k, Lookup(s.committed, k)) == noted;
    assert [] + [noted] == [noted];
    assert Next(s, i, Read(k, InLockedRun)) == Put(s, i, s.sessions[i].(levels := [noted]));
    assert noted.seen[k := Some(v)] == map[k := Some(v)];
    assert noted.log + [Update(k, change)] == [Update(k, change)];
    assert [] + [wrote] == [wrote];
  }

  lemma {:induction false} RunCloses<V>(s: System<V>, i: nat, k: Key, v: V, u: Update<V>)
    requires i < |s.sessions| && s.sessions[i].levels == [Level(Some(k), {k}, map[k := Some(v)], map[k := v], [u])]
    ensures Next(s, i, Close) ==
            Put(s, i, s.sessions[i].(levels := [])).(committed := s.committed[k := v], history := s.history + [[u]])
  {
    assert s.committed + map[k := v] == s.committed[k := v];
  }

  /**
   * From any state in which a session has no block open and no other session holds the lock, a whole run
   * commits what its write makes of the committed cell, and nothing else; it leaves every session as it was.
   */
  lemma {:induction false} LockedRunCommits<V>(s: System<V>, i: nat, k: Key, change: Option<V> -> V)
    requires i < |s.sessions| && s.sessions[i].levels == [] && !HeldElsewhere(s, i, k)
    ensures LockedRun(s, i, k, change) ==
            s.(committed := s.committed[k := change(Lookup(s.committed, k))], history := s.history + [[Update(k, change)]])
  {
    var me := s.sessions[i];
    var v := change(Lookup(s.committed, k));
    var entered := Put(s, i, me.(levels := [RunLevel(k)]));
    RunEnters(s, i, k);
    assert [] + [RunLevel<V>(k)] == [RunLevel<V>(k)];
    RunUpdates(entered, i, k, change);
    RunCloses(Next(Next(entered, i, Read(k, InLockedRun)), i, Write(k, change, InLockedRun)), i, k, v, Update(k, change));
    assert s.sessions[i := me] == s.sessions;
  }

  /** A session that goes away commits nothing, and keeps nothing from anyone. */
  lemma {:induction false} DisconnectLosesEverything<V>(s: System<V>, i: nat, j: nat, k: Key)
    requires i < |s.sessions| && j < |s.sessions| && i != j
    ensures var t := Next(s, i, Disconnect);
            && t.committed == s.committed && t.history == s.history
            && t.sessions[i].levels == [] && !Holds(t.sessions[i], k)
            && (forall o :: 0 <= o < |s.sessions| && o != i ==> t.sessions[o] == s.sessions[o])
            && (HeldElsewhere(t, j, k) <==> exists o :: 0 <= o < |s.sessions| && o != i && o != j && Holds(s.sessions[o], k))
  {
    var t := Next(s, i, Disconnect);
    assert forall o :: 0 <= o < |s.sessions| && o != i ==> t.sessions[o] == s.sessions[o];
  }

  // ---------------------------------------------------------------- a lock that ends before the commit

  /** Session `i` is about to leave a block it wrote the cell in under a session lock, inside its caller's transaction. */
  ghost predicate AboutToLeave<V>(s: System<V>, i: nat, key: Key) {
    && i < |s.sessions| && |s.sessions[i].levels| == 2
    && key in s.sessions[i].levels[1].local
    && s.sessions[i].held[key] == 1 && key !in TransactionLocks(s.sessions[i].levels)
    && !HeldElsewhere(s, i, key)
  }

  predicate Idle<V>(s: Session<V>) { s.levels == [] && s.held == multiset{} }

  /** The block closes and the lock is given back. */
  function HandedBack<V>(s: System<V>, i: nat, key: Key): System<V> { Next(Next(s, i, Close), i, UnlockSession(key)) }

  /** One whole run of one update under a session lock. */
  function SessionRun<V>(s: System<V>, i: nat, key: Key, change: Option<V> -> V): System<V> {
    var entered := Next(Next(s, i, LockSession(key)), i, Open);
    var wrote := Next(Next(entered, i, Read(key, UnderSessionLock)), i, Write(key, change, UnderSessionLock));
    HandedBack(wrote, i, key)
  }

  /** The write now waits in the caller's transaction, and no lock covers it. */
  lemma {:induction false} HandedBackWaits<V>(s: System<V>, i: nat, key: Key)
    requires AboutToLeave(s, i, key)
    ensures var t := HandedBack(s, i, key);
            var m := Merged(s.sessions[i].levels[0], s.sessions[i].levels[1]);
            && t == Put(s, i, Session([m], s.sessions[i].held - multiset{key}))
            && Uncommitted(t.sessions[i].levels, key)
            && !Holds(t.sessions[i], key)
  {
    var levels := s.sessions[i].levels;
    var m := Merged(levels[0], levels[1]);
    assert Below(levels) == [levels[0]] && Below([levels[0]]) == [] && [] + [m] == [m];
    assert TransactionLocks([m]) == TransactionLocks(levels) by {
      assert Below([m]) == [];
      assert TransactionLocks(levels) == TransactionLocks([levels[0]]) + levels[1].locks;
    }
  }

  /** Within its block the run updates the cell as it is committed. */
  lemma {:induction false} BlockUpdates<V>(s: System<V>, i: nat, key: Key, change: Option<V> -> V)
    requires i < |s.sessions| && s.sessions[i] == Session([EmptyLevel()], multiset{key})
    ensures var v := change(Lookup(s.committed, key));
            Next(Next(s, i, Read(key, UnderSessionLock)), i, Write(key, change, UnderSessionLock)) ==
            Put(s, i, Session([Level(None, {}, map[key := Some(v)], map[key := v], [Update(key, change)])], multiset{key}))
  {
    var v := change(Lookup(s.committed, key));
    var noted := EmptyLevel<V>().(seen := map[key := Lookup(s.committed, key)]);
    var wrote := Level(None, {}, map[key := Some(v)], map[key := v], [Update(key, change)]);
    assert Below([EmptyLevel<V>()]) == [] && Below([noted]) == [];
    assert Visible([EmptyLevel<V>()], s.committed, key) == Lookup(s.committed, key);
    assert Noted(EmptyLevel<V>(), key, Lookup(s.committed, key)) == noted;
    assert [] + [noted] == [noted];
    assert Next(s, i, Read(key, UnderSessionLock)) == Put(s, i, Session([noted], multiset{key}));
    assert noted.seen[key := Some(v)] == map[key := Some(v)];
    assert noted.log + [Update(key, change)] == [Update(key, change)];
    assert [] + [wrote] == [wrote];
  }

  lemma {:induction false} CommitsAndUnlocks<V>(s: System<V>, i: nat, key: Key, v: V, u: Update<V>)
    requires i < |s.sessions|
    requires s.sessions[i] == Session([Level(None, {}, map[key := Some(v)], map[key := v], [u])], multiset{key})
    ensures HandedBack(s, i, key) ==
            Put(s, i, Session([], multiset{})).(committed := s.committed[key := v], history := s.history + [[u]])
  {
    assert s.committed + map[key := v] == s.committed[key := v];
    assert multiset{key} - multiset{key} == multiset{};
  }

  lemma {:induction false} SessionRunCommits<V>(s: System<V>, i: nat, key: Key, change: Option<V> -> V)
    requires i < |s.sessions| && Idle(s.sessions[i]) && !HeldElsewhere(s, i, key)
    ensures SessionRun(s, i, key, change) ==
            s.(committed := s.committed[key := change(Lookup(s.committed, key))], history := s.history + [[Update(key, change)]])
  {
    var entered := Next(Next(s, i, LockSession(key)), i, Open);
    assert multiset{} + multiset{key} == multiset{key};
    assert entered == Put(s, i, Session([EmptyLevel()], multiset{key})) by {
      assert [] + [EmptyLevel<V>()] == [EmptyLevel<V>()];
    }
    BlockUpdates(entered, i, key, change);
    var wrote := Next(Next(entered, i, Read(key, UnderSessionLock)), i, Write(key, change, UnderSessionLock));
    CommitsAndUnlocks(wrote, i, key, change(Lookup(s.committed, key)), Update(key, change));
    assert s.sessions[i := Session([], multiset{})] == s.sessions;
  }

  /**
   * Guarding the same bodies by a session lock around the block loses an update. From any state in which
   * one session leaves such a block inside its caller's transaction, another can run and commit its own
   * update; the caller's commit then puts the first session's value there whatever that update was, though
   * in the order they committed it comes after it.
   */
  lemma {:induction false} SessionLockLosesAnUpdate<V>(s: System<V>, i: nat, j: nat, key: Key, change: Option<V> -> V)
    requires AboutToLeave(s, i, key) && j < |s.sessions| && j != i && Idle(s.sessions[j])
    ensures var between := SessionRun(HandedBack(s, i, key), j, key, change);
            var end := Next(between, i, Close);
            var log := s.sessions[i].levels[0].log + s.sessions[i].levels[1].log;
            && between.committed == s.committed[key := change(Lookup(s.committed, key))]
            && Lookup(end.committed, key) == Some(s.sessions[i].levels[1].local[key])
            && end.history == s.history + [[Update(key, change)]] + [log]
            && forall v :: Serial(v, end.history, key) == Replayed(Some(change(Serial(v, s.history, key))), log, key)
  {
    var levels := s.sessions[i].levels;
    var m := Merged(levels[0], levels[1]);
    var t := HandedBack(s, i, key);
    HandedBackWaits(s, i, key);
    assert !HeldElsewhere(t, j, key) by {
      forall o | 0 <= o < |t.sessions| && o != j ensures !Holds(t.sessions[o], key) {
        if o != i { assert t.sessions[o] == s.sessions[o] && !Holds(s.sessions[o], key); }
      }
    }
    SessionRunCommits(t, j, key, change);
    forall v ensures Serial(v, s.history + [[Update(key, change)]] + [m.log], key) ==
                     Replayed(Some(change(Serial(v, s.history, key))), m.log, key)
    {
      SerialAppends(v, s.history, Update(key, change), m.log, key);
    }
  }

  lemma {:induction false} SerialAppends<V>(v: Option<V>, history: seq<seq<Update<V>>>, u: Update<V>, log: seq<Update<V>>, k: Key)
    requires u.key == k
    ensures Serial(v, history + [[u]] + [log], k) == Replayed(Some(u.change(Serial(v, history, k))), log, k)
  {
    assert (history + [[u]] + [log])[..|history| + 1] == history + [[u]];
    assert (history + [[u]])[..|history|] == history && [u][..0] == [];
    assert Replayed(Serial(v, history, k), [u], k) == Some(u.change(Replayed(Serial(v, history, k), [], k)));
  }

  // ---------------------------------------------------------------- the context managers

  /** The connections of one database, as the context managers drive them. */
  class Cluster<!V(!new)> {
    var state: System<V>

    constructor (start: System<V>)
      ensures state == start
    {
      state := start;
    }

    predicate Connected(i: nat)
      reads this
    {
      i < |state.sessions|
    }

    method Take(i: nat, a: Action<V>)
      modifies this
      ensures state == Next(old(state), i, a)
    {
      state := Next(state, i, a);
    }

    /** `run_lock`, entering: once acquired no other session can take the lock; denied, nothing has changed. */
    method EnterRunLock(i: nat, key: Key) returns (acquired: bool)
      requires Connected(i)
      modifies this
      ensures acquired <==> !HeldElsewhere(old(state), i, key)
      ensures state == Next(old(state), i, LockSession(key))
      ensures acquired ==> forall j :: j != i ==> HeldElsewhere(state, j, key)
      ensures !acquired ==> state == old(state)
    {
      acquired := !HeldElsewhere(state, i, key);
      ghost var before := state;
      Take(i, LockSession(key));
      if acquired { assert Holds(state.sessions[i], key); }
    }

    /**
     * `run_lock`, leaving: only the holder releases. Given that nobody else held the lock, another session
     * can take it exactly when this hold was the last.
     */
    method ExitRunLock(i: nat, key: Key, acquired: bool)
      requires Connected(i)
      modifies this
      ensures state == if acquired then Next(old(state), i, UnlockSession(key)) else old(state)
      ensures acquired && !HeldElsewhere(old(state), i, key) ==>
                forall j :: j != i ==>
                  (HeldElsewhere(state, j, key) <==>
                   old(state.sessions[i].held[key]) > 1 || key in TransactionLocks(old(state.sessions[i].levels)))
    {
      ghost var before := state;
      if acquired {
        Take(i, UnlockSession(key));
        if !HeldElsewhere(before, i, key) { OnlyHolder(before, state, i, key); }
      }
    }

    /** `locked_run`, entering: opens a block and tries for the lock in it; denied, the block is closed again. */
    method EnterLockedRun(i: nat, key: Key) returns (running: bool)
      requires Connected(i)
      modifies this
      ensures running <==> !HeldElsewhere(old(state), i, key)
      ensures running ==> state == Next(Next(old(state), i, Open), i, TryRun(key))
      ensures running ==> InRun(state.sessions[i].levels, key) && key in TransactionLocks(state.sessions[i].levels)
      ensures !running ==> state == old(state)
    {
      ghost var before := state;
      Take(i, Open);
      OpenChangesNoLocks(before, i, key);
      running := !HeldElsewhere(state, i, key);
      Take(i, TryRun(key));
    }

    /**
     * `locked_run`, leaving. When the body raised, the block is gone with its writes and its locks, and the
     * session is as it was before. When it closes inside another transaction, everything it wrote and every
     * lock it took stays, one block down. When it was the transaction, what it wrote is committed and its
     * locks are free.
     */
    method ExitLockedRun(i: nat, raised: bool)
      requires Connected(i) && state.sessions[i].levels != []
      modifies this
      ensures state == Next(old(state), i, if raised then Fail else Close)
      ensures raised ==> state == Put(old(state), i, old(state.sessions[i]).(levels := Below(old(state.sessions[i].levels))))
      ensures !raised && |old(state.sessions[i].levels)| > 1 ==> StaysBelow(old(state), state, i)
      ensures !raised && |old(state.sessions[i].levels)| == 1 ==> IsPublished(old(state), state, i)
    {
      ghost var before := state;
      Take(i, if raised then Fail else Close);
      if !raised && |before.sessions[i].levels| > 1 { MergeStaysBelow(before, i); }
      if !raised && |before.sessions[i].levels| == 1 { CommitIsPublished(before, i); }
    }
  }

  /** One block fewer, nothing published, and the session sees, holds and has logged what it did. */
  ghost predicate StaysBelow<V(!new)>(was: System<V>, now: System<V>, i: nat) {
    && i < |was.sessions| == |now.sessions|
    && |was.sessions[i].levels| == |now.sessions[i].levels| + 1
    && now.committed == was.committed && now.history == was.history
    && Logs(now.sessions[i].levels) == Logs(was.sessions[i].levels)
    && (forall k :: Visible(now.sessions[i].levels, now.committed, k) == Visible(was.sessions[i].levels, was.committed, k))
    && (forall k :: Uncommitted(was.sessions[i].levels, k) <==> Uncommitted(now.sessions[i].levels, k))
    && (forall k :: Holds(now.sessions[i], k) <==> Holds(was.sessions[i], k))
  }

  /**
   * No block left: all it logged is committed, every other session sees what it saw, and it holds only what
   * it did beyond the transaction.
   */
  ghost predicate IsPublished<V(!new)>(was: System<V>, now: System<V>, i: nat) {
    && i < |was.sessions| == |now.sessions|
    && now.sessions[i].levels == []
    && now.history == was.history + [Logs(was.sessions[i].levels)]
    && (forall k :: Lookup(now.committed, k) == Visible(was.sessions[i].levels, was.committed, k))
    && (forall k :: Holds(now.sessions[i], k) <==> k in was.sessions[i].held)
  }

  lemma {:induction false} MergeStaysBelow<V(!new)>(s: System<V>, i: nat)
    requires i < |s.sessions| && |s.sessions[i].levels| > 1
    ensures StaysBelow(s, Next(s, i, Close), i)
  {
    var levels := s.sessions[i].levels;
    var lower := Below(levels);
    MergeLooksTheSame(levels, s.committed);
    TopReplaced(Below(lower), Merged(Top(lower), Top(levels)), s.committed);
    forall k ensures Uncommitted(levels, k) <==> Uncommitted(MergedLevels(levels), k) {
      assert Uncommitted(levels, k) <==> k in Top(levels).local || k in Top(lower).local || Uncommitted(Below(lower), k);
    }
  }

  lemma {:induction false} CommitIsPublished<V(!new)>(s: System<V>, i: nat)
    requires i < |s.sessions| && |s.sessions[i].levels| == 1
    ensures IsPublished(s, Next(s, i, Close), i)
  {
    var levels := s.sessions[i].levels;
    assert Below(levels) == [] && Logs(Below(levels)) == [];
    assert Logs(levels) == levels[0].log;
  }

  lemma {:induction false} OnlyHolder<V>(s: System<V>, t: System<V>, i: nat, key: Key)
    requires i < |s.sessions| && t == Next(s, i, UnlockSession(key)) && !HeldElsewhere(s, i, key)
    ensures forall j :: j != i ==>
              (HeldElsewhere(t, j, key) <==> s.sessions[i].held[key] > 1 || key in TransactionLocks(s.sessions[i].levels))
  {
    assert t.sessions[i].levels == s.sessions[i].levels;
    assert key in t.sessions[i].held <==> s.sessions[i].held[key] > 1;
    assert Holds(t.sessions[i], key) <==> s.sessions[i].held[key] > 1 || key in TransactionLocks(s.sessions[i].levels);
    assert forall o :: 0 <= o < |s.sessions| && o != i ==> t.sessions[o] == s.sessions[o] && !Holds(s.sessions[o], key);
  }

  lemma {:induction false} OpenChangesNoLocks<V>(s: System<V>, i: nat, key: Key)
    requires i < |s.sessions|
    ensures var t := Next(s, i, Open);
            && (HeldElsewhere(t, i, key) <==> HeldElsewhere(s, i, key))
            && Dropped(t.sessions[i]) == s.sessions[i]
            && Put(t, i, s.sessions[i]) == s
            && (!HeldElsewhere(s, i, key) ==>
                  var run := Next(t, i, TryRun(key));
                  InRun(run.sessions[i].levels, key) && key in TransactionLocks(run.sessions[i].levels))
  {
    var t := Next(s, i, Open);
    var levels := s.sessions[i].levels;
    assert (levels + [EmptyLevel()])[..|levels|] == levels;
    assert forall j :: 0 <= j < |s.sessions| && j != i ==> t.sessions[j] == s.sessions[j];
    assert t.sessions[i := s.sessions[i]] == s.sessions;
    if HeldElsewhere(s, i, key) {
      var j :| 0 <= j < |s.sessions| && j != i && Holds(s.sessions[j], key);
      assert Holds(t.sessions[j], key);
    }
  }

  /**
   * Entering and leaving `run_lock` gives back exactly the session's own locks, whether it was
   * acquired afresh, was held already by the same session, or was denied.
   */
  lemma {:induction false} RunLockBalances<V>(s: System<V>, i: nat, key: Key)
    requires i < |s.sessions|
    ensures var t := Next(s, i, LockSession(key));
            && (!HeldElsewhere(s, i, key) ==> Holds(t.sessions[i], key) && Next(t, i, UnlockSession(key)) == s)
            && (HeldElsewhere(s, i, key) ==> t == s)
  {
    if !HeldElsewhere(s, i, key) {
      var held := s.sessions[i].held;
      assert held + multiset{key} - multiset{key} == held;
      assert s.sessions[i := s.sessions[i]] == s.sessions;
    }
  }
}
