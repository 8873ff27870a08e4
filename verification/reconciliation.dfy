/** One reconciliation pass for one tenant: read both planes, recompute, and rewrite what a run owns. */
module Reconciliation {
  import opened Options
  import opened Sorting
  import opened Indexing
  import opened Texts
  import opened Snapshots
  import opened Matching
  import opened Anchoring
  import opened Diffing
  import opened Tables

  datatype Store = Store(
    declared: seq<DeclaredRow>, active: map<Text, nat>, discovered: seq<DiscoveredRow>,
    matches: seq<MatchRow>, nextMatch: nat, discrepancies: seq<DiscrepancyRow>, nextDiscrepancy: nat)

  // ---------------------------------------------------------------- what a run reads

  predicate OfTenant(r: MatchRow, tenant: Text) { r.anchor.tenant == tenant }
  function HumanOf(tenant: Text): MatchRow -> bool { (r: MatchRow) => IsHuman(r) && OfTenant(r, tenant) }
  function DeclaredIn(tenant: Text, revision: nat): DeclaredRow -> bool {
    (r: DeclaredRow) => r.revision == revision && r.snapshot.key.tenant == tenant
  }
  function PresentFor(tenant: Text): DiscoveredRow -> bool {
    (r: DiscoveredRow) => !r.absent && r.snapshot.key.tenant == tenant
  }
  function DeclaredSnapshot(r: DeclaredRow): Snapshot { r.snapshot }
  function DiscoveredSnapshot(r: DiscoveredRow): Snapshot { r.snapshot }

  /** The active revision's resources; a tenant that never ingested declares nothing. */
  function DeclaredPlane(s: Store, tenant: Text): seq<Snapshot> {
    if tenant in s.active then Keys(Filter(s.declared, DeclaredIn(tenant, s.active[tenant])), DeclaredSnapshot) else []
  }

  /** The discovered plane as it stands, without what is known to be gone. */
  function DiscoveredPlane(s: Store, tenant: Text): seq<Snapshot> {
    Keys(Filter(s.discovered, PresentFor(tenant)), DiscoveredSnapshot)
  }

  function DecisionOf(r: MatchRow): Decision {
    Decision(r.anchor, if r.providerId.Some? then r.providerId.value else [], r.state.Confirmed?)
  }

  function StoredDecisions(rows: seq<MatchRow>, tenant: Text): seq<Decision> {
    Keys(Filter(rows, HumanOf(tenant)), DecisionOf)
  }

  /** The declared plane is the tenant's rows of its active revision, and no other. */
  lemma {:induction false} DeclaredIsTheActiveRevision(s: Store, tenant: Text, d: Snapshot)
    ensures d in DeclaredPlane(s, tenant) <==>
            tenant in s.active && exists r :: r in s.declared && r.revision == s.active[tenant] && r.snapshot == d && d.key.tenant == tenant
  {
    if tenant in s.active {
      KeyedBy(Filter(s.declared, DeclaredIn(tenant, s.active[tenant])), DeclaredSnapshot, d);
    }
  }

  /** The discovered plane is the tenant's rows that are not marked absent, and no other. */
  lemma {:induction false} DiscoveredIsWhatIsPresent(s: Store, tenant: Text, c: Snapshot)
    ensures c in DiscoveredPlane(s, tenant) <==>
            exists r :: r in s.discovered && !r.absent && r.snapshot == c && c.key.tenant == tenant
  {
    KeyedBy(Filter(s.discovered, PresentFor(tenant)), DiscoveredSnapshot, c);
  }

  /** The decisions are the tenant's confirmed and rejected rows, each about its anchor and its provider id. */
  lemma {:induction false} DecisionsAreHumanRows(rows: seq<MatchRow>, tenant: Text, d: Decision)
    requires forall r :: r in rows && IsHuman(r) ==> r.providerId.Some?
    ensures d in StoredDecisions(rows, tenant) <==>
            exists r :: r in rows && r.anchor.tenant == tenant && r.anchor == d.declaredKey && r.providerId == Some(d.providerId) &&
                        r.state == if d.confirmed then MatchState.Confirmed else MatchState.Rejected
  {
    KeyedBy(Filter(rows, HumanOf(tenant)), DecisionOf, d);
    if r :| r in rows && r.anchor.tenant == tenant && r.anchor == d.declaredKey && r.providerId == Some(d.providerId) &&
            r.state == if d.confirmed then MatchState.Confirmed else MatchState.Rejected
    {
      assert r in Filter(rows, HumanOf(tenant)) && DecisionOf(r) == d;
    }
  }

  // ---------------------------------------------------------------- what a run writes

  /** The positions of what is kept, in order. */
  ghost predicate Picks<T(!new)>(was: seq<T>, keep: T -> bool, at: seq<nat>) {
    && (forall i :: 0 <= i < |at| ==> at[i] < |was| && keep(was[at[i]]))
    && (forall i, j :: 0 <= i < j < |at| ==> at[i] < at[j])
    && (forall n :: 0 <= n < |was| && keep(was[n]) ==> n in at)
  }

  /** `now` is `was` without the rows that are not kept: the rest in the order they were in, each as often. */
  ghost predicate KeptInOrder<T(!new)>(was: seq<T>, now: seq<T>, keep: T -> bool) {
    exists at: seq<nat> :: Picks(was, keep, at) && PickedBy(was, now, at)
  }

  ghost predicate PickedBy<T(!new)>(was: seq<T>, now: seq<T>, at: seq<nat>) {
    |at| == |now| && forall i :: 0 <= i < |at| ==> at[i] < |was| && now[i] == was[at[i]]
  }

  lemma {:induction false} OneMorePicked<T(!new)>(front: seq<T>, x: T, keep: T -> bool, at: seq<nat>)
    requires Picks(front, keep, at)
    ensures Picks(front + [x], keep, if keep(x) then at + [|front|] else at)
  {
    var more := if keep(x) then at + [|front|] else at;
    var all := front + [x];
    forall n | 0 <= n < |all| && keep(all[n]) ensures n in more {
      if n < |front| {
        assert all[n] == front[n] && n in at;
      } else {
        assert more[|more| - 1] == n;
      }
    }
    forall i | 0 <= i < |more| ensures more[i] < |all| && keep(all[more[i]]) {
      if i < |at| { assert all[at[i]] == front[at[i]]; }
    }
  }

  lemma {:induction false} OneMorePickedBy<T(!new)>(front: seq<T>, now: seq<T>, x: T, at: seq<nat>)
    requires PickedBy(front, now, at)
    ensures PickedBy(front + [x], now, at) && PickedBy(front + [x], now + [x], at + [|front|])
  {}

  lemma {:induction false} FilteredAt<T(!new)>(xs: seq<T>, keep: T -> bool) returns (at: seq<nat>)
    ensures Picks(xs, keep, at) && PickedBy(xs, Filter(xs, keep), at)
  {
    at := [];
    if xs != [] {
      var front, x := xs[..|xs| - 1], xs[|xs| - 1];
      at := FilteredAt(front, keep);
      OneMorePicked(front, x, keep, at);
      OneMorePickedBy(front, Filter(front, keep), x, at);
      FilterAppend(front, x, keep);
      assert front + [x] == xs;
      at := if keep(x) then at + [|front|] else at;
    }
  }

  lemma {:induction false} FilterKeepsOrder<T(!new)>(xs: seq<T>, keep: T -> bool)
    ensures KeptInOrder(xs, Filter(xs, keep), keep)
  {
    var at := FilteredAt(xs, keep);
  }

  predicate Anchored(p: Present, r: MatchRow) { r.anchor in p.keys && r.providerId in p.providers }

  function KeptByReset(tenant: Text): MatchRow -> bool {
    (r: MatchRow) => !(r.state.Proposed? && OfTenant(r, tenant))
  }

  function RetireWith(tenant: Text, p: Present, now: int): MatchRow -> MatchRow {
    (r: MatchRow) =>
      if IsHuman(r) && OfTenant(r, tenant) && !Anchored(p, r)
      then r.(state := MatchState.Invalidated, invalidatedAt := Some(now))
      else r
  }

  /** The match table after `_reset` and `_invalidate_unanchored`. */
  function Cleared(rows: seq<MatchRow>, tenant: Text, p: Present, now: int): seq<MatchRow> {
    Keys(Filter(rows, KeptByReset(tenant)), RetireWith(tenant, p, now))
  }

  function Decided(rows: seq<MatchRow>, tenant: Text): set<NaturalKey> {
    set r | r in rows && IsActive(r) && OfTenant(r, tenant) :: r.anchor
  }

  function Undecided(decided: set<NaturalKey>): Pair -> bool { (p: Pair) => p.declared.key !in decided }

  function ProposalAt(pk: nat, p: Pair): MatchRow {
    MatchRow(pk, p.declared.key, p.discovered.providerId, p.strategy, Proposed, None)
  }

  function Proposals(pairs: seq<Pair>, next: nat): (rows: seq<MatchRow>)
    ensures |rows| == |pairs| && forall i :: 0 <= i < |pairs| ==> rows[i] == ProposalAt(next + i, pairs[i])
  {
    seq(|pairs|, i requires 0 <= i < |pairs| => ProposalAt(next + i, pairs[i]))
  }

  /** One insert; None is the integrity error of an active-match index. */
  function InsertedRow(rows: seq<MatchRow>, row: MatchRow): Option<seq<MatchRow>> {
    if Collides(rows, row) then None else Some(rows + [row])
  }

  /** Inserting the proposals one by one, unless an index refuses one of them. */
  function Inserted(rows: seq<MatchRow>, next: nat, pairs: seq<Pair>): Option<seq<MatchRow>> {
    if pairs == [] then Some(rows)
    else
      match Inserted(rows, next, pairs[..|pairs| - 1])
      case None => None
      case Some(written) => InsertedRow(written, ProposalAt(next + |pairs| - 1, pairs[|pairs| - 1]))
  }

  function KeptDiscrepancy(tenant: Text): DiscrepancyRow -> bool {
    (r: DiscrepancyRow) => !(r.state.Open? && r.key.tenant == tenant)
  }

  function FindingAt(pk: nat, d: FieldDiscrepancy): DiscrepancyRow {
    DiscrepancyRow(pk, d.key, OnField(d.field, d.declared, d.discovered, d.outcome), Open)
  }
  function OrphanAt(pk: nat, o: OrphanDiscrepancy): DiscrepancyRow {
    DiscrepancyRow(pk, o.key, OnOrphan(o.kind), Open)
  }

  function Reports(found: DiscrepancySet, next: nat): (rows: seq<DiscrepancyRow>)
    ensures |rows| == |found.fields| + |found.orphans|
  {
    seq(|found.fields|, i requires 0 <= i < |found.fields| => FindingAt(next + i, found.fields[i])) +
    seq(|found.orphans|, i requires 0 <= i < |found.orphans| => OrphanAt(next + |found.fields| + i, found.orphans[i]))
  }

  // ---------------------------------------------------------------- the run

  ghost predicate ResourcesAdmitted(s: Store) {
    && (forall r :: r in s.declared ==> Admitted(r.snapshot))
    && (forall r :: r in s.discovered ==> Admitted(r.snapshot))
  }

  /** What the run computes before it writes: nothing when the matcher or the differ refuses. */
  function Computed(s: Store, tenant: Text, judge: Judge): Option<Computation> {
    ComputedFrom(MatchNow(s, tenant), judge)
  }

  /** The matcher on the planes and the decisions as they stand. */
  function MatchNow(s: Store, tenant: Text): Outcome {
    Match(DeclaredPlane(s, tenant), DiscoveredPlane(s, tenant), StoredDecisions(s.matches, tenant))
  }

  datatype Computation = Computation(result: MatchResult, found: DiscrepancySet)

  function ComputedFrom(matched: Outcome, judge: Judge): Option<Computation> {
    match matched
    case Refused(_) => None
    case Matched(result) =>
      match Reconciled(result, judge)
      case None => None
      case Some(found) => Some(Computation(result, found))
  }

  datatype MatchTable = MatchTable(rows: seq<MatchRow>, next: nat)

  /** The match table once the pairs are written, or None when an index refuses a row. */
  function Rewritten(rows: seq<MatchRow>, next: nat, tenant: Text, present: Present, now: int, pairs: seq<Pair>)
    : Option<MatchTable>
  {
    var cleared := Cleared(rows, tenant, present, now);
    var pending := Filter(pairs, Undecided(Decided(cleared, tenant)));
    match Inserted(cleared, next, pending)
    case None => None
    case Some(written) => Some(MatchTable(written, next + |pending|))
  }

  function Written(s: Store, tenant: Text, table: MatchTable, found: DiscrepancySet): Store {
    s.(matches := table.rows, nextMatch := table.next,
       discrepancies := Filter(s.discrepancies, KeptDiscrepancy(tenant)) + Reports(found, s.nextDiscrepancy),
       nextDiscrepancy := s.nextDiscrepancy + |found.fields| + |found.orphans|)
  }

  /** What the run writes once it has computed. */
  function Applied(s: Store, tenant: Text, result: MatchResult, found: DiscrepancySet, now: int): Option<Store> {
    var present := PresentIn(DeclaredPlane(s, tenant), DiscoveredPlane(s, tenant));
    match Rewritten(s.matches, s.nextMatch, tenant, present, now, result.pairs)
    case None => None
    case Some(table) => Some(Written(s, tenant, table, found))
  }

  /** The state a run commits, or None when it raises and its transaction is rolled back. */
  function Run(s: Store, tenant: Text, judge: Judge, now: int): Option<Store> {
    match Computed(s, tenant, judge)
    case None => None
    case Some(c) => Applied(s, tenant, c.result, c.found, now)
  }

  lemma {:induction false} PlanesComeFromRows(s: Store, tenant: Text)
    ensures forall d :: d in DeclaredPlane(s, tenant) ==> exists r :: r in s.declared && r.snapshot == d
    ensures forall c :: c in DiscoveredPlane(s, tenant) ==> exists r :: r in s.discovered && r.snapshot == c
  {
    if tenant in s.active {
      var rows := Filter(s.declared, DeclaredIn(tenant, s.active[tenant]));
      forall d | d in DeclaredPlane(s, tenant) ensures exists r :: r in s.declared && r.snapshot == d {
        KeyedBy(rows, DeclaredSnapshot, d);
      }
    }
    var rows := Filter(s.discovered, PresentFor(tenant));
    forall c | c in DiscoveredPlane(s, tenant) ensures exists r :: r in s.discovered && r.snapshot == c {
      KeyedBy(rows, DiscoveredSnapshot, c);
    }
  }

  lemma {:induction false} MatchedPairsComeFromPlanes(
      declared: seq<Snapshot>, discovered: seq<Snapshot>, decisions: seq<Decision>)
    requires Match(declared, discovered, decisions).Matched?
    ensures forall p :: p in MatchedResult(declared, discovered, decisions).pairs ==>
              p.declared in declared && p.discovered in discovered
  {
    RefusedExactlyWhenAmbiguous(declared, discovered, decisions);
    forall p | p in MatchedResult(declared, discovered, decisions).pairs
      ensures p.declared in declared && p.discovered in discovered
    {
      PairsCharacterized(declared, discovered, decisions, p);
    }
  }

  lemma {:induction false} PlanesAdmitted(s: Store, tenant: Text)
    requires ResourcesAdmitted(s)
    ensures forall d :: d in DeclaredPlane(s, tenant) ==> Admitted(d)
    ensures forall c :: c in DiscoveredPlane(s, tenant) ==> Admitted(c)
  {
    PlanesComeFromRows(s, tenant);
  }

  lemma {:induction false} AdmittedIsNamed(p: Pair)
    requires AdmittedPair(p)
    ensures Named(p)
  {}

  lemma {:induction false} PairsAreNamed(s: Store, tenant: Text)
    requires ResourcesAdmitted(s)
    ensures var m := MatchNow(s, tenant);
            m.Matched? ==>
              && NamedPairs(m.result.pairs)
              && NamedPairs(SortedPairs(m.result.pairs))
              && forall p :: p in m.result.pairs ==> AdmittedPair(p)
  {
    var m := MatchNow(s, tenant);
    if m.Matched? {
      MatchedPairsComeFromPlanes(DeclaredPlane(s, tenant), DiscoveredPlane(s, tenant), StoredDecisions(s.matches, tenant));
      PlanesAdmitted(s, tenant);
      SortByKeepsElements(m.result.pairs, DeclaredKeyOf, KeyLe);
      forall p | p in m.result.pairs ensures AdmittedPair(p) && Named(p) {
        AdmittedIsNamed(p);
      }
    }
  }

  // ---------------------------------------------------------------- the steps, on the stored rows

  class Estate {
    var declared: seq<DeclaredRow>
    var active: map<Text, nat>
    var discovered: seq<DiscoveredRow>
    var matches: seq<MatchRow>
    var nextMatch: nat
    var discrepancies: seq<DiscrepancyRow>
    var nextDiscrepancy: nat

    constructor (s: Store)
      ensures Current() == s
    {
      declared, active, discovered := s.declared, s.active, s.discovered;
      matches, nextMatch := s.matches, s.nextMatch;
      discrepancies, nextDiscrepancy := s.discrepancies, s.nextDiscrepancy;
    }

    function Current(): Store
      reads this
    {
      Store(declared, active, discovered, matches, nextMatch, discrepancies, nextDiscrepancy)
    }

    /** `_stored_decisions`: the standing human decisions, rows of other states left aside. */
    method ReadDecisions(tenant: Text) returns (decisions: seq<Decision>)
      ensures decisions == StoredDecisions(matches, tenant)
    {
      decisions := [];
      for i := 0 to |matches|
        invariant decisions == StoredDecisions(matches[..i], tenant)
      {
        assert matches[..i + 1] == matches[..i] + [matches[i]];
        FilterAppend(matches[..i], matches[i], HumanOf(tenant));
        if IsHuman(matches[i]) && OfTenant(matches[i], tenant) {
          KeysAppend(Filter(matches[..i], HumanOf(tenant)), matches[i], DecisionOf);
          decisions := decisions + [DecisionOf(matches[i])];
        }
      }
      assert matches[..|matches|] == matches;
    }

    /**
     * `_reset`: drops this tenant's proposals and open discrepancies, and nothing a human wrote. What is
     * kept stays in its order.
     */
    method Reset(tenant: Text)
      modifies this`matches, this`discrepancies
      ensures matches == Filter(old(matches), KeptByReset(tenant))
      ensures discrepancies == Filter(old(discrepancies), KeptDiscrepancy(tenant))
      ensures KeptInOrder(old(matches), matches, KeptByReset(tenant))
      ensures KeptInOrder(old(discrepancies), discrepancies, KeptDiscrepancy(tenant))
    {
      FilterKeepsOrder(matches, KeptByReset(tenant));
      FilterKeepsOrder(discrepancies, KeptDiscrepancy(tenant));
      matches := Filter(matches, KeptByReset(tenant));
      discrepancies := Filter(discrepancies, KeptDiscrepancy(tenant));
    }

    /** `_invalidate_unanchored`: closes each human decision one of whose sides is gone. */
    method InvalidateUnanchored(tenant: Text, present: Present, now: int)
      modifies this`matches
      ensures matches == Keys(old(matches), RetireWith(tenant, present, now))
    {
      var rows := matches;
      for i := 0 to |rows|
        invariant |matches| == |rows|
        invariant matches[..i] == Keys(rows[..i], RetireWith(tenant, present, now))
        invariant matches[i..] == rows[i..]
      {
        var row := matches[i];
        assert row == rows[i] by { assert matches[i..][0] == rows[i..][0]; }
        assert rows[..i + 1] == rows[..i] + [rows[i]];
        KeysAppend(rows[..i], rows[i], RetireWith(tenant, present, now));
        ghost var before := matches;
        if IsHuman(row) && OfTenant(row, tenant) && !Anchored(present, row) {
          matches := matches[i := row.(state := MatchState.Invalidated, invalidatedAt := Some(now))];
        }
        assert matches[..i + 1] == before[..i] + [matches[i]];
        assert matches[i + 1..] == before[i..][1..] == rows[i + 1..];
      }
      assert matches[..|rows|] == matches && rows[..|rows|] == rows;
    }

    /** The insert of one proposal; False is the integrity error of an active-match index. */
    method CreateMatch(pair: Pair) returns (accepted: bool)
      modifies this`matches, this`nextMatch
      ensures accepted <==> InsertedRow(old(matches), ProposalAt(old(nextMatch), pair)).Some?
      ensures accepted ==> InsertedRow(old(matches), ProposalAt(old(nextMatch), pair)) == Some(matches)
      ensures accepted ==> nextMatch == old(nextMatch) + 1
      ensures !accepted ==> matches == old(matches) && nextMatch == old(nextMatch)
    {
      var row := ProposalAt(nextMatch, pair);
      accepted := !Collides(matches, row);
      if accepted {
        matches := matches + [row];
        nextMatch := nextMatch + 1;
      }
    }

    /** `_write_matches`: a proposal for every pair whose declared side has no live row. */
    method WriteMatches(tenant: Text, pairs: seq<Pair>) returns (accepted: bool)
      modifies this`matches, this`nextMatch
      ensures var pending := Filter(pairs, Undecided(Decided(old(matches), tenant)));
              && (accepted <==> Inserted(old(matches), old(nextMatch), pending).Some?)
              && (accepted ==> Some(matches) == Inserted(old(matches), old(nextMatch), pending))
              && (accepted ==> nextMatch == old(nextMatch) + |pending|)
    {
      accepted := WriteUndecided(Decided(matches, tenant), pairs);
    }

    method WriteUndecided(decided: set<NaturalKey>, pairs: seq<Pair>) returns (accepted: bool)
      modifies this`matches, this`nextMatch
      ensures accepted <==> Inserted(old(matches), old(nextMatch), Filter(pairs, Undecided(decided))).Some?
      ensures accepted ==> Some(matches) == Inserted(old(matches), old(nextMatch), Filter(pairs, Undecided(decided)))
      ensures accepted ==> nextMatch == old(nextMatch) + |Filter(pairs, Undecided(decided))|
    {
      ghost var rows, next, done := matches, nextMatch, [];
      for i := 0 to |pairs|
        invariant done == Filter(pairs[..i], Undecided(decided))
        invariant Inserted(rows, next, done) == Some(matches)
        invariant nextMatch == next + |done|
      {
        FilterStep(pairs, i, Undecided(decided));
        if pairs[i].declared.key in decided {
          continue;
        }
        InsertedThen(rows, next, done, pairs[i], matches);
        done := done + [pairs[i]];
        assert Filter(pairs[..i + 1], Undecided(decided)) == done;
        var ok := CreateMatch(pairs[i]);
        if !ok {
          InsertedPrefix(rows, next, pairs, i + 1, Undecided(decided));
          return false;
        }
      }
      assert pairs[..|pairs|] == pairs;
      return true;
    }

    /** `_write_discrepancies`: one open row for each difference, fields before orphans. */
    method WriteDiscrepancies(found: DiscrepancySet)
      modifies this`discrepancies, this`nextDiscrepancy
      ensures discrepancies == old(discrepancies) + Reports(found, old(nextDiscrepancy))
      ensures nextDiscrepancy == old(nextDiscrepancy) + |found.fields| + |found.orphans|
    {
      ghost var rows, reports := discrepancies, Reports(found, nextDiscrepancy);
      ghost var next := nextDiscrepancy;
      for i := 0 to |found.fields|
        invariant nextDiscrepancy == next + i
        invariant discrepancies == rows + reports[..i]
      {
        assert reports[..i + 1] == reports[..i] + [FindingAt(next + i, found.fields[i])];
        discrepancies := discrepancies + [FindingAt(nextDiscrepancy, found.fields[i])];
        nextDiscrepancy := nextDiscrepancy + 1;
      }
      for i := 0 to |found.orphans|
        invariant nextDiscrepancy == next + |found.fields| + i
        invariant discrepancies == rows + reports[..|found.fields| + i]
      {
        assert reports[..|found.fields| + i + 1] ==
               reports[..|found.fields| + i] + [OrphanAt(next + |found.fields| + i, found.orphans[i])];
        discrepancies := discrepancies + [OrphanAt(nextDiscrepancy, found.orphans[i])];
        nextDiscrepancy := nextDiscrepancy + 1;
      }
      assert reports[..|reports|] == reports;
    }

    /** What a run clears before it writes. */
    method Clear(tenant: Text, present: Present, now: int)
      modifies this`matches, this`discrepancies
      ensures matches == Cleared(old(matches), tenant, present, now)
      ensures discrepancies == Filter(old(discrepancies), KeptDiscrepancy(tenant))
    {
      Reset(tenant);
      InvalidateUnanchored(tenant, present, now);
    }

    /** The writing half of a run, undone as a whole when an insert is refused. */
    method Apply(tenant: Text, pairs: seq<Pair>, found: DiscrepancySet, present: Present, now: int)
      returns (accepted: bool)
      modifies this`matches, this`nextMatch, this`discrepancies, this`nextDiscrepancy
      ensures accepted <==> Rewritten(old(matches), old(nextMatch), tenant, present, now, pairs).Some?
      ensures accepted ==> Rewritten(old(matches), old(nextMatch), tenant, present, now, pairs) == Some(MatchTable(matches, nextMatch))
      ensures Current() == if accepted then Written(old(Current()), tenant, MatchTable(matches, nextMatch), found) else old(Current())
    {
      var savedMatches, savedNext, savedDiscrepancies := matches, nextMatch, discrepancies;
      Clear(tenant, present, now);
      ghost var pending := Filter(pairs, Undecided(Decided(matches, tenant)));
      accepted := WriteMatches(tenant, pairs);
      if !accepted {
        matches, nextMatch, discrepancies := savedMatches, savedNext, savedDiscrepancies;
        return;
      }
      RewrittenIs(old(matches), old(nextMatch), tenant, present, now, pairs, pending, MatchTable(matches, nextMatch));
      WriteDiscrepancies(found);
    }

    /** The reading half of a run: match the planes under the stored decisions, then compare what was paired. */
    method Compute(tenant: Text, judge: Judge) returns (computed: Option<Computation>)
      requires ResourcesAdmitted(Current())
      ensures computed == Computed(Current(), tenant, judge)
    {
      var decisions := ReadDecisions(tenant);
      var matched := MatchResources(DeclaredPlane(Current(), tenant), DiscoveredPlane(Current(), tenant), decisions);
      if matched.Refused? { return None; }
      PairsAreNamed(Current(), tenant);
      var found := Reconcile(matched.result, judge);
      computed := if found == None then None else Some(Computation(matched.result, found.value));
    }

    /** `_reconcile_once`, with the rollback its transaction gives it when any step raises. */
    method ReconcileOnce(tenant: Text, judge: Judge, now: int) returns (completed: bool)
      requires ResourcesAdmitted(Current())
      modifies this`matches, this`nextMatch, this`discrepancies, this`nextDiscrepancy
      ensures completed <==> Run(old(Current()), tenant, judge, now).Some?
      ensures Current() == if completed then Run(old(Current()), tenant, judge, now).value else old(Current())
    {
      ghost var start := Current();
      var computed := Compute(tenant, judge);
      if computed == None { return false; }
      var Computation(result, found) := computed.value;
      var present := PresentIn(DeclaredPlane(Current(), tenant), DiscoveredPlane(Current(), tenant));
      completed := Apply(tenant, result.pairs, found, present, now);
    }
  }

  lemma {:induction false} RewrittenIs(
      rows: seq<MatchRow>, next: nat, tenant: Text, present: Present, now: int, pairs: seq<Pair>, pending: seq<Pair>,
      table: MatchTable)
    requires pending == Filter(pairs, Undecided(Decided(Cleared(rows, tenant, present, now), tenant)))
    requires Inserted(Cleared(rows, tenant, present, now), next, pending) == Some(table.rows)
    requires table == MatchTable(table.rows, next + |pending|)
    ensures Rewritten(rows, next, tenant, present, now, pairs) == Some(table)
  {}

  lemma {:induction false} InsertedStep(rows: seq<MatchRow>, next: nat, pairs: seq<Pair>, p: Pair)
    ensures Inserted(rows, next, pairs + [p]) ==
            match Inserted(rows, next, pairs)
            case None => None
            case Some(written) => InsertedRow(written, ProposalAt(next + |pairs|, p))
  {
    assert (pairs + [p])[..|pairs|] == pairs;
  }

  lemma {:induction false} InsertedThen(rows: seq<MatchRow>, next: nat, pairs: seq<Pair>, p: Pair, written: seq<MatchRow>)
    requires Inserted(rows, next, pairs) == Some(written)
    ensures Inserted(rows, next, pairs + [p]) == InsertedRow(written, ProposalAt(next + |pairs|, p))
  {
    InsertedStep(rows, next, pairs, p);
  }

  /** Once an insert is refused, nothing after it changes the verdict. */
  lemma {:induction false} InsertedPrefix(rows: seq<MatchRow>, next: nat, pairs: seq<Pair>, i: nat, keep: Pair -> bool)
    requires i <= |pairs| && Inserted(rows, next, Filter(pairs[..i], keep)) == None
    ensures Inserted(rows, next, Filter(pairs, keep)) == None
    decreases |pairs| - i
  {
    if i == |pairs| {
      assert pairs[..i] == pairs;
    } else {
      FilterStep(pairs, i, keep);
      InsertedStep(rows, next, Filter(pairs[..i], keep), pairs[i]);
      InsertedPrefix(rows, next, pairs, i + 1, keep);
    }
  }
}
