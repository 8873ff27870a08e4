/** What the match table says after a run, and what became of every row it held before. */
module Outcomes {
  import opened Options
  import opened Sorting
  import opened Indexing
  import opened Texts
  import opened Snapshots
  import opened Matching
  import opened Diffing
  import opened Tables
  import opened Anchoring
  import opened Reconciliation
  import opened Runs

  // ---------------------------------------------------------------- live rows are the pairs

  /** What a live row says: the two sides it joins, and whether a human joined them. */
  datatype Face = Face(anchor: NaturalKey, providerId: Option<Text>, confirmed: bool)

  function FaceOf(r: MatchRow): Face { Face(r.anchor, r.providerId, r.state.Confirmed?) }
  function FaceOfPair(p: Pair): Face { Face(p.declared.key, p.discovered.providerId, p.strategy == Binding) }
  function ActiveOf(tenant: Text): MatchRow -> bool { (r: MatchRow) => IsActive(r) && OfTenant(r, tenant) }
  function FaceKey(f: Face): NaturalKey { f.anchor }

  lemma {:induction false} LiveAnchorsDistinct(rows: seq<MatchRow>, next: nat, tenant: Text)
    requires Indexed(rows, next)
    ensures NoRepeats(Keys(Keys(Filter(rows, ActiveOf(tenant)), FaceOf), FaceKey))
  {
    FilterAll(rows, Always);
    assert Keys(Filter(rows, Always), Itself) == rows;
    ViewKeepsNoRepeats(rows, Always, Itself, ActiveOf(tenant), AnchorOf, IsActive, AnchorOf);
    assert Keys(Keys(Filter(rows, ActiveOf(tenant)), FaceOf), FaceKey) == Keys(Filter(rows, ActiveOf(tenant)), AnchorOf);
  }

  lemma {:induction false} PairFacesDistinct(s: Store, tenant: Text)
    requires WellKept(s) && ProvidersDistinct(s, tenant)
    ensures NoRepeats(Keys(Keys(Result(s, tenant).pairs, FaceOfPair), FaceKey))
  {
    PairKeysDistinct(s, tenant);
    assert Keys(Keys(Result(s, tenant).pairs, FaceOfPair), FaceKey) == Keys(Result(s, tenant).pairs, DeclaredKeyOf);
  }

  lemma {:induction false} ProposalFrom(pairs: seq<Pair>, next: nat, r: MatchRow) returns (i: nat)
    requires r in Proposals(pairs, next)
    ensures i < |pairs| && r == ProposalAt(next + i, pairs[i]) && pairs[i] in pairs
  {
    i :| 0 <= i < |pairs| && Proposals(pairs, next)[i] == r;
  }

  lemma {:induction false} LiveRowHasItsPair(s: Store, tenant: Text, now: int, r: MatchRow)
    requires WellKept(s) && ProvidersDistinct(s, tenant)
    requires r in MatchesAfter(s, tenant, now) && ActiveOf(tenant)(r)
    ensures exists p :: p in Result(s, tenant).pairs && FaceOfPair(p) == FaceOf(r)
  {
    if r in ClearedMatches(s, tenant, now) {
      var p := LiveRowIsPaired(s, tenant, now, r);
    } else {
      var i := ProposalFrom(Pending(s, tenant, now), s.nextMatch, r);
      PendingArePairs(s, tenant, now);
      DecidedExactlyBound(s, tenant, now, Pending(s, tenant, now)[i]);
    }
  }

  lemma {:induction false} BoundPairKeepsItsRow(s: Store, tenant: Text, now: int, p: Pair) returns (r: MatchRow)
    requires WellKept(s) && ProvidersDistinct(s, tenant) && p in Result(s, tenant).pairs && p.strategy == Binding
    ensures r in s.matches && r in ClearedMatches(s, tenant, now) && ActiveOf(tenant)(r) && FaceOf(r) == FaceOfPair(p)
  {
    PairsComeFromPlanes(s, tenant);
    PlaneTenants(s, tenant);
    BindingsAreConfirmations(s, tenant, p);
    r :| r in s.matches && Confirms(r, p);
    AnchorsPresent(s, tenant, r);
    ClearedActive(s.matches, tenant, PresentNow(s, tenant), now, r);
  }

  lemma {:induction false} NaturalPairGetsItsRow(s: Store, tenant: Text, now: int, p: Pair)
    requires WellKept(s) && ProvidersDistinct(s, tenant) && p in Result(s, tenant).pairs && p.strategy != Binding
    ensures exists r :: r in MatchesAfter(s, tenant, now) && ActiveOf(tenant)(r) && FaceOf(r) == FaceOfPair(p)
  {
    DecidedExactlyBound(s, tenant, now, p);
    PendingArePairs(s, tenant, now);
    var r := ProposedRow(ClearedMatches(s, tenant, now), Pending(s, tenant, now), s.nextMatch, p);
    assert OfTenant(r, tenant);
  }

  lemma {:induction false} ProposedRow(rows: seq<MatchRow>, pending: seq<Pair>, next: nat, p: Pair) returns (r: MatchRow)
    requires p in pending && p.strategy != Binding
    ensures r in rows + Proposals(pending, next) && r.state.Proposed? && r.anchor == p.declared.key && FaceOf(r) == FaceOfPair(p)
  {
    var i :| 0 <= i < |pending| && pending[i] == p;
    r := Proposals(pending, next)[i];
    assert r in Proposals(pending, next);
  }

  lemma {:induction false} PairHasItsLiveRow(s: Store, tenant: Text, now: int, p: Pair)
    requires WellKept(s) && ProvidersDistinct(s, tenant) && p in Result(s, tenant).pairs
    ensures exists r :: r in MatchesAfter(s, tenant, now) && ActiveOf(tenant)(r) && FaceOf(r) == FaceOfPair(p)
  {
    if p.strategy == Binding {
      var r := BoundPairKeepsItsRow(s, tenant, now, p);
      assert r in MatchesAfter(s, tenant, now);
    } else {
      NaturalPairGetsItsRow(s, tenant, now, p);
    }
  }

  lemma {:induction false} SameFaces(s: Store, tenant: Text, now: int, f: Face)
    requires WellKept(s) && ProvidersDistinct(s, tenant)
    ensures f in Keys(Filter(MatchesAfter(s, tenant, now), ActiveOf(tenant)), FaceOf) <==>
            f in Keys(Result(s, tenant).pairs, FaceOfPair)
  {
    var live := Filter(MatchesAfter(s, tenant, now), ActiveOf(tenant));
    KeyedBy(live, FaceOf, f);
    KeyedBy(Result(s, tenant).pairs, FaceOfPair, f);
    if r :| r in live && FaceOf(r) == f { LiveRowHasItsPair(s, tenant, now, r); }
    if p :| p in Result(s, tenant).pairs && FaceOfPair(p) == f { PairHasItsLiveRow(s, tenant, now, p); }
  }

  /**
   * After a run the tenant's live rows are the matcher's pairs, each exactly once: a confirmed row
   * for every bound pair and a proposal for every natural one.
   */
  lemma {:induction false} LiveRowsAreThePairs(s: Store, tenant: Text, judge: Judge, now: int)
    requires WellKept(s) && Run(s, tenant, judge, now).Some?
    ensures multiset(Keys(Filter(Run(s, tenant, judge, now).value.matches, ActiveOf(tenant)), FaceOf)) ==
            multiset(Keys(Result(s, tenant).pairs, FaceOfPair))
  {
    RunCompletesExactly(s, tenant, judge, now);
    var live := Filter(MatchesAfter(s, tenant, now), ActiveOf(tenant));
    var faces, pairFaces := Keys(live, FaceOf), Keys(Result(s, tenant).pairs, FaceOfPair);
    LiveAnchorsDistinct(MatchesAfter(s, tenant, now), Run(s, tenant, judge, now).value.nextMatch, tenant);
    PairFacesDistinct(s, tenant);
    ElementsFromKeys(faces, FaceKey);
    ElementsFromKeys(pairFaces, FaceKey);
    forall f ensures f in faces <==> f in pairFaces { SameFaces(s, tenant, now, f); }
    NoRepeatsMultiset(faces, pairFaces);
  }

  // ---------------------------------------------------------------- what became of each row

  /** The row a run leaves of one it found, or None if it deletes it. */
  function Fate(s: Store, tenant: Text, now: int, r: MatchRow): Option<MatchRow> {
    if !OfTenant(r, tenant) || r.state.Invalidated? then Some(r)
    else if r.state.Proposed? then None
    else if Anchored(PresentNow(s, tenant), r) then Some(r)
    else Some(r.(state := MatchState.Invalidated, invalidatedAt := Some(now)))
  }

  lemma {:induction false} KeptRowIsThere(s: Store, tenant: Text, now: int, r: MatchRow)
    requires r in s.matches && Fate(s, tenant, now, r).Some?
    ensures Fate(s, tenant, now, r).value in MatchesAfter(s, tenant, now)
  {
    var kept := RetireWith(tenant, PresentNow(s, tenant), now)(r);
    assert KeptByReset(tenant)(r) && kept == Fate(s, tenant, now, r).value;
    ClearedFrom(s.matches, tenant, PresentNow(s, tenant), now, kept);
  }

  lemma {:induction false} ClearedRowFrom(rows: seq<MatchRow>, tenant: Text, p: Present, now: int, q: MatchRow) returns (x: MatchRow)
    requires q in Cleared(rows, tenant, p, now)
    ensures x in rows && KeptByReset(tenant)(x) && RetireWith(tenant, p, now)(x) == q && x.pk == q.pk
  {
    ClearedFrom(rows, tenant, p, now, q);
    x :| x in rows && KeptByReset(tenant)(x) && RetireWith(tenant, p, now)(x) == q;
  }

  lemma {:induction false} DroppedRowIsGone(s: Store, tenant: Text, now: int, r: MatchRow, q: MatchRow)
    requires NoRepeats(Keys(s.matches, PkOf)) && r.pk < s.nextMatch
    requires r in s.matches && Fate(s, tenant, now, r) == None && q in MatchesAfter(s, tenant, now)
    ensures q.pk != r.pk
  {
    if q in ClearedMatches(s, tenant, now) {
      var x := ClearedRowFrom(s.matches, tenant, PresentNow(s, tenant), now, q);
      if x.pk == r.pk { ListedOnce(s.matches, PkOf, x, r); }
    } else {
      var i := ProposalFrom(Pending(s, tenant, now), s.nextMatch, q);
    }
  }

  /** A human decision is closed exactly when a side of it is gone; nothing else is rewritten. */
  lemma {:induction false} EveryRowMeetsItsFate(s: Store, tenant: Text, judge: Judge, now: int, r: MatchRow)
    requires WellKept(s) && Run(s, tenant, judge, now).Some? && r in s.matches
    ensures var after := Run(s, tenant, judge, now).value.matches;
            match Fate(s, tenant, now, r)
            case Some(kept) => kept in after && forall q :: q in after && q.pk == r.pk ==> q == kept
            case None => forall q :: q in after ==> q.pk != r.pk
  {
    RunCompletesExactly(s, tenant, judge, now);
    var after := MatchesAfter(s, tenant, now);
    match Fate(s, tenant, now, r)
    case Some(kept) =>
      KeptRowIsThere(s, tenant, now, r);
      forall q | q in after && q.pk == r.pk ensures q == kept { ListedOnce(after, PkOf, q, kept); }
    case None =>
      forall q | q in after ensures q.pk != r.pk { DroppedRowIsGone(s, tenant, now, r, q); }
  }

  lemma {:induction false} NewRowIsPending(s: Store, tenant: Text, now: int, q: MatchRow) returns (i: nat)
    requires q in MatchesAfter(s, tenant, now) && forall r :: r in s.matches ==> r.pk != q.pk
    ensures i < |Pending(s, tenant, now)| && q == ProposalAt(s.nextMatch + i, Pending(s, tenant, now)[i])
  {
    if q in ClearedMatches(s, tenant, now) {
      var x := ClearedRowFrom(s.matches, tenant, PresentNow(s, tenant), now, q);
    }
    i := ProposalFrom(Pending(s, tenant, now), s.nextMatch, q);
  }

  lemma {:induction false} PendingIsNatural(s: Store, tenant: Text, now: int, i: nat)
    requires WellKept(s) && ProvidersDistinct(s, tenant) && i < |Pending(s, tenant, now)|
    ensures var p := Pending(s, tenant, now)[i]; p in Result(s, tenant).pairs && p.strategy == ByNaturalKey
  {
    PendingArePairs(s, tenant, now);
    DecidedExactlyBound(s, tenant, now, Pending(s, tenant, now)[i]);
  }

  /** What a run adds to the match table: for a natural pair a proposal of it, new and as the pair says. */
  lemma {:induction false} NewMatchesAreProposals(s: Store, tenant: Text, judge: Judge, now: int, q: MatchRow) returns (p: Pair)
    requires WellKept(s) && Run(s, tenant, judge, now).Some?
    requires q in Run(s, tenant, judge, now).value.matches && forall r :: r in s.matches ==> r.pk != q.pk
    ensures q.state == MatchState.Proposed && q.invalidatedAt == None && q.pk >= s.nextMatch
    ensures p in Result(s, tenant).pairs && q.anchor == p.declared.key && q.providerId == p.discovered.providerId
    ensures q.strategy == p.strategy == ByNaturalKey
  {
    RunCompletesExactly(s, tenant, judge, now);
    var i := NewRowIsPending(s, tenant, now, q);
    p := Pending(s, tenant, now)[i];
    PendingIsNatural(s, tenant, now, i);
  }

  // ---------------------------------------------------------------- over any history

  /** One thing that happens to the store: a run of some tenant, or the planes moving on. */
  datatype Event =
    | RunOf(tenant: Text, judge: Judge, now: int)
    | PlanesBecome(declared: seq<DeclaredRow>, active: map<Text, nat>, discovered: seq<DiscoveredRow>)

  function Moved(s: Store, e: Event): Store
    requires e.PlanesBecome?
  {
    s.(declared := e.declared, active := e.active, discovered := e.discovered)
  }

  /** A raising run is rolled back; the database refuses planes that break its constraints. */
  ghost function Happens(s: Store, e: Event): Store
    requires WellKept(s)
  {
    match e
    case RunOf(tenant, judge, now) =>
      (match Run(s, tenant, judge, now) case Some(t) => t case None => s)
    case PlanesBecome(_, _, _) => if WellKept(Moved(s, e)) then Moved(s, e) else s
  }

  /** Planes move on to any that keep the constraints, and nothing else moves with them. */
  lemma {:induction false} PlanesMoveExactly(s: Store, declared: seq<DeclaredRow>, active: map<Text, nat>, discovered: seq<DiscoveredRow>)
    requires WellKept(s)
    ensures var t := Happens(s, PlanesBecome(declared, active, discovered));
            && t.matches == s.matches && t.discrepancies == s.discrepancies
            && t.nextMatch == s.nextMatch && t.nextDiscrepancy == s.nextDiscrepancy
            && (KeepConstraints(declared, discovered) ==> t.declared == declared && t.active == active && t.discovered == discovered)
            && (!KeepConstraints(declared, discovered) ==> t == s)
  {}

  /** What the database asks of the two planes: admitted resources, and one row a key in each revision and in the estate. */
  ghost predicate KeepConstraints(declared: seq<DeclaredRow>, discovered: seq<DiscoveredRow>) {
    && (forall r :: r in declared ==> Admitted(r.snapshot)) && (forall r :: r in discovered ==> Admitted(r.snapshot))
    && NoRepeats(Keys(declared, RevisionKey)) && NoRepeats(Keys(discovered, DiscoveredKey))
  }

  lemma {:induction false} HappensKeeps(s: Store, e: Event)
    requires WellKept(s)
    ensures WellKept(Happens(s, e))
  {
    if e.RunOf? { RunCompletesExactly(s, e.tenant, e.judge, e.now); }
  }

  ghost function History(s: Store, events: seq<Event>): (t: Store)
    requires WellKept(s)
    ensures WellKept(t)
    decreases |events|
  {
    if events == [] then s
    else
      HappensKeeps(s, events[0]);
      History(Happens(s, events[0]), events[1..])
  }

  /** The run, if it is one of the row's tenant and completes, finds both sides of the row. */
  ghost predicate Spares(s: Store, e: Event, r: MatchRow)
    requires WellKept(s)
  {
    e.RunOf? && OfTenant(r, e.tenant) && Run(s, e.tenant, e.judge, e.now).Some? ==>
      Anchored(PresentNow(s, e.tenant), r)
  }

  ghost predicate AlwaysSpared(s: Store, events: seq<Event>, r: MatchRow)
    requires WellKept(s)
    decreases |events|
  {
    events != [] ==>
      (HappensKeeps(s, events[0]);
       Spares(s, events[0], r) && AlwaysSpared(Happens(s, events[0]), events[1..], r))
  }

  lemma {:induction false} HappensToRow(s: Store, e: Event, r: MatchRow)
    requires WellKept(s) && r in s.matches
    ensures r.state.Invalidated? ==> r in Happens(s, e).matches
    ensures IsHuman(r) && Spares(s, e, r) ==> r in Happens(s, e).matches
    ensures IsHuman(r) && !Spares(s, e, r) ==>
              r.(state := MatchState.Invalidated, invalidatedAt := Some(e.now)) in Happens(s, e).matches
  {
    if e.RunOf? && Run(s, e.tenant, e.judge, e.now).Some? {
      EveryRowMeetsItsFate(s, e.tenant, e.judge, e.now, r);
    }
  }

  /** A closed decision is history: no later event touches it. */
  lemma {:induction false} InvalidatedIsForever(s: Store, events: seq<Event>, r: MatchRow)
    requires WellKept(s) && r in s.matches && r.state.Invalidated?
    ensures r in History(s, events).matches
    decreases |events|
  {
    if events != [] {
      HappensKeeps(s, events[0]);
      HappensToRow(s, events[0], r);
      InvalidatedIsForever(Happens(s, events[0]), events[1..], r);
    }
  }

  lemma {:induction false} OnePerKey(s: Store, q: MatchRow, r: MatchRow)
    requires WellKept(s) && q in s.matches && r in s.matches && q.pk == r.pk
    ensures q == r
  {
    ListedOnce(s.matches, PkOf, q, r);
  }

  /**
   * A human decision stands through a history exactly when every completed run of its tenant found
   * both its sides; from the first that did not, it is closed for good, even if the sides return.
   */
  lemma {:induction false} DecisionStandsWhileAnchored(s: Store, events: seq<Event>, r: MatchRow)
    requires WellKept(s) && r in s.matches && IsHuman(r)
    ensures r in History(s, events).matches <==> AlwaysSpared(s, events, r)
    ensures !AlwaysSpared(s, events, r) ==>
              exists q :: q in History(s, events).matches && q.pk == r.pk && q.state.Invalidated?
    decreases |events|
  {
    if events != [] {
      var e, t := events[0], Happens(s, events[0]);
      HappensKeeps(s, e);
      HappensToRow(s, e, r);
      if Spares(s, e, r) {
        DecisionStandsWhileAnchored(t, events[1..], r);
      } else {
        var closed := r.(state := MatchState.Invalidated, invalidatedAt := Some(e.now));
        InvalidatedIsForever(t, events[1..], closed);
        if r in History(s, events).matches {
          OnePerKey(History(s, events), closed, r);
        }
      }
    }
  }
}
