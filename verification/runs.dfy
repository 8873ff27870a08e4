/** What every reconciliation run keeps, and what it makes true. */
module Runs {
  import opened Options
  import opened Sorting
  import opened Indexing
  import opened Texts
  import opened Snapshots
  import opened Matching
  import opened Anchoring
  import opened Diffing
  import opened Tables
  import opened Reconciliation

  function RevisionKey(r: DeclaredRow): (nat, NaturalKey) { (r.revision, r.snapshot.key) }
  function DiscoveredKey(r: DiscoveredRow): NaturalKey { r.snapshot.key }

  /** The constraints the database keeps on everything a run touches. */
  ghost predicate WellKept(s: Store) {
    && ResourcesAdmitted(s)
    && Indexed(s.matches, s.nextMatch)
    && Numbered(s.discrepancies, s.nextDiscrepancy)
    && NoRepeats(Keys(s.declared, RevisionKey))
    && NoRepeats(Keys(s.discovered, DiscoveredKey))
  }

  /** No two resources now present claim one provider id, which no constraint ensures. */
  ghost predicate ProvidersDistinct(s: Store, tenant: Text) {
    NoRepeats(Keys(Filter(DiscoveredPlane(s, tenant), IsIdentified), ProviderOf))
  }

  /** No standing confirmation joins a declared and a present resource of different kinds. */
  ghost predicate ConfirmationsOfOneKind(s: Store, tenant: Text) {
    forall r, d, c ::
      (r in s.matches && r.state.Confirmed? && OfTenant(r, tenant)
       && d in DeclaredPlane(s, tenant) && c in DiscoveredPlane(s, tenant)
       && d.key == r.anchor && c.providerId == r.providerId) ==> d.key.kind == c.key.kind
  }

  /** No comparison of a field stated by a pair of the run raises. */
  ghost predicate ComparisonsSettle(s: Store, tenant: Text, judge: Judge) {
    forall p, f :: p in Result(s, tenant).pairs ==> !RaisesOn(p, judge, f)
  }

  // ---------------------------------------------------------------- when the matcher accepts

  lemma {:induction false} PlaneTenants(s: Store, tenant: Text)
    ensures forall d :: d in DeclaredPlane(s, tenant) ==> d.key.tenant == tenant
    ensures forall c :: c in DiscoveredPlane(s, tenant) ==> c.key.tenant == tenant
  {
    forall d | d in DeclaredPlane(s, tenant) ensures d.key.tenant == tenant {
      KeyedBy(Filter(s.declared, DeclaredIn(tenant, s.active[tenant])), DeclaredSnapshot, d);
    }
    forall c | c in DiscoveredPlane(s, tenant) ensures c.key.tenant == tenant {
      KeyedBy(Filter(s.discovered, PresentFor(tenant)), DiscoveredSnapshot, c);
    }
  }

  lemma {:induction false} PlaneKeysDistinct(s: Store, tenant: Text)
    requires WellKept(s)
    ensures NoRepeats(Keys(DeclaredPlane(s, tenant), KeyOfSnapshot))
    ensures NoRepeats(Keys(DiscoveredPlane(s, tenant), KeyOfSnapshot))
  {
    if tenant in s.active {
      var kept := DeclaredIn(tenant, s.active[tenant]);
      var rows := Filter(s.declared, kept);
      FilterKeepsNoRepeats(s.declared, kept, RevisionKey);
      forall i, j | 0 <= i < j < |rows| ensures rows[i].snapshot.key != rows[j].snapshot.key {
        assert rows[i] in rows && rows[j] in rows;
        assert Keys(rows, RevisionKey)[i] != Keys(rows, RevisionKey)[j];
      }
    }
    var rows := Filter(s.discovered, PresentFor(tenant));
    FilterKeepsNoRepeats(s.discovered, PresentFor(tenant), DiscoveredKey);
    forall i, j | 0 <= i < j < |rows| ensures rows[i].snapshot.key != rows[j].snapshot.key {
      assert Keys(rows, DiscoveredKey)[i] != Keys(rows, DiscoveredKey)[j];
    }
  }

  lemma {:induction false} ConfirmedDecisionsDistinct(s: Store, tenant: Text)
    requires WellKept(s)
    ensures NoRepeats(Keys(Filter(StoredDecisions(s.matches, tenant), IsConfirmed), DecisionKey))
    ensures NoRepeats(Keys(Filter(StoredDecisions(s.matches, tenant), IsConfirmed), DecisionProvider))
  {
    ViewKeepsNoRepeats(s.matches, HumanOf(tenant), DecisionOf, IsConfirmed, DecisionKey, IsActive, AnchorOf);
    ViewKeepsNoRepeats(s.matches, HumanOf(tenant), DecisionOf, IsConfirmed, DecisionProvider, HoldsProvider, HolderOf);
  }

  /** Given the constraints, the one ambiguity left to refuse is a repeated provider id. */
  lemma {:induction false} OnlyProvidersAreAmbiguous(s: Store, tenant: Text)
    requires WellKept(s)
    ensures Match(DeclaredPlane(s, tenant), DiscoveredPlane(s, tenant), StoredDecisions(s.matches, tenant)).Matched?
            <==> ProvidersDistinct(s, tenant)
    ensures ProvidersDistinct(s, tenant) <==>
            Unambiguous(DeclaredPlane(s, tenant), DiscoveredPlane(s, tenant), StoredDecisions(s.matches, tenant))
  {
    PlaneKeysDistinct(s, tenant);
    ConfirmedDecisionsDistinct(s, tenant);
    RefusedExactlyWhenAmbiguous(DeclaredPlane(s, tenant), DiscoveredPlane(s, tenant), StoredDecisions(s.matches, tenant));
  }

  function Result(s: Store, tenant: Text): MatchResult {
    MatchedResult(DeclaredPlane(s, tenant), DiscoveredPlane(s, tenant), StoredDecisions(s.matches, tenant))
  }

  /** `r` is a standing confirmation of exactly this pair. */
  predicate Confirms(r: MatchRow, p: Pair) {
    r.state.Confirmed? && r.anchor == p.declared.key && r.providerId == p.discovered.providerId
  }

  lemma {:induction false} BoundIsConfirmed(
      ds: seq<Snapshot>, cs: seq<Snapshot>, rows: seq<MatchRow>, next: nat, tenant: Text, p: Pair)
    requires Indexed(rows, next) && p.declared.key.tenant == tenant
    requires p.declared in ds && p.discovered in cs && p.strategy == Binding
    ensures IsBound(p, ds, cs, StoredDecisions(rows, tenant)) <==> exists r :: r in rows && Confirms(r, p)
  {
    if p.discovered.providerId.Some? {
      var d := Decision(p.declared.key, p.discovered.providerId.value, true);
      KeyedBy(Filter(rows, HumanOf(tenant)), DecisionOf, d);
      if r :| r in rows && Confirms(r, p) {
        assert r in Filter(rows, HumanOf(tenant)) && DecisionOf(r) == d;
      }
    }
  }

  lemma {:induction false} StrategyTells(s: Store, tenant: Text, p: Pair)
    requires WellKept(s) && ProvidersDistinct(s, tenant)
    ensures p in Result(s, tenant).pairs && p.strategy == Binding <==>
            IsBound(p, DeclaredPlane(s, tenant), DiscoveredPlane(s, tenant), StoredDecisions(s.matches, tenant))
    ensures p in Result(s, tenant).pairs && p.strategy == ByNaturalKey ==> p.declared.key == p.discovered.key
    ensures p in Result(s, tenant).pairs ==>
              p.declared in DeclaredPlane(s, tenant) && p.discovered in DiscoveredPlane(s, tenant)
  {
    OnlyProvidersAreAmbiguous(s, tenant);
    PairsCharacterized(DeclaredPlane(s, tenant), DiscoveredPlane(s, tenant), StoredDecisions(s.matches, tenant), p);
  }

  /** A pair made by binding is one a stored confirmation names, and such a pair is always made. */
  lemma {:induction false} BindingsAreConfirmations(s: Store, tenant: Text, p: Pair)
    requires WellKept(s) && ProvidersDistinct(s, tenant)
    requires p.declared in DeclaredPlane(s, tenant) && p.discovered in DiscoveredPlane(s, tenant) && p.strategy == Binding
    ensures p in Result(s, tenant).pairs <==> exists r :: r in s.matches && Confirms(r, p)
  {
    StrategyTells(s, tenant, p);
    PlaneTenants(s, tenant);
    BoundIsConfirmed(DeclaredPlane(s, tenant), DiscoveredPlane(s, tenant), s.matches, s.nextMatch, tenant, p);
  }

  lemma {:induction false} PairsComeFromPlanes(s: Store, tenant: Text)
    requires WellKept(s) && ProvidersDistinct(s, tenant)
    ensures forall p :: p in Result(s, tenant).pairs ==>
              p.declared in DeclaredPlane(s, tenant) && p.discovered in DiscoveredPlane(s, tenant)
  {
    OnlyProvidersAreAmbiguous(s, tenant);
    MatchedPairsComeFromPlanes(DeclaredPlane(s, tenant), DiscoveredPlane(s, tenant), StoredDecisions(s.matches, tenant));
  }

  lemma {:induction false} KindsAgreeWhenConfirmed(s: Store, tenant: Text, p: Pair)
    requires WellKept(s) && ProvidersDistinct(s, tenant) && ConfirmationsOfOneKind(s, tenant)
    requires p in Result(s, tenant).pairs
    ensures p.declared.key.kind == p.discovered.key.kind
  {
    StrategyTells(s, tenant, p);
    if p.strategy == Binding {
      BindingsAreConfirmations(s, tenant, p);
      PlaneTenants(s, tenant);
    }
  }

  lemma {:induction false} KindsAgreeExactly(s: Store, tenant: Text)
    requires WellKept(s) && ProvidersDistinct(s, tenant)
    ensures KindsAgree(SortedPairs(Result(s, tenant).pairs)) <==> ConfirmationsOfOneKind(s, tenant)
  {
    var pairs := Result(s, tenant).pairs;
    SortByKeepsElements(pairs, DeclaredKeyOf, KeyLe);
    if ConfirmationsOfOneKind(s, tenant) {
      forall p | p in SortedPairs(pairs) ensures p.declared.key.kind == p.discovered.key.kind {
        KindsAgreeWhenConfirmed(s, tenant, p);
      }
    }
    if KindsAgree(SortedPairs(pairs)) {
      forall r, d, c | r in s.matches && r.state.Confirmed? && OfTenant(r, tenant) && d in DeclaredPlane(s, tenant) &&
                       c in DiscoveredPlane(s, tenant) && d.key == r.anchor && c.providerId == r.providerId
        ensures d.key.kind == c.key.kind
      {
        var p := Pair(d, c, Binding);
        assert Confirms(r, p);
        BindingsAreConfirmations(s, tenant, p);
        assert p in SortedPairs(pairs);
      }
    }
  }

  // ---------------------------------------------------------------- the table after clearing

  function PresentNow(s: Store, tenant: Text): Present {
    PresentIn(DeclaredPlane(s, tenant), DiscoveredPlane(s, tenant))
  }

  function ClearedMatches(s: Store, tenant: Text, now: int): seq<MatchRow> {
    Cleared(s.matches, tenant, PresentNow(s, tenant), now)
  }

  predicate Always<T>(x: T) { true }

  lemma {:induction false} ClearedFrom(rows: seq<MatchRow>, tenant: Text, p: Present, now: int, r: MatchRow)
    ensures r in Cleared(rows, tenant, p, now) <==>
            exists q :: q in rows && KeptByReset(tenant)(q) && RetireWith(tenant, p, now)(q) == r
  {
    KeyedBy(Filter(rows, KeptByReset(tenant)), RetireWith(tenant, p, now), r);
  }

  lemma {:induction false} ClearingKeeps<K(!new)>(
      rows: seq<MatchRow>, tenant: Text, p: Present, now: int, kept: MatchRow -> bool, key: MatchRow -> K)
    requires forall r :: kept(RetireWith(tenant, p, now)(r)) ==> kept(r)
    requires forall r :: key(RetireWith(tenant, p, now)(r)) == key(r)
    requires NoRepeats(Keys(Filter(rows, kept), key))
    ensures NoRepeats(Keys(Filter(Cleared(rows, tenant, p, now), kept), key))
  {
    ViewKeepsNoRepeats(rows, KeptByReset(tenant), RetireWith(tenant, p, now), kept, key, kept, key);
  }

  lemma {:induction false} ClearingKeepsRowKeys(rows: seq<MatchRow>, tenant: Text, p: Present, now: int)
    requires NoRepeats(Keys(rows, PkOf))
    ensures NoRepeats(Keys(Cleared(rows, tenant, p, now), PkOf))
  {
    FilterAll(rows, Always);
    FilterAll(Cleared(rows, tenant, p, now), Always);
    ClearingKeeps(rows, tenant, p, now, Always, PkOf);
  }

  /** Dropping proposals and closing decisions cannot break an index. */
  lemma {:induction false} ClearingKeepsIndexes(rows: seq<MatchRow>, next: nat, tenant: Text, p: Present, now: int)
    requires Indexed(rows, next)
    ensures Indexed(Cleared(rows, tenant, p, now), next)
  {
    ClearingKeepsRowKeys(rows, tenant, p, now);
    ClearingKeeps(rows, tenant, p, now, IsActive, AnchorOf);
    ClearingKeeps(rows, tenant, p, now, HoldsProvider, HolderOf);
    ClearingKeeps(rows, tenant, p, now, IsRejection, PairingOfRow);
    forall r | r in Cleared(rows, tenant, p, now) ensures r.pk < next && (IsHuman(r) ==> r.providerId.Some?) {
      ClearedFrom(rows, tenant, p, now, r);
    }
  }

  /** What is still active for the tenant is a stored confirmation, unchanged, with both sides present. */
  lemma {:induction false} ClearedActive(rows: seq<MatchRow>, tenant: Text, p: Present, now: int, r: MatchRow)
    requires OfTenant(r, tenant)
    ensures r in Cleared(rows, tenant, p, now) && IsActive(r) <==> r in rows && r.state.Confirmed? && Anchored(p, r)
  {
    ClearedFrom(rows, tenant, p, now, r);
    if r in rows && r.state.Confirmed? && Anchored(p, r) {
      assert KeptByReset(tenant)(r) && RetireWith(tenant, p, now)(r) == r;
    }
  }

  lemma {:induction false} AnchorsPresent(s: Store, tenant: Text, r: MatchRow)
    ensures Anchored(PresentNow(s, tenant), r) <==>
            (exists d :: d in DeclaredPlane(s, tenant) && d.key == r.anchor) &&
            (exists c :: c in DiscoveredPlane(s, tenant) && c.providerId == r.providerId)
  {}

  /** The confirmation a live row stands for is paired in this run. */
  lemma {:induction false} LiveRowIsPaired(s: Store, tenant: Text, now: int, r: MatchRow) returns (p: Pair)
    requires WellKept(s) && ProvidersDistinct(s, tenant)
    requires r in ClearedMatches(s, tenant, now) && IsActive(r) && OfTenant(r, tenant)
    ensures p in Result(s, tenant).pairs && p.strategy == Binding && Confirms(r, p) && r in s.matches
  {
    ClearedActive(s.matches, tenant, PresentNow(s, tenant), now, r);
    AnchorsPresent(s, tenant, r);
    var d :| d in DeclaredPlane(s, tenant) && d.key == r.anchor;
    var c :| c in DiscoveredPlane(s, tenant) && c.providerId == r.providerId;
    p := Pair(d, c, Binding);
    BindingsAreConfirmations(s, tenant, p);
  }

  function DecidedNow(s: Store, tenant: Text, now: int): set<NaturalKey> {
    Decided(ClearedMatches(s, tenant, now), tenant)
  }

  lemma {:induction false} ListedOnce<T, K>(xs: seq<T>, key: T -> K, x: T, y: T)
    requires NoRepeats(Keys(xs, key)) && x in xs && y in xs && key(x) == key(y)
    ensures x == y
  {
    var i :| 0 <= i < |xs| && xs[i] == x;
    var j :| 0 <= j < |xs| && xs[j] == y;
    assert Keys(xs, key)[i] == Keys(xs, key)[j];
  }

  lemma {:induction false} PairKeysDistinct(s: Store, tenant: Text)
    requires WellKept(s) && ProvidersDistinct(s, tenant)
    ensures NoRepeats(Keys(Result(s, tenant).pairs, DeclaredKeyOf))
    ensures NoRepeats(Keys(Result(s, tenant).pairs, DiscoveredKeyOf))
  {
    OnlyProvidersAreAmbiguous(s, tenant);
    PairsAreOneToOne(DeclaredPlane(s, tenant), DiscoveredPlane(s, tenant), StoredDecisions(s.matches, tenant));
  }

  lemma {:induction false} PairsOnce(s: Store, tenant: Text, p: Pair, q: Pair)
    requires WellKept(s) && ProvidersDistinct(s, tenant)
    requires p in Result(s, tenant).pairs && q in Result(s, tenant).pairs
    requires p.declared.key == q.declared.key || p.discovered.key == q.discovered.key
    ensures p == q
  {
    PairKeysDistinct(s, tenant);
    if p.declared.key == q.declared.key {
      ListedOnce(Result(s, tenant).pairs, DeclaredKeyOf, p, q);
    } else {
      ListedOnce(Result(s, tenant).pairs, DiscoveredKeyOf, p, q);
    }
  }

  lemma {:induction false} OneProviderOnePair(s: Store, tenant: Text, p: Pair, q: Pair)
    requires WellKept(s) && ProvidersDistinct(s, tenant)
    requires p in Result(s, tenant).pairs && q in Result(s, tenant).pairs
    requires p.discovered.providerId.Some? && p.discovered.providerId == q.discovered.providerId
    ensures p == q
  {
    PairsComeFromPlanes(s, tenant);
    KeptOnce(DiscoveredPlane(s, tenant), IsIdentified, ProviderOf, p.discovered, q.discovered);
    PairsOnce(s, tenant, p, q);
  }

  /** The pairs already holding a live row are exactly the bound ones. */
  lemma {:induction false} DecidedExactlyBound(s: Store, tenant: Text, now: int, p: Pair)
    requires WellKept(s) && ProvidersDistinct(s, tenant) && p in Result(s, tenant).pairs
    ensures p.declared.key in DecidedNow(s, tenant, now) <==> p.strategy == Binding
  {
    PairsComeFromPlanes(s, tenant);
    PlaneTenants(s, tenant);
    if p.strategy == Binding {
      BindingsAreConfirmations(s, tenant, p);
      var r :| r in s.matches && Confirms(r, p);
      AnchorsPresent(s, tenant, r);
      ClearedActive(s.matches, tenant, PresentNow(s, tenant), now, r);
    }
    if p.declared.key in DecidedNow(s, tenant, now) {
      var r :| r in ClearedMatches(s, tenant, now) && IsActive(r) && OfTenant(r, tenant) && r.anchor == p.declared.key;
      var q := LiveRowIsPaired(s, tenant, now, r);
      PairsOnce(s, tenant, p, q);
    }
  }

  // ---------------------------------------------------------------- no index ever fires

  function Pending(s: Store, tenant: Text, now: int): seq<Pair> {
    Filter(Result(s, tenant).pairs, Undecided(DecidedNow(s, tenant, now)))
  }

  lemma {:induction false} PendingArePairs(s: Store, tenant: Text, now: int)
    requires WellKept(s) && ProvidersDistinct(s, tenant)
    ensures NoRepeats(Keys(Pending(s, tenant, now), DeclaredKeyOf))
    ensures forall p :: p in Pending(s, tenant, now) ==>
              p in Result(s, tenant).pairs && p.declared.key !in DecidedNow(s, tenant, now) && p.declared.key.tenant == tenant
  {
    PairKeysDistinct(s, tenant);
    FilterKeepsNoRepeats(Result(s, tenant).pairs, Undecided(DecidedNow(s, tenant, now)), DeclaredKeyOf);
    PairsComeFromPlanes(s, tenant);
    PlaneTenants(s, tenant);
  }

  lemma {:induction false} NoCollisionWithKept(s: Store, tenant: Text, now: int, r: MatchRow, p: Pair)
    requires WellKept(s) && ProvidersDistinct(s, tenant)
    requires p in Pending(s, tenant, now)
    requires r in ClearedMatches(s, tenant, now) && IsActive(r)
    ensures r.anchor != p.declared.key
    ensures p.discovered.providerId.Some? ==> HolderOf(r) != (tenant, p.discovered.providerId)
  {
    PendingArePairs(s, tenant, now);
    if OfTenant(r, tenant) {
      assert r.anchor in DecidedNow(s, tenant, now);
      if p.discovered.providerId.Some? && r.providerId == p.discovered.providerId {
        var q := LiveRowIsPaired(s, tenant, now, r);
        OneProviderOnePair(s, tenant, p, q);
      }
    }
  }

  lemma {:induction false} NoCollisionWithNew(s: Store, tenant: Text, now: int, i: nat, n: nat)
    requires WellKept(s) && ProvidersDistinct(s, tenant) && i < n < |Pending(s, tenant, now)|
    ensures var p, q := Pending(s, tenant, now)[i], Pending(s, tenant, now)[n];
            && p.declared.key != q.declared.key
            && (q.discovered.providerId.Some? ==> p.discovered.providerId != q.discovered.providerId)
  {
    var pending := Pending(s, tenant, now);
    var p, q := pending[i], pending[n];
    assert p in pending && q in pending;
    PendingArePairs(s, tenant, now);
    assert Keys(pending, DeclaredKeyOf)[i] != Keys(pending, DeclaredKeyOf)[n];
    if q.discovered.providerId.Some? && p.discovered.providerId == q.discovered.providerId {
      OneProviderOnePair(s, tenant, p, q);
    }
  }

  /** No live row of the listing holds a side of the pair. */
  ghost predicate Avoids(rows: seq<MatchRow>, p: Pair) {
    forall r :: r in rows && IsActive(r) ==> Free(r, p)
  }

  predicate Free(r: MatchRow, p: Pair) {
    && r.anchor != p.declared.key
    && (p.discovered.providerId.Some? ==> HolderOf(r) != (p.declared.key.tenant, p.discovered.providerId))
  }

  lemma {:induction false} AvoidingIsNoCollision(kept: seq<MatchRow>, written: seq<MatchRow>, p: Pair, pk: nat)
    requires Avoids(kept, p) && Avoids(written, p)
    ensures !Collides(kept + written, ProposalAt(pk, p))
  {
    forall r | r in kept + written && IsActive(r) ensures Free(r, p) {}
  }

  lemma {:induction false} WrittenAvoids(s: Store, tenant: Text, now: int, n: nat)
    requires WellKept(s) && ProvidersDistinct(s, tenant) && n < |Pending(s, tenant, now)|
    ensures Avoids(Proposals(Pending(s, tenant, now)[..n], s.nextMatch), Pending(s, tenant, now)[n])
  {
    var written := Proposals(Pending(s, tenant, now)[..n], s.nextMatch);
    forall r | r in written ensures Free(r, Pending(s, tenant, now)[n]) {
      var i :| 0 <= i < n && written[i] == r;
      NoCollisionWithNew(s, tenant, now, i, n);
    }
  }

  lemma {:induction false} KeptAvoids(s: Store, tenant: Text, now: int, p: Pair)
    requires WellKept(s) && ProvidersDistinct(s, tenant) && p in Pending(s, tenant, now)
    ensures Avoids(ClearedMatches(s, tenant, now), p)
  {
    PendingArePairs(s, tenant, now);
    forall r | r in ClearedMatches(s, tenant, now) && IsActive(r) ensures Free(r, p) {
      NoCollisionWithKept(s, tenant, now, r, p);
    }
  }

  /** The next proposal shares no side with any live row, old or just written. */
  lemma {:induction false} NoCollision(s: Store, tenant: Text, now: int, n: nat)
    requires WellKept(s) && ProvidersDistinct(s, tenant) && n < |Pending(s, tenant, now)|
    ensures !Collides(ClearedMatches(s, tenant, now) + Proposals(Pending(s, tenant, now)[..n], s.nextMatch),
                      ProposalAt(s.nextMatch + n, Pending(s, tenant, now)[n]))
  {
    var p := Pending(s, tenant, now)[n];
    assert p in Pending(s, tenant, now);
    KeptAvoids(s, tenant, now, p);
    WrittenAvoids(s, tenant, now, n);
    AvoidingIsNoCollision(ClearedMatches(s, tenant, now), Proposals(Pending(s, tenant, now)[..n], s.nextMatch), p, s.nextMatch + n);
  }

  /** No proposal of the listing collides with a row before it. */
  ghost predicate Insertable(rows: seq<MatchRow>, next: nat, pairs: seq<Pair>) {
    forall n :: 0 <= n < |pairs| ==> !Collides(rows + Proposals(pairs[..n], next), ProposalAt(next + n, pairs[n]))
  }

  lemma {:induction false} OneMoreProposal(rows: seq<MatchRow>, next: nat, pairs: seq<Pair>, n: nat)
    requires n < |pairs|
    ensures rows + Proposals(pairs[..n + 1], next) ==
            rows + Proposals(pairs[..n], next) + [ProposalAt(next + n, pairs[n])]
    ensures Inserted(rows, next, pairs[..n + 1]) ==
            match Inserted(rows, next, pairs[..n])
            case None => None
            case Some(written) => InsertedRow(written, ProposalAt(next + n, pairs[n]))
  {
    assert pairs[..n + 1] == pairs[..n] + [pairs[n]];
    InsertedStep(rows, next, pairs[..n], pairs[n]);
  }

  lemma {:induction false} NextInsert(rows: seq<MatchRow>, next: nat, pairs: seq<Pair>, n: nat)
    requires Insertable(rows, next, pairs) && n < |pairs|
    ensures InsertedRow(rows + Proposals(pairs[..n], next), ProposalAt(next + n, pairs[n])) ==
            Some(rows + Proposals(pairs[..n + 1], next))
  {
    OneMoreProposal(rows, next, pairs, n);
  }

  lemma {:induction false} InsertableIsInserted(rows: seq<MatchRow>, next: nat, pairs: seq<Pair>, n: nat)
    requires Insertable(rows, next, pairs) && n <= |pairs|
    ensures Inserted(rows, next, pairs[..n]) == Some(rows + Proposals(pairs[..n], next))
  {
    if n == 0 {
      NoProposals(rows, next, pairs);
    } else {
      InsertableIsInserted(rows, next, pairs, n - 1);
      OneMoreProposal(rows, next, pairs, n - 1);
      NextInsert(rows, next, pairs, n - 1);
    }
  }

  lemma {:induction false} AcceptedInsertKeepsIndexes(rows: seq<MatchRow>, next: nat, row: MatchRow)
    requires Indexed(rows, next) && row.pk == next && row.state.Proposed? && InsertedRow(rows, row).Some?
    ensures Indexed(InsertedRow(rows, row).value, next + 1)
  {
    RefusalProtectsIndexes(rows, next, row);
  }

  lemma {:induction false} NextInsertKeepsIndexes(rows: seq<MatchRow>, next: nat, pairs: seq<Pair>, n: nat)
    requires Insertable(rows, next, pairs) && n < |pairs|
    requires IndexedUpTo(rows, next, pairs, n)
    ensures IndexedUpTo(rows, next, pairs, n + 1)
  {
    NextInsert(rows, next, pairs, n);
    AcceptedInsertKeepsIndexes(rows + Proposals(pairs[..n], next), next + n, ProposalAt(next + n, pairs[n]));
  }

  lemma {:induction false} NoProposals(rows: seq<MatchRow>, next: nat, pairs: seq<Pair>)
    ensures rows + Proposals(pairs[..0], next) == rows
  {}

  lemma {:induction false} Climb(holds: nat -> bool, n: nat)
    requires holds(0) && forall k: nat :: k < n && holds(k) ==> holds(k + 1)
    ensures holds(n)
  {
    if n > 0 { Climb(holds, n - 1); }
  }

  ghost predicate IndexedUpTo(rows: seq<MatchRow>, next: nat, pairs: seq<Pair>, n: nat) {
    n <= |pairs| && Indexed(rows + Proposals(pairs[..n], next), next + n)
  }

  ghost function IndexedAfter(rows: seq<MatchRow>, next: nat, pairs: seq<Pair>): nat -> bool {
    (n: nat) => IndexedUpTo(rows, next, pairs, n)
  }

  lemma {:induction false} InsertableKeepsIndexes(rows: seq<MatchRow>, next: nat, pairs: seq<Pair>, n: nat)
    requires IndexedUpTo(rows, next, pairs, 0) && Insertable(rows, next, pairs) && n <= |pairs|
    ensures IndexedUpTo(rows, next, pairs, n)
  {
    var holds := IndexedAfter(rows, next, pairs);
    forall k: nat | k < n && holds(k) ensures holds(k + 1) {
      NextInsertKeepsIndexes(rows, next, pairs, k);
    }
    Climb(holds, n);
  }

  lemma {:induction false} PendingIsInsertable(s: Store, tenant: Text, now: int)
    requires WellKept(s) && ProvidersDistinct(s, tenant)
    ensures Insertable(ClearedMatches(s, tenant, now), s.nextMatch, Pending(s, tenant, now))
  {
    var pending := Pending(s, tenant, now);
    forall n | 0 <= n < |pending|
      ensures !Collides(ClearedMatches(s, tenant, now) + Proposals(pending[..n], s.nextMatch),
                        ProposalAt(s.nextMatch + n, pending[n]))
    {
      NoCollision(s, tenant, now, n);
    }
  }

  /** No index refuses any proposal of the run. */
  lemma {:induction false} EveryProposalIsInserted(s: Store, tenant: Text, now: int)
    requires WellKept(s) && ProvidersDistinct(s, tenant)
    ensures Inserted(ClearedMatches(s, tenant, now), s.nextMatch, Pending(s, tenant, now)) == Some(MatchesAfter(s, tenant, now))
  {
    var pending := Pending(s, tenant, now);
    PendingIsInsertable(s, tenant, now);
    InsertableIsInserted(ClearedMatches(s, tenant, now), s.nextMatch, pending, |pending|);
    assert pending[..|pending|] == pending;
  }

  /** The table the run leaves keeps every index. */
  lemma {:induction false} IndexesAfter(s: Store, tenant: Text, now: int)
    requires WellKept(s) && ProvidersDistinct(s, tenant)
    ensures Indexed(MatchesAfter(s, tenant, now), s.nextMatch + |Pending(s, tenant, now)|)
  {
    var pending := Pending(s, tenant, now);
    ClearingKeepsIndexes(s.matches, s.nextMatch, tenant, PresentNow(s, tenant), now);
    PendingIsInsertable(s, tenant, now);
    NoProposals(ClearedMatches(s, tenant, now), s.nextMatch, pending);
    InsertableKeepsIndexes(ClearedMatches(s, tenant, now), s.nextMatch, pending, |pending|);
    assert pending[..|pending|] == pending;
  }

  /** The match table a completed run leaves. */
  function MatchesAfter(s: Store, tenant: Text, now: int): seq<MatchRow> {
    ClearedMatches(s, tenant, now) + Proposals(Pending(s, tenant, now), s.nextMatch)
  }

  lemma {:induction false} MatchedNow(s: Store, tenant: Text)
    requires WellKept(s)
    ensures ProvidersDistinct(s, tenant) ==> MatchNow(s, tenant) == Matched(Result(s, tenant))
    ensures !ProvidersDistinct(s, tenant) ==> MatchNow(s, tenant).Refused?
  {
    OnlyProvidersAreAmbiguous(s, tenant);
  }

  lemma {:induction false} PairsNamedNow(s: Store, tenant: Text)
    requires WellKept(s) && ProvidersDistinct(s, tenant)
    ensures NamedPairs(Result(s, tenant).pairs) && forall p :: p in Result(s, tenant).pairs ==> AdmittedPair(p)
  {
    MatchedNow(s, tenant);
    PairsAreNamed(s, tenant);
  }

  /** The differ completes on the run's pairs exactly when no confirmation joins two kinds and no comparison raises. */
  lemma {:induction false} ReconciledExactly(s: Store, tenant: Text, judge: Judge)
    requires WellKept(s) && ProvidersDistinct(s, tenant)
    ensures Reconciled(Result(s, tenant), judge).Some? <==> ConfirmationsOfOneKind(s, tenant) && ComparisonsSettle(s, tenant, judge)
  {
    PairsNamedNow(s, tenant);
    KindsAgreeExactly(s, tenant);
    KindsAgreeSorted(Result(s, tenant).pairs);
    ReconcilesExactly(Result(s, tenant), judge);
  }

  lemma {:induction false} KindsAgreeSorted(pairs: seq<Pair>)
    ensures KindsAgree(SortedPairs(pairs)) <==> KindsAgree(pairs)
  {
    SortByKeepsElements(pairs, DeclaredKeyOf, KeyLe);
  }

  /** What a run computes: nothing on a repeated provider id, else whatever the differ makes of the pairs. */
  lemma {:induction false} ComputedFromResult(s: Store, tenant: Text, judge: Judge)
    requires WellKept(s)
    ensures !ProvidersDistinct(s, tenant) ==> Computed(s, tenant, judge) == None
    ensures ProvidersDistinct(s, tenant) ==>
              Computed(s, tenant, judge) ==
              match Reconciled(Result(s, tenant), judge)
              case None => None
              case Some(found) => Some(Computation(Result(s, tenant), found))
  {
    MatchedNow(s, tenant);
  }

  lemma {:induction false} ComputedExactly(s: Store, tenant: Text, judge: Judge)
    requires WellKept(s)
    ensures Computed(s, tenant, judge).Some? <==>
            ProvidersDistinct(s, tenant) && ConfirmationsOfOneKind(s, tenant) && ComparisonsSettle(s, tenant, judge)
    ensures Computed(s, tenant, judge).Some? ==>
              Computed(s, tenant, judge) == Some(Computation(Result(s, tenant), Differences(Result(s, tenant), judge)))
  {
    ComputedFromResult(s, tenant, judge);
    if ProvidersDistinct(s, tenant) { ReconciledExactly(s, tenant, judge); }
  }

  lemma {:induction false} AppliedFrom(
      s: Store, tenant: Text, result: MatchResult, found: DiscrepancySet, now: int, table: MatchTable)
    requires Rewritten(s.matches, s.nextMatch, tenant, PresentNow(s, tenant), now, result.pairs) == Some(table)
    ensures Applied(s, tenant, result, found, now) == Some(Written(s, tenant, table, found))
  {}

  lemma {:induction false} RunApplies(
      s: Store, tenant: Text, judge: Judge, now: int, result: MatchResult, found: DiscrepancySet, end: Option<Store>)
    requires Computed(s, tenant, judge) == Some(Computation(result, found)) && Applied(s, tenant, result, found, now) == end
    ensures Run(s, tenant, judge, now) == end
  {}

  /** The state a run that has computed commits. */
  lemma {:induction false} RunCommits(
      s: Store, tenant: Text, judge: Judge, now: int, found: DiscrepancySet,
      pending: seq<Pair>, written: seq<MatchRow>, table: MatchTable)
    requires WellKept(s) && ProvidersDistinct(s, tenant)
    requires Computed(s, tenant, judge) == Some(Computation(Result(s, tenant), found))
    requires pending == Pending(s, tenant, now) && written == MatchesAfter(s, tenant, now)
    requires table == MatchTable(written, s.nextMatch + |pending|)
    ensures Run(s, tenant, judge, now) == Some(Written(s, tenant, table, found))
  {
    var result := Result(s, tenant);
    EveryProposalIsInserted(s, tenant, now);
    RewrittenIs(s.matches, s.nextMatch, tenant, PresentNow(s, tenant), now, result.pairs, pending, table);
    AppliedFrom(s, tenant, result, found, now, table);
    RunApplies(s, tenant, judge, now, result, found, Some(Written(s, tenant, table, found)));
  }

  lemma {:induction false} ReportsAreNumbered(found: DiscrepancySet, next: nat, i: nat)
    requires i < |Reports(found, next)|
    ensures Reports(found, next)[i].pk == next + i
  {}

  lemma {:induction false} NumbersAfter(rows: seq<DiscrepancyRow>, next: nat, keep: DiscrepancyRow -> bool, found: DiscrepancySet)
    requires Numbered(rows, next)
    ensures Numbered(Filter(rows, keep) + Reports(found, next), next + |found.fields| + |found.orphans|)
  {
    var kept, more := Filter(rows, keep), Reports(found, next);
    FilterKeepsNoRepeats(rows, keep, DiscrepancyPk);
    forall i | 0 <= i < |more| ensures more[i].pk == next + i { ReportsAreNumbered(found, next, i); }
    forall i, j | 0 <= i < |kept| && 0 <= j < |more| ensures Keys(kept, DiscrepancyPk)[i] != Keys(more, DiscrepancyPk)[j] {
      assert kept[i] in kept;
    }
    NoRepeatsConcat(Keys(kept, DiscrepancyPk), Keys(more, DiscrepancyPk));
    assert Keys(kept + more, DiscrepancyPk) == Keys(kept, DiscrepancyPk) + Keys(more, DiscrepancyPk);
  }

  lemma {:induction false} StaysWellKept(s: Store, t: Store)
    requires WellKept(s) && Indexed(t.matches, t.nextMatch) && Numbered(t.discrepancies, t.nextDiscrepancy)
    requires t.declared == s.declared && t.active == s.active && t.discovered == s.discovered
    ensures WellKept(t)
  {}

  /**
   * A run completes exactly when present resources have distinct provider ids, no confirmation joins
   * two kinds and no comparison raises; whatever it writes, no active-match index refuses a row.
   */
  lemma {:induction false} RunCompletesExactly(s: Store, tenant: Text, judge: Judge, now: int)
    requires WellKept(s)
    ensures Run(s, tenant, judge, now).Some? <==>
            ProvidersDistinct(s, tenant) && ConfirmationsOfOneKind(s, tenant) && ComparisonsSettle(s, tenant, judge)
    ensures Run(s, tenant, judge, now).Some? ==>
              var t := Run(s, tenant, judge, now).value;
              && WellKept(t)
              && t.matches == MatchesAfter(s, tenant, now)
              && t.declared == s.declared && t.active == s.active && t.discovered == s.discovered
  {
    ComputedExactly(s, tenant, judge);
    if Computed(s, tenant, judge).Some? {
      var pending, written := Pending(s, tenant, now), MatchesAfter(s, tenant, now);
      RunCommits(s, tenant, judge, now, Computed(s, tenant, judge).value.found, pending, written,
                 MatchTable(written, s.nextMatch + |pending|));
      IndexesAfter(s, tenant, now);
      NumbersAfter(s.discrepancies, s.nextDiscrepancy, KeptDiscrepancy(tenant), Computed(s, tenant, judge).value.found);
      StaysWellKept(s, Run(s, tenant, judge, now).value);
    }
  }
}
