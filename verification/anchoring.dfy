/** Decisions are about resources that may be gone; the ones whose sides are not both present decide nothing. */
module Anchoring {
  import opened Options
  import opened Sorting
  import opened Indexing
  import opened Texts
  import opened Snapshots
  import opened Matching

  /** The identities the two planes currently show. */
  datatype Present = Present(keys: set<NaturalKey>, providers: set<Option<Text>>)

  function PresentIn(declared: seq<Snapshot>, discovered: seq<Snapshot>): Present {
    Present(set d | d in declared :: d.key, set c | c in discovered :: c.providerId)
  }

  // ---------------------------------------------------------------- only anchored decisions matter

  function AnchoredIn(p: Present): Decision -> bool {
    (d: Decision) => d.declaredKey in p.keys && Some(d.providerId) in p.providers
  }

  lemma {:induction false} BoundPairsSkip(
      confirmed: seq<Decision>, declared: map<NaturalKey, Snapshot>, discovered: map<Option<Text>, Snapshot>,
      keep: Decision -> bool)
    requires forall d :: d in confirmed && !keep(d) ==> d.declaredKey !in declared || Some(d.providerId) !in discovered
    ensures BoundPairs(Filter(confirmed, keep), declared, discovered) == BoundPairs(confirmed, declared, discovered)
  {
    if confirmed != [] {
      var front, d := confirmed[..|confirmed| - 1], confirmed[|confirmed| - 1];
      assert confirmed == front + [d];
      BoundPairsSkip(front, declared, discovered, keep);
      FilterAppend(front, d, keep);
      if keep(d) {
        assert (Filter(front, keep) + [d])[..|Filter(front, keep)|] == Filter(front, keep);
      }
    }
  }

  lemma {:induction false} NaturalPairsSkip(
      keys: seq<NaturalKey>, declared: map<NaturalKey, Snapshot>, discovered: map<NaturalKey, Snapshot>,
      claimedDeclared: set<NaturalKey>, claimedDiscovered: set<NaturalKey>, r: set<Pairing>, r': set<Pairing>)
    requires forall k :: k in keys ==> k in declared && k in discovered
    requires forall k :: k in keys ==> (Refuses(r, k, discovered[k]) <==> Refuses(r', k, discovered[k]))
    ensures NaturalKeyPairs(keys, declared, discovered, claimedDeclared, claimedDiscovered, r) ==
            NaturalKeyPairs(keys, declared, discovered, claimedDeclared, claimedDiscovered, r')
  {
    if keys != [] {
      NaturalPairsSkip(keys[..|keys| - 1], declared, discovered, claimedDeclared, claimedDiscovered, r, r');
    }
  }

  lemma {:induction false} UnanchoredDoNotResolve(declared: seq<Snapshot>, discovered: seq<Snapshot>, d: Decision)
    requires !AnchoredIn(PresentIn(declared, discovered))(d)
    ensures d.declaredKey !in ByKey(declared) || Some(d.providerId) !in ByProvider(discovered)
  {
    IndexHolds(declared, KeyOfSnapshot);
    IndexHolds(Filter(discovered, IsIdentified), ProviderOf);
    if Some(d.providerId) in ByProvider(discovered) {
      assert ByProvider(discovered)[Some(d.providerId)] in discovered;
    }
    if d.declaredKey in ByKey(declared) {
      assert ByKey(declared)[d.declaredKey] in declared;
    }
  }

  lemma {:induction false} UnanchoredRefuseNothing(
      declared: seq<Snapshot>, discovered: seq<Snapshot>, decisions: seq<Decision>, k: NaturalKey)
    requires k in ByKey(declared) && k in ByKey(discovered)
    ensures var anchored := Filter(decisions, AnchoredIn(PresentIn(declared, discovered)));
            Refuses(Rejected(decisions), k, ByKey(discovered)[k]) <==> Refuses(Rejected(anchored), k, ByKey(discovered)[k])
  {
    var anchored := Filter(decisions, AnchoredIn(PresentIn(declared, discovered)));
    IndexHolds(declared, KeyOfSnapshot);
    IndexHolds(discovered, KeyOfSnapshot);
    var d, c := ByKey(declared)[k], ByKey(discovered)[k];
    assert d in declared && c in discovered;
    if c.providerId.Some? {
      RejectedMembers(decisions, k, c.providerId.value);
      RejectedMembers(anchored, k, c.providerId.value);
      assert AnchoredIn(PresentIn(declared, discovered))(Decision(k, c.providerId.value, false));
    }
  }

  lemma {:induction false} ConfirmedOfFilter(decisions: seq<Decision>, keep: Decision -> bool)
    requires NoRepeats(Keys(Filter(decisions, IsConfirmed), DecisionKey))
    ensures Confirmed(Filter(decisions, keep)) == Filter(Confirmed(decisions), keep)
  {
    FilterCommutes(decisions, keep, IsConfirmed);
    PairingsDistinct(Filter(decisions, IsConfirmed));
    PairingOrder();
    SortOfFilter(Filter(decisions, IsConfirmed), keep, PairingOf, PairingLe);
  }

  /** Matching reads only the decisions both of whose sides are present. */
  lemma {:induction false} OnlyAnchoredDecisionsMatter(
      declared: seq<Snapshot>, discovered: seq<Snapshot>, decisions: seq<Decision>)
    requires Unambiguous(declared, discovered, decisions)
    ensures MatchedResult(declared, discovered, decisions) ==
            MatchedResult(declared, discovered, Filter(decisions, AnchoredIn(PresentIn(declared, discovered))))
  {
    var keep := AnchoredIn(PresentIn(declared, discovered));
    var anchored := Filter(decisions, keep);
    ConfirmedOfFilter(decisions, keep);
    forall d | !keep(d) ensures d.declaredKey !in ByKey(declared) || Some(d.providerId) !in ByProvider(discovered) {
      UnanchoredDoNotResolve(declared, discovered, d);
    }
    BoundPairsSkip(Confirmed(decisions), ByKey(declared), ByProvider(discovered), keep);
    var bound := BoundPairs(Confirmed(decisions), ByKey(declared), ByProvider(discovered));
    var keys := SharedKeys(declared, discovered);
    forall k | k in keys
      ensures Refuses(Rejected(decisions), k, ByKey(discovered)[k]) <==> Refuses(Rejected(anchored), k, ByKey(discovered)[k])
    {
      UnanchoredRefuseNothing(declared, discovered, decisions, k);
    }
    NaturalPairsSkip(keys, ByKey(declared), ByKey(discovered), KeySet(bound, DeclaredKeyOf), KeySet(bound, DiscoveredKeyOf),
                     Rejected(decisions), Rejected(anchored));
  }
}
