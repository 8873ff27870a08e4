/** Pairing the two planes: stored bindings first, then natural keys, each claiming what it pairs. */
module Matching {
  import opened Options
  import opened Sorting
  import opened Indexing
  import opened Texts
  import opened Snapshots

  datatype Decision = Decision(declaredKey: NaturalKey, providerId: Text, confirmed: bool)

  datatype Pairing = Pairing(declaredKey: NaturalKey, providerId: Text)

  datatype Strategy = Binding | ByNaturalKey

  datatype Pair = Pair(declared: Snapshot, discovered: Snapshot, strategy: Strategy)

  datatype MatchResult = MatchResult(
    pairs: seq<Pair>, declaredOrphans: seq<Snapshot>, discoveredOrphans: seq<Snapshot>)

  /** The caller bugs the matcher refuses, in the order it looks for them. */
  datatype Refusal =
    | DuplicateDeclaredKey | DuplicateDiscoveredKey | DuplicateProviderId
    | DeclaredClaimedTwice | DiscoveredClaimedTwice

  datatype Outcome = Refused(why: Refusal) | Matched(result: MatchResult)

  function PairingOf(d: Decision): Pairing { Pairing(d.declaredKey, d.providerId) }
  function DecisionKey(d: Decision): NaturalKey { d.declaredKey }
  function DecisionProvider(d: Decision): Text { d.providerId }
  function IsConfirmed(d: Decision): bool { d.confirmed }
  function IsIdentified(s: Snapshot): bool { s.providerId.Some? }
  function DeclaredOf(p: Pair): Snapshot { p.declared }
  function DiscoveredOf(p: Pair): Snapshot { p.discovered }
  function DeclaredKeyOf(p: Pair): NaturalKey { p.declared.key }
  function DiscoveredKeyOf(p: Pair): NaturalKey { p.discovered.key }

  predicate PairingLe(a: Pairing, b: Pairing) {
    if a.declaredKey != b.declaredKey then KeyLe(a.declaredKey, b.declaredKey)
    else TextLe(a.providerId, b.providerId)
  }

  function Confirmed(decisions: seq<Decision>): seq<Decision> {
    SortBy(Filter(decisions, IsConfirmed), PairingOf, PairingLe)
  }

  function Rejected(decisions: seq<Decision>): set<Pairing> {
    set d | d in decisions && !d.confirmed :: PairingOf(d)
  }

  function ByKey(snapshots: seq<Snapshot>): map<NaturalKey, Snapshot> { Index(snapshots, KeyOfSnapshot) }

  function ByProvider(discovered: seq<Snapshot>): map<Option<Text>, Snapshot> {
    Index(Filter(discovered, IsIdentified), ProviderOf)
  }

  /** Confirmed decisions whose two sides both resolve, in decision order. */
  function BoundPairs(
      confirmed: seq<Decision>, declared: map<NaturalKey, Snapshot>, discovered: map<Option<Text>, Snapshot>): seq<Pair>
  {
    if confirmed == [] then []
    else
      var d := confirmed[|confirmed| - 1];
      BoundPairs(confirmed[..|confirmed| - 1], declared, discovered) +
      if d.declaredKey in declared && Some(d.providerId) in discovered
      then [Pair(declared[d.declaredKey], discovered[Some(d.providerId)], Binding)]
      else []
  }

  predicate Refuses(rejected: set<Pairing>, key: NaturalKey, s: Snapshot) {
    s.providerId.Some? && Pairing(key, s.providerId.value) in rejected
  }

  /** Keys both planes state, unless either side is claimed or the pairing was rejected. */
  function NaturalKeyPairs(
      keys: seq<NaturalKey>, declared: map<NaturalKey, Snapshot>, discovered: map<NaturalKey, Snapshot>,
      claimedDeclared: set<NaturalKey>, claimedDiscovered: set<NaturalKey>, rejected: set<Pairing>): seq<Pair>
    requires forall k :: k in keys ==> k in declared && k in discovered
  {
    if keys == [] then []
    else
      var k := keys[|keys| - 1];
      NaturalKeyPairs(keys[..|keys| - 1], declared, discovered, claimedDeclared, claimedDiscovered, rejected) +
      if k in claimedDeclared || k in claimedDiscovered || Refuses(rejected, k, discovered[k]) then []
      else [Pair(declared[k], discovered[k], ByNaturalKey)]
  }

  function KeysIn(m: map<NaturalKey, Snapshot>): NaturalKey -> bool { k => k in m }

  /** `sorted(declared_by_key.keys() & discovered_by_key.keys())` */
  function SharedKeys(declared: seq<Snapshot>, discovered: seq<Snapshot>): (ks: seq<NaturalKey>)
    ensures forall k :: k in ks ==> k in ByKey(declared) && k in ByKey(discovered)
  {
    var shared := Filter(Keys(declared, KeyOfSnapshot), KeysIn(ByKey(discovered)));
    var ks := SortBy(shared, Itself, KeyLe);
    assert forall k :: k in ks ==> k in ByKey(declared) && k in ByKey(discovered) by {
      SortByKeepsElements(shared, Itself, KeyLe);
      forall k | k in ks ensures k in ByKey(declared) && k in ByKey(discovered) {
        assert k in shared;
        IndexKeys(declared, KeyOfSnapshot, k);
      }
    }
    ks
  }

  function Unmatched(matched: set<NaturalKey>): Snapshot -> bool { (s: Snapshot) => s.key !in matched }

  /** One plane's snapshots whose keys were not matched, in key order. */
  function Orphans(snapshots: seq<Snapshot>, matched: set<NaturalKey>): seq<Snapshot> {
    SortBy(Filter(snapshots, Unmatched(matched)), KeyOfSnapshot, KeyLe)
  }

  function KeySet(pairs: seq<Pair>, key: Pair -> NaturalKey): set<NaturalKey> { set p | p in pairs :: key(p) }

  /** What the matcher computes from inputs it does not refuse. */
  function MatchedResult(declared: seq<Snapshot>, discovered: seq<Snapshot>, decisions: seq<Decision>): MatchResult {
    var bound := BoundPairs(Confirmed(decisions), ByKey(declared), ByProvider(discovered));
    var natural := NaturalKeyPairs(
      SharedKeys(declared, discovered), ByKey(declared), ByKey(discovered),
      KeySet(bound, DeclaredKeyOf), KeySet(bound, DiscoveredKeyOf), Rejected(decisions));
    var pairs := bound + natural;
    MatchResult(
      pairs,
      Orphans(declared, KeySet(pairs, DeclaredKeyOf)),
      Orphans(discovered, KeySet(pairs, DiscoveredKeyOf)))
  }

  function Match(declared: seq<Snapshot>, discovered: seq<Snapshot>, decisions: seq<Decision>): Outcome {
    var confirmed := Confirmed(decisions);
    if |ByKey(declared)| != |declared| then Refused(DuplicateDeclaredKey)
    else if |ByKey(discovered)| != |discovered| then Refused(DuplicateDiscoveredKey)
    else if |ByProvider(discovered)| != |Filter(discovered, IsIdentified)| then Refused(DuplicateProviderId)
    else if |Index(confirmed, DecisionKey)| != |confirmed| then Refused(DeclaredClaimedTwice)
    else if |Index(confirmed, DecisionProvider)| != |confirmed| then Refused(DiscoveredClaimedTwice)
    else Matched(MatchedResult(declared, discovered, decisions))
  }

  // ---------------------------------------------------------------- the loops

  method BoundPairsLoop(
      confirmed: seq<Decision>, declared: map<NaturalKey, Snapshot>, discovered: map<Option<Text>, Snapshot>)
    returns (pairs: seq<Pair>)
    ensures pairs == BoundPairs(confirmed, declared, discovered)
  {
    pairs := [];
    for i := 0 to |confirmed|
      invariant pairs == BoundPairs(confirmed[..i], declared, discovered)
    {
      assert confirmed[..i + 1][..i] == confirmed[..i];
      var d := confirmed[i];
      if d.declaredKey in declared && Some(d.providerId) in discovered {
        pairs := pairs + [Pair(declared[d.declaredKey], discovered[Some(d.providerId)], Binding)];
      }
    }
    assert confirmed[..|confirmed|] == confirmed;
  }

  method NaturalKeyPairsLoop(
      keys: seq<NaturalKey>, declared: map<NaturalKey, Snapshot>, discovered: map<NaturalKey, Snapshot>,
      claimedDeclared: set<NaturalKey>, claimedDiscovered: set<NaturalKey>, rejected: set<Pairing>)
    returns (pairs: seq<Pair>)
    requires forall k :: k in keys ==> k in declared && k in discovered
    ensures pairs == NaturalKeyPairs(keys, declared, discovered, claimedDeclared, claimedDiscovered, rejected)
  {
    pairs := [];
    for i := 0 to |keys|
      invariant pairs == NaturalKeyPairs(keys[..i], declared, discovered, claimedDeclared, claimedDiscovered, rejected)
    {
      assert keys[..i + 1][..i] == keys[..i];
      var k := keys[i];
      if k in claimedDeclared || k in claimedDiscovered {
        continue;
      }
      if Refuses(rejected, k, discovered[k]) {
        continue;
      }
      pairs := pairs + [Pair(declared[k], discovered[k], ByNaturalKey)];
    }
    assert keys[..|keys|] == keys;
  }

  method ByProviderLoop(discovered: seq<Snapshot>)
    returns (byProvider: map<Option<Text>, Snapshot>, identified: nat)
    ensures byProvider == ByProvider(discovered)
    ensures identified == |Filter(discovered, IsIdentified)|
  {
    byProvider, identified := map[], 0;
    for i := 0 to |discovered|
      invariant byProvider == Index(Filter(discovered[..i], IsIdentified), ProviderOf)
      invariant identified == |Filter(discovered[..i], IsIdentified)|
    {
      var s := discovered[i];
      assert discovered[..i + 1][..i] == discovered[..i];
      ghost var before := Filter(discovered[..i], IsIdentified);
      if s.providerId == None {
        assert Filter(discovered[..i + 1], IsIdentified) == before;
        continue;
      }
      IndexAppend(before, s, ProviderOf);
      assert Filter(discovered[..i + 1], IsIdentified) == before + [s];
      identified := identified + 1;
      byProvider := byProvider[s.providerId := s];
    }
    assert discovered[..|discovered|] == discovered;
  }

  method MatchResources(declared: seq<Snapshot>, discovered: seq<Snapshot>, decisions: seq<Decision>)
    returns (outcome: Outcome)
    ensures outcome == Match(declared, discovered, decisions)
  {
    var declaredByKey, discoveredByKey := ByKey(declared), ByKey(discovered);
    if |declaredByKey| != |declared| { return Refused(DuplicateDeclaredKey); }
    if |discoveredByKey| != |discovered| { return Refused(DuplicateDiscoveredKey); }
    var byProvider, identified := ByProviderLoop(discovered);
    if |byProvider| != identified { return Refused(DuplicateProviderId); }
    var confirmed, rejected := Confirmed(decisions), Rejected(decisions);
    if |Index(confirmed, DecisionKey)| != |confirmed| { return Refused(DeclaredClaimedTwice); }
    if |Index(confirmed, DecisionProvider)| != |confirmed| { return Refused(DiscoveredClaimedTwice); }
    var bound := BoundPairsLoop(confirmed, declaredByKey, byProvider);
    var remaining := NaturalKeyPairsLoop(
      SharedKeys(declared, discovered), declaredByKey, discoveredByKey,
      KeySet(bound, DeclaredKeyOf), KeySet(bound, DiscoveredKeyOf), rejected);
    var pairs := bound + remaining;
    return Matched(MatchResult(
      pairs,
      Orphans(declared, KeySet(pairs, DeclaredKeyOf)),
      Orphans(discovered, KeySet(pairs, DiscoveredKeyOf))));
  }

  // ---------------------------------------------------------------- what is refused

  /** One identity per resource on each plane, and one confirmed decision per side. */
  ghost predicate Unambiguous(declared: seq<Snapshot>, discovered: seq<Snapshot>, decisions: seq<Decision>) {
    && NoRepeats(Keys(declared, KeyOfSnapshot))
    && NoRepeats(Keys(discovered, KeyOfSnapshot))
    && NoRepeats(Keys(Filter(discovered, IsIdentified), ProviderOf))
    && NoRepeats(Keys(Filter(decisions, IsConfirmed), DecisionKey))
    && NoRepeats(Keys(Filter(decisions, IsConfirmed), DecisionProvider))
  }

  lemma {:induction false} NoRepeatsOfMultiset<T(!new), K>(xs: seq<T>, ys: seq<T>, key: T -> K)
    requires multiset(xs) == multiset(ys) && NoRepeats(Keys(xs, key))
    ensures NoRepeats(Keys(ys, key))
  {
    KeysOfMultiset(xs, ys, key);
    var ks, ls := Keys(xs, key), Keys(ys, key);
    forall i, j | 0 <= i < j < |ls| ensures ls[i] != ls[j] {
      if ls[i] == ls[j] { TwiceCounts(ls, i, j); }
      CountOnce(ks, ls[i]);
    }
  }

  lemma {:induction false} SortedSameRepeats<T(!new), K, L>(xs: seq<T>, key: T -> K, le: (K, K) -> bool, other: T -> L)
    ensures NoRepeats(Keys(SortBy(xs, key, le), other)) <==> NoRepeats(Keys(xs, other))
  {
    if NoRepeats(Keys(xs, other)) { NoRepeatsOfMultiset(xs, SortBy(xs, key, le), other); }
    if NoRepeats(Keys(SortBy(xs, key, le), other)) { NoRepeatsOfMultiset(SortBy(xs, key, le), xs, other); }
  }

  /** The matcher refuses exactly the ambiguous inputs. */
  lemma {:induction false} RefusedExactlyWhenAmbiguous(
      declared: seq<Snapshot>, discovered: seq<Snapshot>, decisions: seq<Decision>)
    ensures Match(declared, discovered, decisions).Matched? <==> Unambiguous(declared, discovered, decisions)
  {
    var confirmed := Filter(decisions, IsConfirmed);
    CardinalityDetectsRepeats(declared, KeyOfSnapshot);
    CardinalityDetectsRepeats(discovered, KeyOfSnapshot);
    CardinalityDetectsRepeats(Filter(discovered, IsIdentified), ProviderOf);
    CardinalityDetectsRepeats(Confirmed(decisions), DecisionKey);
    CardinalityDetectsRepeats(Confirmed(decisions), DecisionProvider);
    SortedSameRepeats(confirmed, PairingOf, PairingLe, DecisionKey);
    SortedSameRepeats(confirmed, PairingOf, PairingLe, DecisionProvider);
  }

  /** Which refusal: the first identity found to repeat, declared keys first and the sides of confirmations last. */
  lemma {:induction false} RefusalNamesTheFirst(declared: seq<Snapshot>, discovered: seq<Snapshot>, decisions: seq<Decision>)
    requires Match(declared, discovered, decisions).Refused?
    ensures Match(declared, discovered, decisions).why ==
            if !NoRepeats(Keys(declared, KeyOfSnapshot)) then DuplicateDeclaredKey
            else if !NoRepeats(Keys(discovered, KeyOfSnapshot)) then DuplicateDiscoveredKey
            else if !NoRepeats(Keys(Filter(discovered, IsIdentified), ProviderOf)) then DuplicateProviderId
            else if !NoRepeats(Keys(Filter(decisions, IsConfirmed), DecisionKey)) then DeclaredClaimedTwice
            else DiscoveredClaimedTwice
  {
    var confirmed := Filter(decisions, IsConfirmed);
    CardinalityDetectsRepeats(declared, KeyOfSnapshot);
    CardinalityDetectsRepeats(discovered, KeyOfSnapshot);
    CardinalityDetectsRepeats(Filter(discovered, IsIdentified), ProviderOf);
    CardinalityDetectsRepeats(Confirmed(decisions), DecisionKey);
    SortedSameRepeats(confirmed, PairingOf, PairingLe, DecisionKey);
  }

  // ---------------------------------------------------------------- which pairs are made

  /** A confirmed decision names both sides of the pair. */
  ghost predicate IsBound(p: Pair, declared: seq<Snapshot>, discovered: seq<Snapshot>, decisions: seq<Decision>) {
    && p.strategy == Binding
    && p.declared in declared
    && p.discovered in discovered
    && p.discovered.providerId.Some?
    && Decision(p.declared.key, p.discovered.providerId.value, true) in decisions
  }

  ghost predicate ClaimsDeclared(k: NaturalKey, declared: seq<Snapshot>, discovered: seq<Snapshot>, decisions: seq<Decision>) {
    exists p :: IsBound(p, declared, discovered, decisions) && p.declared.key == k
  }

  ghost predicate ClaimsDiscovered(k: NaturalKey, declared: seq<Snapshot>, discovered: seq<Snapshot>, decisions: seq<Decision>) {
    exists p :: IsBound(p, declared, discovered, decisions) && p.discovered.key == k
  }

  /** Both planes state one key, no binding claims either side, and nobody rejected the pairing. */
  ghost predicate IsNatural(p: Pair, declared: seq<Snapshot>, discovered: seq<Snapshot>, decisions: seq<Decision>) {
    && p.strategy == ByNaturalKey
    && p.declared in declared
    && p.discovered in discovered
    && p.declared.key == p.discovered.key
    && !ClaimsDeclared(p.declared.key, declared, discovered, decisions)
    && !ClaimsDiscovered(p.declared.key, declared, discovered, decisions)
    && (p.discovered.providerId.Some? ==>
          Decision(p.declared.key, p.discovered.providerId.value, false) !in decisions)
  }

  lemma {:induction false} BoundPairFrom(
      confirmed: seq<Decision>, declared: map<NaturalKey, Snapshot>, discovered: map<Option<Text>, Snapshot>, p: Pair)
    ensures p in BoundPairs(confirmed, declared, discovered) <==>
            exists d :: d in confirmed && d.declaredKey in declared && Some(d.providerId) in discovered &&
                        p == Pair(declared[d.declaredKey], discovered[Some(d.providerId)], Binding)
  {
    if confirmed != [] {
      var front, last := confirmed[..|confirmed| - 1], confirmed[|confirmed| - 1];
      BoundPairFrom(front, declared, discovered, p);
      assert confirmed == front + [last];
    }
  }

  lemma {:induction false} NaturalPairFrom(
      keys: seq<NaturalKey>, declared: map<NaturalKey, Snapshot>, discovered: map<NaturalKey, Snapshot>,
      claimedDeclared: set<NaturalKey>, claimedDiscovered: set<NaturalKey>, rejected: set<Pairing>, p: Pair)
    requires forall k :: k in keys ==> k in declared && k in discovered
    ensures p in NaturalKeyPairs(keys, declared, discovered, claimedDeclared, claimedDiscovered, rejected) <==>
            exists k :: k in keys && k !in claimedDeclared && k !in claimedDiscovered &&
                        !Refuses(rejected, k, discovered[k]) &&
                        p == Pair(declared[k], discovered[k], ByNaturalKey)
  {
    if keys != [] {
      var front, last := keys[..|keys| - 1], keys[|keys| - 1];
      NaturalPairFrom(front, declared, discovered, claimedDeclared, claimedDiscovered, rejected, p);
      assert forall k :: k in keys <==> k in front || k == last by { assert keys == front + [last]; }
    }
  }

  lemma {:induction false} ConfirmedMembers(decisions: seq<Decision>)
    ensures forall d :: d in Confirmed(decisions) <==> d in decisions && d.confirmed
  {
    SortByKeepsElements(Filter(decisions, IsConfirmed), PairingOf, PairingLe);
  }

  lemma {:induction false} BoundPairsAreBound(
      declared: seq<Snapshot>, discovered: seq<Snapshot>, decisions: seq<Decision>, p: Pair)
    requires Unambiguous(declared, discovered, decisions)
    ensures p in BoundPairs(Confirmed(decisions), ByKey(declared), ByProvider(discovered)) <==>
            IsBound(p, declared, discovered, decisions)
  {
    var identified := Filter(discovered, IsIdentified);
    ConfirmedMembers(decisions);
    BoundPairFrom(Confirmed(decisions), ByKey(declared), ByProvider(discovered), p);
    IndexHolds(declared, KeyOfSnapshot);
    IndexHolds(identified, ProviderOf);
    if IsBound(p, declared, discovered, decisions) {
      IndexFinds(declared, KeyOfSnapshot, p.declared);
      IndexFinds(identified, ProviderOf, p.discovered);
      var d := Decision(p.declared.key, p.discovered.providerId.value, true);
      assert d in Confirmed(decisions);
    }
  }

  lemma {:induction false} SharedKeyMembers(declared: seq<Snapshot>, discovered: seq<Snapshot>, k: NaturalKey)
    ensures k in SharedKeys(declared, discovered) <==> k in ByKey(declared) && k in ByKey(discovered)
  {
    var shared := Filter(Keys(declared, KeyOfSnapshot), KeysIn(ByKey(discovered)));
    SortByKeepsElements(shared, Itself, KeyLe);
    IndexKeys(declared, KeyOfSnapshot, k);
  }

  lemma {:induction false} BoundClaims(
      declared: seq<Snapshot>, discovered: seq<Snapshot>, decisions: seq<Decision>, k: NaturalKey)
    requires Unambiguous(declared, discovered, decisions)
    ensures var bound := BoundPairs(Confirmed(decisions), ByKey(declared), ByProvider(discovered));
            && (k in KeySet(bound, DeclaredKeyOf) <==> ClaimsDeclared(k, declared, discovered, decisions))
            && (k in KeySet(bound, DiscoveredKeyOf) <==> ClaimsDiscovered(k, declared, discovered, decisions))
  {
    var bound := BoundPairs(Confirmed(decisions), ByKey(declared), ByProvider(discovered));
    forall p ensures p in bound <==> IsBound(p, declared, discovered, decisions) {
      BoundPairsAreBound(declared, discovered, decisions, p);
    }
  }

  lemma {:induction false} RejectedMembers(decisions: seq<Decision>, k: NaturalKey, provider: Text)
    ensures Pairing(k, provider) in Rejected(decisions) <==> Decision(k, provider, false) in decisions
  {
    if Decision(k, provider, false) in decisions {
      assert PairingOf(Decision(k, provider, false)) == Pairing(k, provider);
    }
  }

  /** A natural pair is found under its own key. */
  lemma {:induction false} NaturalPairAt(
      keys: seq<NaturalKey>, declared: map<NaturalKey, Snapshot>, discovered: map<NaturalKey, Snapshot>,
      claimedDeclared: set<NaturalKey>, claimedDiscovered: set<NaturalKey>, rejected: set<Pairing>, p: Pair, k: NaturalKey)
    requires forall x :: x in keys ==> x in declared && x in discovered
    requires (forall x :: x in declared ==> declared[x].key == x) && k == p.declared.key
    ensures p in NaturalKeyPairs(keys, declared, discovered, claimedDeclared, claimedDiscovered, rejected) <==>
            k in keys && k !in claimedDeclared && k !in claimedDiscovered &&
            !Refuses(rejected, k, discovered[k]) && p == Pair(declared[k], discovered[k], ByNaturalKey)
  {
    NaturalPairFrom(keys, declared, discovered, claimedDeclared, claimedDiscovered, rejected, p);
  }

  lemma {:induction false} NaturalPairsAreNatural(
      declared: seq<Snapshot>, discovered: seq<Snapshot>, decisions: seq<Decision>, p: Pair)
    requires Unambiguous(declared, discovered, decisions)
    ensures var bound := BoundPairs(Confirmed(decisions), ByKey(declared), ByProvider(discovered));
            p in NaturalKeyPairs(SharedKeys(declared, discovered), ByKey(declared), ByKey(discovered),
                                 KeySet(bound, DeclaredKeyOf), KeySet(bound, DiscoveredKeyOf), Rejected(decisions))
            <==> IsNatural(p, declared, discovered, decisions)
  {
    var bound := BoundPairs(Confirmed(decisions), ByKey(declared), ByProvider(discovered));
    var k := p.declared.key;
    IndexHolds(declared, KeyOfSnapshot);
    IndexHolds(discovered, KeyOfSnapshot);
    NaturalPairAt(SharedKeys(declared, discovered), ByKey(declared), ByKey(discovered),
                  KeySet(bound, DeclaredKeyOf), KeySet(bound, DiscoveredKeyOf), Rejected(decisions), p, k);
    SharedKeyMembers(declared, discovered, k);
    BoundClaims(declared, discovered, decisions, k);
    if p.discovered.providerId.Some? { RejectedMembers(decisions, k, p.discovered.providerId.value); }
    if IsNatural(p, declared, discovered, decisions) {
      IndexFinds(declared, KeyOfSnapshot, p.declared);
      IndexFinds(discovered, KeyOfSnapshot, p.discovered);
      assert k in SharedKeys(declared, discovered);
    }
  }

  /** The pairs made are exactly the bound ones and the natural ones. */
  lemma {:induction false} PairsCharacterized(
      declared: seq<Snapshot>, discovered: seq<Snapshot>, decisions: seq<Decision>, p: Pair)
    requires Unambiguous(declared, discovered, decisions)
    ensures p in MatchedResult(declared, discovered, decisions).pairs <==>
            IsBound(p, declared, discovered, decisions) || IsNatural(p, declared, discovered, decisions)
  {
    BoundPairsAreBound(declared, discovered, decisions, p);
    NaturalPairsAreNatural(declared, discovered, decisions, p);
  }

  // ---------------------------------------------------------------- nothing is paired twice or lost

  /** Each of the listed elements appears in exactly one of the two parts, and nothing else does. */
  ghost predicate Partitions<T>(whole: seq<T>, some: seq<T>, others: seq<T>) {
    multiset(whole) == multiset(some) + multiset(others)
  }

  lemma {:induction false} PartitionFromKeys(
      snapshots: seq<Snapshot>, pairs: seq<Pair>, side: Pair -> Snapshot, sideKey: Pair -> NaturalKey)
    requires forall p :: sideKey(p) == side(p).key
    requires NoRepeats(Keys(snapshots, KeyOfSnapshot)) && NoRepeats(Keys(pairs, sideKey))
    requires forall p :: p in pairs ==> side(p) in snapshots
    ensures Partitions(snapshots, Keys(pairs, side), Orphans(snapshots, KeySet(pairs, sideKey)))
  {
    var matched := KeySet(pairs, sideKey);
    var kept, orphans := Keys(pairs, side), Orphans(snapshots, matched);
    var left := Filter(snapshots, Unmatched(matched));
    FilterKeepsNoRepeats(snapshots, Unmatched(matched), KeyOfSnapshot);
    SortByNoRepeats(left, KeyOfSnapshot, KeyLe);
    SortByKeepsElements(left, KeyOfSnapshot, KeyLe);
    ElementsFromKeys(snapshots, KeyOfSnapshot);
    ElementsFromKeys(orphans, KeyOfSnapshot);
    assert Keys(kept, KeyOfSnapshot) == Keys(pairs, sideKey);
    ElementsFromKeys(kept, KeyOfSnapshot);
    var all := kept + orphans;
    forall s ensures s in snapshots <==> s in all {
      assert s in all <==> s in kept || s in orphans;
      if s in snapshots && s !in orphans {
        assert s.key in matched;
        var p :| p in pairs && sideKey(p) == s.key;
        SameKeySameSnapshot(snapshots, s, side(p));
        var i :| 0 <= i < |pairs| && pairs[i] == p;
        assert kept[i] == s;
      }
      if s in kept {
        var i :| 0 <= i < |pairs| && kept[i] == s;
        assert pairs[i] in pairs;
      }
    }
    forall i, j | 0 <= i < |kept| && 0 <= j < |orphans| ensures kept[i] != orphans[j] {
      assert pairs[i] in pairs && orphans[j] in orphans;
      assert orphans[j] in left;
    }
    NoRepeatsConcat(kept, orphans);
    NoRepeatsMultiset(snapshots, all);
  }

  lemma {:induction false} NoRepeatsConcat<T>(xs: seq<T>, ys: seq<T>)
    requires NoRepeats(xs) && NoRepeats(ys)
    requires forall i, j :: 0 <= i < |xs| && 0 <= j < |ys| ==> xs[i] != ys[j]
    ensures NoRepeats(xs + ys)
  {}

  lemma {:induction false} SameKeySameSnapshot(snapshots: seq<Snapshot>, s: Snapshot, t: Snapshot)
    requires NoRepeats(Keys(snapshots, KeyOfSnapshot)) && s in snapshots && t in snapshots && s.key == t.key
    ensures s == t
  {
    IndexFinds(snapshots, KeyOfSnapshot, s);
    IndexFinds(snapshots, KeyOfSnapshot, t);
  }

  lemma {:induction false} BoundPairsDistinct(
      confirmed: seq<Decision>, declared: seq<Snapshot>, discovered: seq<Snapshot>)
    requires NoRepeats(Keys(confirmed, DecisionKey)) && NoRepeats(Keys(confirmed, DecisionProvider))
    requires NoRepeats(Keys(discovered, KeyOfSnapshot))
    ensures NoRepeats(Keys(BoundPairs(confirmed, ByKey(declared), ByProvider(discovered)), DeclaredKeyOf))
    ensures NoRepeats(Keys(BoundPairs(confirmed, ByKey(declared), ByProvider(discovered)), DiscoveredKeyOf))
  {
    if confirmed != [] {
      var front, d := confirmed[..|confirmed| - 1], confirmed[|confirmed| - 1];
      assert Keys(confirmed, DecisionKey) == Keys(front, DecisionKey) + [d.declaredKey];
      assert Keys(confirmed, DecisionProvider) == Keys(front, DecisionProvider) + [d.providerId];
      NoRepeatsAppend(Keys(front, DecisionKey), d.declaredKey);
      NoRepeatsAppend(Keys(front, DecisionProvider), d.providerId);
      BoundPairsDistinct(front, declared, discovered);
      var before := BoundPairs(front, ByKey(declared), ByProvider(discovered));
      if d.declaredKey in ByKey(declared) && Some(d.providerId) in ByProvider(discovered) {
        var p := Pair(ByKey(declared)[d.declaredKey], ByProvider(discovered)[Some(d.providerId)], Binding);
        LastBindingIsNew(front, d, declared, discovered);
        assert Keys(before + [p], DeclaredKeyOf) == Keys(before, DeclaredKeyOf) + [p.declared.key];
        assert Keys(before + [p], DiscoveredKeyOf) == Keys(before, DiscoveredKeyOf) + [p.discovered.key];
        NoRepeatsAppend(Keys(before, DeclaredKeyOf), p.declared.key);
        NoRepeatsAppend(Keys(before, DiscoveredKeyOf), p.discovered.key);
      }
    }
  }

  lemma {:induction false} LastBindingIsNew(
      front: seq<Decision>, d: Decision, declared: seq<Snapshot>, discovered: seq<Snapshot>)
    requires d.declaredKey !in Keys(front, DecisionKey) && d.providerId !in Keys(front, DecisionProvider)
    requires NoRepeats(Keys(discovered, KeyOfSnapshot))
    requires d.declaredKey in ByKey(declared) && Some(d.providerId) in ByProvider(discovered)
    ensures var before := BoundPairs(front, ByKey(declared), ByProvider(discovered));
            && ByKey(declared)[d.declaredKey].key !in Keys(before, DeclaredKeyOf)
            && ByProvider(discovered)[Some(d.providerId)].key !in Keys(before, DiscoveredKeyOf)
  {
    var before := BoundPairs(front, ByKey(declared), ByProvider(discovered));
    IndexHolds(declared, KeyOfSnapshot);
    IndexHolds(Filter(discovered, IsIdentified), ProviderOf);
    var s := ByProvider(discovered)[Some(d.providerId)];
    forall i | 0 <= i < |before|
      ensures before[i].declared.key != d.declaredKey && before[i].discovered.key != s.key
    {
      BoundPairFrom(front, ByKey(declared), ByProvider(discovered), before[i]);
      assert before[i] in before;
      var e :| e in front && e.declaredKey in ByKey(declared) && Some(e.providerId) in ByProvider(discovered) &&
               before[i] == Pair(ByKey(declared)[e.declaredKey], ByProvider(discovered)[Some(e.providerId)], Binding);
      var n :| 0 <= n < |front| && front[n] == e;
      assert Keys(front, DecisionKey)[n] == e.declaredKey && Keys(front, DecisionProvider)[n] == e.providerId;
      if before[i].discovered.key == s.key { SameKeySameSnapshot(discovered, before[i].discovered, s); }
    }
  }

  lemma {:induction false} NaturalPairsDistinct(
      keys: seq<NaturalKey>, declared: map<NaturalKey, Snapshot>, discovered: map<NaturalKey, Snapshot>,
      claimedDeclared: set<NaturalKey>, claimedDiscovered: set<NaturalKey>, rejected: set<Pairing>)
    requires NoRepeats(keys) && forall k :: k in keys ==> k in declared && k in discovered
    requires forall k :: k in keys ==> declared[k].key == k && discovered[k].key == k
    ensures var pairs := NaturalKeyPairs(keys, declared, discovered, claimedDeclared, claimedDiscovered, rejected);
            && Keys(pairs, DeclaredKeyOf) == Keys(pairs, DiscoveredKeyOf)
            && NoRepeats(Keys(pairs, DeclaredKeyOf))
            && (forall k :: k in Keys(pairs, DeclaredKeyOf) ==> k in keys && k !in claimedDeclared && k !in claimedDiscovered)
  {
    if keys != [] {
      var front, k := keys[..|keys| - 1], keys[|keys| - 1];
      assert keys == front + [k];
      NoRepeatsAppend(front, k);
      NaturalPairsDistinct(front, declared, discovered, claimedDeclared, claimedDiscovered, rejected);
      var before := NaturalKeyPairs(front, declared, discovered, claimedDeclared, claimedDiscovered, rejected);
      if !(k in claimedDeclared || k in claimedDiscovered || Refuses(rejected, k, discovered[k])) {
        var p := Pair(declared[k], discovered[k], ByNaturalKey);
        assert Keys(before + [p], DeclaredKeyOf) == Keys(before, DeclaredKeyOf) + [k];
        assert Keys(before + [p], DiscoveredKeyOf) == Keys(before, DiscoveredKeyOf) + [k];
        NoRepeatsAppend(Keys(before, DeclaredKeyOf), k);
      }
    }
  }

  /** No pairing claims a resource that another pairing of the run has claimed. */
  lemma {:induction false} PairsAreOneToOne(
      declared: seq<Snapshot>, discovered: seq<Snapshot>, decisions: seq<Decision>)
    requires Unambiguous(declared, discovered, decisions)
    ensures var pairs := MatchedResult(declared, discovered, decisions).pairs;
            && NoRepeats(Keys(pairs, DeclaredKeyOf))
            && NoRepeats(Keys(pairs, DiscoveredKeyOf))
  {
    var confirmed := Filter(decisions, IsConfirmed);
    SortedSameRepeats(confirmed, PairingOf, PairingLe, DecisionKey);
    SortedSameRepeats(confirmed, PairingOf, PairingLe, DecisionProvider);
    BoundPairsDistinct(Confirmed(decisions), declared, discovered);
    var bound := BoundPairs(Confirmed(decisions), ByKey(declared), ByProvider(discovered));
    var keys := SharedKeys(declared, discovered);
    SharedKeysDistinct(declared, discovered);
    IndexHolds(declared, KeyOfSnapshot);
    IndexHolds(discovered, KeyOfSnapshot);
    NaturalPairsDistinct(keys, ByKey(declared), ByKey(discovered),
                         KeySet(bound, DeclaredKeyOf), KeySet(bound, DiscoveredKeyOf), Rejected(decisions));
    var natural := NaturalKeyPairs(keys, ByKey(declared), ByKey(discovered),
                                   KeySet(bound, DeclaredKeyOf), KeySet(bound, DiscoveredKeyOf), Rejected(decisions));
    SidesDistinct(bound, natural, DeclaredKeyOf, KeySet(bound, DeclaredKeyOf));
    SidesDistinct(bound, natural, DiscoveredKeyOf, KeySet(bound, DiscoveredKeyOf));
  }

  lemma {:induction false} SidesDistinct(
      bound: seq<Pair>, natural: seq<Pair>, key: Pair -> NaturalKey, claimed: set<NaturalKey>)
    requires NoRepeats(Keys(bound, key)) && NoRepeats(Keys(natural, key)) && claimed == KeySet(bound, key)
    requires forall k :: k in Keys(natural, key) ==> k !in claimed
    ensures NoRepeats(Keys(bound + natural, key))
  {
    assert Keys(bound + natural, key) == Keys(bound, key) + Keys(natural, key);
    forall i, j | 0 <= i < |bound| && 0 <= j < |natural| ensures Keys(bound, key)[i] != Keys(natural, key)[j] {
      assert bound[i] in bound;
      assert Keys(natural, key)[j] in Keys(natural, key);
    }
    NoRepeatsConcat(Keys(bound, key), Keys(natural, key));
  }

  lemma {:induction false} SharedKeysDistinct(declared: seq<Snapshot>, discovered: seq<Snapshot>)
    requires NoRepeats(Keys(declared, KeyOfSnapshot))
    ensures NoRepeats(SharedKeys(declared, discovered))
  {
    var ks := Keys(declared, KeyOfSnapshot);
    KeysOfItself(ks);
    FilterKeepsNoRepeats(ks, KeysIn(ByKey(discovered)), Itself);
    SortByNoRepeats(Filter(ks, KeysIn(ByKey(discovered))), Itself, KeyLe);
    KeysOfItself(SharedKeys(declared, discovered));
  }

  /** Every resource of each plane is paired once or orphaned once. */
  lemma {:induction false} PlanesArePartitioned(
      declared: seq<Snapshot>, discovered: seq<Snapshot>, decisions: seq<Decision>)
    requires Unambiguous(declared, discovered, decisions)
    ensures var r := MatchedResult(declared, discovered, decisions);
            && Partitions(declared, Keys(r.pairs, DeclaredOf), r.declaredOrphans)
            && Partitions(discovered, Keys(r.pairs, DiscoveredOf), r.discoveredOrphans)
  {
    var pairs := MatchedResult(declared, discovered, decisions).pairs;
    PairsAreOneToOne(declared, discovered, decisions);
    forall p | p in pairs ensures p.declared in declared && p.discovered in discovered {
      PairsCharacterized(declared, discovered, decisions, p);
    }
    PartitionFromKeys(declared, pairs, DeclaredOf, DeclaredKeyOf);
    PartitionFromKeys(discovered, pairs, DiscoveredOf, DiscoveredKeyOf);
  }

  // ---------------------------------------------------------------- the order of the inputs is invisible

  lemma {:induction false} PairingOrder()
    ensures TotalOrder(PairingLe)
  {
    KeyOrder();
    TextOrder();
    forall a, b ensures PairingLe(a, b) || PairingLe(b, a) {
      assert KeyLe(a.declaredKey, b.declaredKey) || KeyLe(b.declaredKey, a.declaredKey);
      assert TextLe(a.providerId, b.providerId) || TextLe(b.providerId, a.providerId);
    }
    forall a, b | PairingLe(a, b) && PairingLe(b, a) ensures a == b {
      assert KeyLe(a.declaredKey, b.declaredKey) && KeyLe(b.declaredKey, a.declaredKey) ==> a.declaredKey == b.declaredKey;
      assert TextLe(a.providerId, b.providerId) && TextLe(b.providerId, a.providerId) ==> a.providerId == b.providerId;
    }
    forall a, b, c | PairingLe(a, b) && PairingLe(b, c) ensures PairingLe(a, c) {
      assert KeyLe(a.declaredKey, b.declaredKey) && KeyLe(b.declaredKey, c.declaredKey) ==> KeyLe(a.declaredKey, c.declaredKey);
      assert KeyLe(a.declaredKey, b.declaredKey) && KeyLe(b.declaredKey, a.declaredKey) ==> a.declaredKey == b.declaredKey;
      assert TextLe(a.providerId, b.providerId) && TextLe(b.providerId, c.providerId) ==> TextLe(a.providerId, c.providerId);
    }
  }

  lemma {:induction false} ConfirmedForgetsOrder(ds: seq<Decision>, es: seq<Decision>)
    requires multiset(ds) == multiset(es) && NoRepeats(Keys(Filter(ds, IsConfirmed), DecisionKey))
    requires NoRepeats(Keys(Filter(es, IsConfirmed), DecisionKey))
    ensures Confirmed(ds) == Confirmed(es) && Rejected(ds) == Rejected(es)
  {
    SameElements(ds, es);
    var cs, fs := Filter(ds, IsConfirmed), Filter(es, IsConfirmed);
    PairingsDistinct(cs);
    PairingsDistinct(fs);
    PairingOrder();
    SortByIgnoresOrder(cs, fs, PairingOf, PairingLe);
  }

  lemma {:induction false} PairingsDistinct(ds: seq<Decision>)
    requires NoRepeats(Keys(ds, DecisionKey))
    ensures NoRepeats(Keys(ds, PairingOf))
  {
    forall i, j | 0 <= i < j < |ds| ensures Keys(ds, PairingOf)[i] != Keys(ds, PairingOf)[j] {
      assert Keys(ds, DecisionKey)[i] != Keys(ds, DecisionKey)[j];
    }
  }

  lemma {:induction false} OrphansForgetOrder(xs: seq<Snapshot>, ys: seq<Snapshot>, matched: set<NaturalKey>)
    requires NoRepeats(Keys(xs, KeyOfSnapshot)) && NoRepeats(Keys(ys, KeyOfSnapshot))
    requires forall s :: s in xs <==> s in ys
    ensures Orphans(xs, matched) == Orphans(ys, matched)
  {
    KeyOrder();
    FilterKeepsNoRepeats(xs, Unmatched(matched), KeyOfSnapshot);
    FilterKeepsNoRepeats(ys, Unmatched(matched), KeyOfSnapshot);
    SortByIgnoresOrder(Filter(xs, Unmatched(matched)), Filter(ys, Unmatched(matched)), KeyOfSnapshot, KeyLe);
  }

  lemma {:induction false} FilterForgetsOrder<T(!new), K>(xs: seq<T>, ys: seq<T>, keep: T -> bool, key: T -> K)
    requires multiset(xs) == multiset(ys) && NoRepeats(Keys(Filter(xs, keep), key))
    ensures NoRepeats(Keys(Filter(ys, keep), key))
  {
    FilterCounts(xs, keep);
    FilterCounts(ys, keep);
    assert multiset(Filter(xs, keep)) == multiset(Filter(ys, keep)) by {
      forall x ensures multiset(Filter(xs, keep))[x] == multiset(Filter(ys, keep))[x] {}
    }
    NoRepeatsOfMultiset(Filter(xs, keep), Filter(ys, keep), key);
  }

  lemma {:induction false} FilterCounts<T(!new)>(xs: seq<T>, keep: T -> bool)
    ensures forall x :: multiset(Filter(xs, keep))[x] == if keep(x) then multiset(xs)[x] else 0
  {
    if xs != [] {
      FilterCounts(xs[..|xs| - 1], keep);
      assert xs == xs[..|xs| - 1] + [xs[|xs| - 1]];
    }
  }

  lemma {:induction false} UnambiguousForgetsOrder(
      declared: seq<Snapshot>, declared': seq<Snapshot>, discovered: seq<Snapshot>, discovered': seq<Snapshot>,
      decisions: seq<Decision>, decisions': seq<Decision>)
    requires multiset(declared) == multiset(declared') && multiset(discovered) == multiset(discovered')
    requires multiset(decisions) == multiset(decisions')
    requires Unambiguous(declared, discovered, decisions)
    ensures Unambiguous(declared', discovered', decisions')
  {
    NoRepeatsOfMultiset(declared, declared', KeyOfSnapshot);
    NoRepeatsOfMultiset(discovered, discovered', KeyOfSnapshot);
    FilterForgetsOrder(discovered, discovered', IsIdentified, ProviderOf);
    FilterForgetsOrder(decisions, decisions', IsConfirmed, DecisionKey);
    FilterForgetsOrder(decisions, decisions', IsConfirmed, DecisionProvider);
  }

  /** The same resources and decisions, listed in any order, give the identical result. */
  lemma {:induction false} MatchingForgetsOrder(
      declared: seq<Snapshot>, declared': seq<Snapshot>, discovered: seq<Snapshot>, discovered': seq<Snapshot>,
      decisions: seq<Decision>, decisions': seq<Decision>)
    requires multiset(declared) == multiset(declared') && multiset(discovered) == multiset(discovered')
    requires multiset(decisions) == multiset(decisions')
    requires Unambiguous(declared, discovered, decisions)
    ensures MatchedResult(declared, discovered, decisions) == MatchedResult(declared', discovered', decisions')
  {
    UnambiguousForgetsOrder(declared, declared', discovered, discovered', decisions, decisions');
    SameElements(declared, declared');
    SameElements(discovered, discovered');
    IndexForgetsOrder(declared, declared', KeyOfSnapshot);
    IndexForgetsOrder(discovered, discovered', KeyOfSnapshot);
    IndexForgetsOrder(Filter(discovered, IsIdentified), Filter(discovered', IsIdentified), ProviderOf);
    ConfirmedForgetsOrder(decisions, decisions');
    SharedKeysForgetOrder(declared, declared', discovered, discovered');
    var pairs := MatchedResult(declared, discovered, decisions).pairs;
    OrphansForgetOrder(declared, declared', KeySet(pairs, DeclaredKeyOf));
    OrphansForgetOrder(discovered, discovered', KeySet(pairs, DiscoveredKeyOf));
  }

  lemma {:induction false} SharedKeysForgetOrder(
      declared: seq<Snapshot>, declared': seq<Snapshot>, discovered: seq<Snapshot>, discovered': seq<Snapshot>)
    requires multiset(declared) == multiset(declared') && ByKey(discovered) == ByKey(discovered')
    requires NoRepeats(Keys(declared, KeyOfSnapshot)) && NoRepeats(Keys(declared', KeyOfSnapshot))
    ensures SharedKeys(declared, discovered) == SharedKeys(declared', discovered')
  {
    var ks, ks' := Keys(declared, KeyOfSnapshot), Keys(declared', KeyOfSnapshot);
    KeysOfMultiset(declared, declared', KeyOfSnapshot);
    SameElements(ks, ks');
    FilterMultiset(ks, ks', KeysIn(ByKey(discovered)));
    KeyOrder();
    SortForgetsOrder(Filter(ks, KeysIn(ByKey(discovered))), Filter(ks', KeysIn(ByKey(discovered))), KeyLe);
  }

  // ---------------------------------------------------------------- the order of the pairs

  /** Each pair's declared key is one of these, in the order they are listed. */
  ghost predicate InKeyOrder(pairs: seq<Pair>) { Ascending(Keys(pairs, DeclaredKeyOf), KeyLe) }

  lemma {:induction false} OneMoreInOrder(pairs: seq<Pair>, p: Pair)
    requires InKeyOrder(pairs) && forall q :: q in pairs ==> KeyLe(q.declared.key, p.declared.key)
    ensures InKeyOrder(pairs + [p])
  {
    var keys := Keys(pairs + [p], DeclaredKeyOf);
    forall i, j | 0 <= i < j < |keys| ensures KeyLe(keys[i], keys[j]) {
      if j < |pairs| {
        assert KeyLe(Keys(pairs, DeclaredKeyOf)[i], Keys(pairs, DeclaredKeyOf)[j]);
      } else {
        assert pairs[i] in pairs;
      }
    }
  }

  lemma {:induction false} BoundInOrder(confirmed: seq<Decision>, declared: seq<Snapshot>, discovered: map<Option<Text>, Snapshot>)
    requires Ascending(Keys(confirmed, DecisionKey), KeyLe)
    ensures InKeyOrder(BoundPairs(confirmed, ByKey(declared), discovered))
  {
    if confirmed != [] {
      var front, last := confirmed[..|confirmed| - 1], confirmed[|confirmed| - 1];
      var before := BoundPairs(front, ByKey(declared), discovered);
      AscendingFront(confirmed);
      BoundInOrder(front, declared, discovered);
      IndexHolds(declared, KeyOfSnapshot);
      forall q | q in before ensures KeyLe(q.declared.key, last.declaredKey) {
        BoundPairFrom(front, ByKey(declared), discovered, q);
      }
      if last.declaredKey in ByKey(declared) && Some(last.providerId) in discovered {
        OneMoreInOrder(before, Pair(ByKey(declared)[last.declaredKey], discovered[Some(last.providerId)], Binding));
      }
    }
  }

  lemma {:induction false} AscendingFront(confirmed: seq<Decision>)
    requires confirmed != [] && Ascending(Keys(confirmed, DecisionKey), KeyLe)
    ensures var front := confirmed[..|confirmed| - 1];
            && Ascending(Keys(front, DecisionKey), KeyLe)
            && forall d :: d in front ==> KeyLe(d.declaredKey, confirmed[|confirmed| - 1].declaredKey)
  {
    var ks, front := Keys(confirmed, DecisionKey), confirmed[..|confirmed| - 1];
    forall i, j | 0 <= i < j < |front| ensures KeyLe(Keys(front, DecisionKey)[i], Keys(front, DecisionKey)[j]) {
      assert KeyLe(ks[i], ks[j]);
    }
    forall d | d in front ensures KeyLe(d.declaredKey, confirmed[|confirmed| - 1].declaredKey) {
      var i :| 0 <= i < |front| && front[i] == d;
      assert KeyLe(ks[i], ks[|front|]);
    }
  }

  lemma {:induction false} ConfirmedInOrder(decisions: seq<Decision>)
    ensures Ascending(Keys(Confirmed(decisions), DecisionKey), KeyLe)
  {
    PairingOrder();
    KeyOrder();
    SortByAscends(Filter(decisions, IsConfirmed), PairingOf, PairingLe);
    var confirmed := Confirmed(decisions);
    forall i, j | 0 <= i < j < |confirmed| ensures KeyLe(confirmed[i].declaredKey, confirmed[j].declaredKey) {
      assert PairingLe(Keys(confirmed, PairingOf)[i], Keys(confirmed, PairingOf)[j]);
    }
  }

  lemma {:induction false} NaturalInOrder(
      keys: seq<NaturalKey>, declared: seq<Snapshot>, discovered: map<NaturalKey, Snapshot>,
      claimedDeclared: set<NaturalKey>, claimedDiscovered: set<NaturalKey>, rejected: set<Pairing>)
    requires forall k :: k in keys ==> k in ByKey(declared) && k in discovered
    requires Ascending(keys, KeyLe)
    ensures InKeyOrder(NaturalKeyPairs(keys, ByKey(declared), discovered, claimedDeclared, claimedDiscovered, rejected))
  {
    if keys != [] {
      var front, k := keys[..|keys| - 1], keys[|keys| - 1];
      var before := NaturalKeyPairs(front, ByKey(declared), discovered, claimedDeclared, claimedDiscovered, rejected);
      NaturalInOrder(front, declared, discovered, claimedDeclared, claimedDiscovered, rejected);
      IndexHolds(declared, KeyOfSnapshot);
      forall q | q in before ensures KeyLe(q.declared.key, k) {
        NaturalPairFrom(front, ByKey(declared), discovered, claimedDeclared, claimedDiscovered, rejected, q);
        var i :| 0 <= i < |front| && front[i] == q.declared.key;
        assert KeyLe(keys[i], keys[|front|]);
      }
      OneMoreInOrder(before, Pair(ByKey(declared)[k], discovered[k], ByNaturalKey));
    }
  }

  /** The pairs: those made by binding first and those made by natural key after, each in the order of declared keys. */
  lemma {:induction false} PairsAreInOrder(declared: seq<Snapshot>, discovered: seq<Snapshot>, decisions: seq<Decision>)
    ensures exists bound: seq<Pair>, natural: seq<Pair> ::
              && MatchedResult(declared, discovered, decisions).pairs == bound + natural
              && (forall p :: p in bound ==> p.strategy == Binding) && (forall p :: p in natural ==> p.strategy == ByNaturalKey)
              && InKeyOrder(bound) && InKeyOrder(natural)
  {
    var bound := BoundPairs(Confirmed(decisions), ByKey(declared), ByProvider(discovered));
    var keys, rejected := SharedKeys(declared, discovered), Rejected(decisions);
    var claimed, claims := KeySet(bound, DeclaredKeyOf), KeySet(bound, DiscoveredKeyOf);
    var natural := NaturalKeyPairs(keys, ByKey(declared), ByKey(discovered), claimed, claims, rejected);
    ConfirmedInOrder(decisions);
    BoundInOrder(Confirmed(decisions), declared, ByProvider(discovered));
    SharedInOrder(declared, discovered);
    NaturalInOrder(keys, declared, ByKey(discovered), claimed, claims, rejected);
    forall p | p in bound ensures p.strategy == Binding {
      BoundPairFrom(Confirmed(decisions), ByKey(declared), ByProvider(discovered), p);
    }
    forall p | p in natural ensures p.strategy == ByNaturalKey {
      NaturalPairFrom(keys, ByKey(declared), ByKey(discovered), claimed, claims, rejected, p);
    }
    assert MatchedResult(declared, discovered, decisions).pairs == bound + natural;
  }

  lemma {:induction false} SharedInOrder(declared: seq<Snapshot>, discovered: seq<Snapshot>)
    ensures Ascending(SharedKeys(declared, discovered), KeyLe)
  {
    KeyOrder();
    SortByAscends(Filter(Keys(declared, KeyOfSnapshot), KeysIn(ByKey(discovered))), Itself, KeyLe);
    KeysOfItself(SharedKeys(declared, discovered));
  }
}
