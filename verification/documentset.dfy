/** A revision's documents together: every rejection and every contested identity, or all the snapshots. */
module DocumentSets {
  import opened Options
  import opened Sorting
  import opened Indexing
  import opened Texts
  import opened Snapshots
  import opened Nodes
  import opened KeyLines
  import opened Locating
  import opened Documents

  datatype Source = Source(name: Text, composed: Composed)

  datatype Complaint = Rejects(rejection: Rejection) | Contested(key: NaturalKey, sources: seq<Text>)

  datatype DocumentError = DocumentError(source: Text, line: Option<nat>, complaint: Complaint)

  datatype Parsed = Accepted(snapshots: seq<Snapshot>) | InvalidRevision(errors: seq<DocumentError>)

  datatype Claim = Claim(source: Text, snapshot: Snapshot)

  function KeyOfClaim(c: Claim): NaturalKey { c.snapshot.key }
  function SnapshotOfClaim(c: Claim): Snapshot { c.snapshot }
  function SourceOfClaim(c: Claim): Text { c.source }
  function Claiming(key: NaturalKey): Claim -> bool { (c: Claim) => c.snapshot.key == key }

  /** How one source reads. */
  type Reading = Source -> Result<Snapshot>

  function ReadingOf(tenant: Text, rules: Rules): Reading {
    (s: Source) => ReadDocument(s.composed, tenant, rules)
  }

  /** The documents that read, in source order. */
  function ClaimsOf(sources: seq<Source>, read: Reading): (claims: seq<Claim>)
    ensures |claims| <= |sources|
  {
    if sources == [] then []
    else
      var last := sources[|sources| - 1];
      ClaimsOf(sources[..|sources| - 1], read) +
      match read(last)
      case Fine(s) => [Claim(last.name, s)]
      case Invalid(_) => []
  }

  /** The documents that do not, by position. */
  function RejectedAt(sources: seq<Source>, read: Reading): (at: seq<nat>)
    ensures forall i :: 0 <= i < |at| ==> at[i] < |sources| && read(sources[at[i]]).Invalid?
    ensures forall i, j :: 0 <= i < j < |at| ==> at[i] < at[j]
  {
    if sources == [] then []
    else
      RejectedAt(sources[..|sources| - 1], read) +
      if read(sources[|sources| - 1]).Invalid? then [|sources| - 1] else []
  }

  /** No document that does not read is missed. */
  lemma {:induction false} EveryRejectionIsListed(sources: seq<Source>, read: Reading, n: nat)
    requires n < |sources| && read(sources[n]).Invalid?
    ensures n in RejectedAt(sources, read)
  {
    var front := sources[..|sources| - 1];
    if n < |front| {
      assert front[n] == sources[n];
      EveryRejectionIsListed(front, read, n);
    }
  }

  // ---------------------------------------------------------------- contested identities

  function Listed(keys: seq<NaturalKey>): seq<NaturalKey> {
    if keys == [] then []
    else
      var front := Listed(keys[..|keys| - 1]);
      if keys[|keys| - 1] in front then front else front + [keys[|keys| - 1]]
  }

  function Claimants(claims: seq<Claim>, key: NaturalKey): seq<Text> {
    Keys(Filter(claims, Claiming(key)), SourceOfClaim)
  }

  function ContestedBy(claims: seq<Claim>, key: NaturalKey): DocumentError
    requires |Claimants(claims, key)| > 0
  {
    var sources := SortBy(Claimants(claims, key), Itself, TextLe);
    SortByKeepsElements(Claimants(claims, key), Itself, TextLe);
    DocumentError(sources[0], None, Contested(key, sources))
  }

  function ContestedAmong(claims: seq<Claim>, keys: seq<NaturalKey>): seq<DocumentError> {
    if keys == [] then []
    else
      ContestedAmong(claims, keys[..|keys| - 1]) +
      if |Claimants(claims, keys[|keys| - 1])| > 1 then [ContestedBy(claims, keys[|keys| - 1])] else []
  }

  function SortedKeys(claims: seq<Claim>): seq<NaturalKey> {
    SortBy(Listed(Keys(claims, KeyOfClaim)), Itself, KeyLe)
  }

  function DuplicateErrors(claims: seq<Claim>): seq<DocumentError> { ContestedAmong(claims, SortedKeys(claims)) }

  function SourcesUnder(sourcesByKey: map<NaturalKey, seq<Text>>, key: NaturalKey): seq<Text> {
    if key in sourcesByKey then sourcesByKey[key] else []
  }

  /** The keys in the order they were first met, and the dictionary of sources by key. */
  ghost predicate GatheredFrom(claims: seq<Claim>, keys: seq<NaturalKey>, sourcesByKey: map<NaturalKey, seq<Text>>) {
    keys == Listed(Keys(claims, KeyOfClaim)) && IsKeyed(keys, sourcesByKey) && IsFiled(claims, sourcesByKey)
  }

  ghost predicate IsKeyed(keys: seq<NaturalKey>, sourcesByKey: map<NaturalKey, seq<Text>>) {
    forall k :: k in sourcesByKey <==> k in keys
  }

  ghost predicate IsFiled(claims: seq<Claim>, sourcesByKey: map<NaturalKey, seq<Text>>) {
    && (forall k :: Claimants(claims, k) == SourcesUnder(sourcesByKey, k))
    && (forall k :: k in sourcesByKey ==> |sourcesByKey[k]| > 0)
  }

  lemma {:induction false} KeyedOneMore(keys: seq<NaturalKey>, sourcesByKey: map<NaturalKey, seq<Text>>, key: NaturalKey, sources: seq<Text>)
    requires IsKeyed(keys, sourcesByKey)
    ensures IsKeyed(if key in sourcesByKey then keys else keys + [key], sourcesByKey[key := sources])
  {
    assert (keys + [key])[|keys|] == key;
  }

  lemma {:induction false} FiledOneMore(claims: seq<Claim>, i: nat, sourcesByKey: map<NaturalKey, seq<Text>>, key: NaturalKey)
    requires i < |claims| && IsFiled(claims[..i], sourcesByKey) && key == claims[i].snapshot.key
    ensures IsFiled(claims[..i + 1], sourcesByKey[key := SourcesUnder(sourcesByKey, key) + [claims[i].source]])
  {
    var more := sourcesByKey[key := SourcesUnder(sourcesByKey, key) + [claims[i].source]];
    forall k ensures Claimants(claims[..i + 1], k) == SourcesUnder(more, k) {
      ClaimantsStep(claims, i, k);
      assert Claimants(claims[..i], k) == SourcesUnder(sourcesByKey, k);
    }
  }

  lemma {:induction false} ClaimantsStep(claims: seq<Claim>, i: nat, key: NaturalKey)
    requires i < |claims|
    ensures claims[i].snapshot.key == key ==> Claimants(claims[..i + 1], key) == Claimants(claims[..i], key) + [claims[i].source]
    ensures claims[i].snapshot.key != key ==> Claimants(claims[..i + 1], key) == Claimants(claims[..i], key)
  {
    assert claims[..i + 1] == claims[..i] + [claims[i]];
    FilterAppend(claims[..i], claims[i], Claiming(key));
    KeysAppend(Filter(claims[..i], Claiming(key)), claims[i], SourceOfClaim);
  }

  method GatherSources(claims: seq<Claim>) returns (keys: seq<NaturalKey>, sourcesByKey: map<NaturalKey, seq<Text>>)
    ensures GatheredFrom(claims, keys, sourcesByKey)
  {
    keys, sourcesByKey := [], map[];
    for i := 0 to |claims|
      invariant GatheredFrom(claims[..i], keys, sourcesByKey)
    {
      var key := claims[i].snapshot.key;
      ListedStep(claims, i);
      FiledOneMore(claims, i, sourcesByKey, key);
      KeyedOneMore(keys, sourcesByKey, key, SourcesUnder(sourcesByKey, key) + [claims[i].source]);
      if key !in sourcesByKey {
        keys := keys + [key];
      }
      sourcesByKey := sourcesByKey[key := SourcesUnder(sourcesByKey, key) + [claims[i].source]];
    }
    assert claims[..|claims|] == claims;
  }

  /** `_duplicate_identity_errors`: sources gathered by key, then reported in key order. */
  method DuplicateIdentityErrors(claims: seq<Claim>) returns (errors: seq<DocumentError>)
    ensures errors == DuplicateErrors(claims)
  {
    var keys, sourcesByKey := GatherSources(claims);
    var sorted := SortBy(keys, Itself, KeyLe);
    SortByKeepsElements(keys, Itself, KeyLe);
    errors := ReportContested(claims, sorted, sourcesByKey);
  }

  method ReportContested(claims: seq<Claim>, sorted: seq<NaturalKey>, sourcesByKey: map<NaturalKey, seq<Text>>)
    returns (errors: seq<DocumentError>)
    requires forall k :: k in sorted ==> k in sourcesByKey && sourcesByKey[k] == Claimants(claims, k) && |sourcesByKey[k]| > 0
    ensures errors == ContestedAmong(claims, sorted)
  {
    errors := [];
    for i := 0 to |sorted|
      invariant errors == ContestedAmong(claims, sorted[..i])
    {
      assert sorted[i] in sorted;
      ContestedStep(claims, sorted, i);
      if |sourcesByKey[sorted[i]]| == 1 {
        continue;
      }
      errors := errors + [ContestedBy(claims, sorted[i])];
    }
    assert sorted[..|sorted|] == sorted;
  }

  lemma {:induction false} ContestedStep(claims: seq<Claim>, keys: seq<NaturalKey>, i: nat)
    requires i < |keys|
    ensures ContestedAmong(claims, keys[..i + 1]) ==
            ContestedAmong(claims, keys[..i]) +
            if |Claimants(claims, keys[i])| > 1 then [ContestedBy(claims, keys[i])] else []
  {
    assert keys[..i + 1][..i] == keys[..i];
  }

  lemma {:induction false} ListedStep(claims: seq<Claim>, i: nat)
    requires i < |claims|
    ensures var key, listed := claims[i].snapshot.key, Listed(Keys(claims[..i], KeyOfClaim));
            Listed(Keys(claims[..i + 1], KeyOfClaim)) == if key in listed then listed else listed + [key]
  {
    assert claims[..i + 1] == claims[..i] + [claims[i]];
    KeysAppend(claims[..i], claims[i], KeyOfClaim);
    assert Keys(claims[..i + 1], KeyOfClaim)[..i] == Keys(claims[..i], KeyOfClaim);
  }

  // ---------------------------------------------------------------- the set

  /** The line a rejection names: its own, or the one its path is written on in the one document there is. */
  ghost predicate LocatedAs(c: Composed, r: Rejection, line: Option<nat>) {
    if r.line.Some? then line == r.line
    else if r.path == None || c.CannotCompose? || |c.documents| != 1 then line == None
    else LocatedIn(c.documents[0].g, c.documents[0].root, r.path.value, line)
  }

  /** The path's line, and none only where the document writes no such key or shares the mapping that does. */
  ghost predicate LocatedIn(g: Graph, root: nat, path: Path, line: Option<nat>)
    requires WellFormed(g)
  {
    && (line.Some? ==> Written(g, root, path, line.value))
    && (line == None && IsWritten(g, root, path) ==> !Unshared(g, root, Front(path)))
  }

  /** `_locate`, which walks the document again only for a rejection that has a path and no line. */
  method Locate(c: Composed, r: Rejection) returns (line: Option<nat>)
    ensures LocatedAs(c, r, line)
  {
    if r.line.Some? { return r.line; }
    if r.path == None { return None; }
    if c.CannotCompose? || |c.documents| != 1 { return None; }
    var lines, arrived, _, _ := LinesOf(c.documents[0].g, c.documents[0].root);
    line := if r.path.value in lines then Some(lines[r.path.value]) else None;
    LookedUp(c.documents[0].g, c.documents[0].root, arrived, lines, r.path.value, line);
  }

  lemma {:induction false} LookedUp(
      g: Graph, root: nat, arrived: map<nat, Path>, lines: map<Path, nat>, path: Path, line: Option<nat>)
    requires WellFormed(g) && AllWritten(g, root, lines) && Complete(g, root, arrived, lines)
    requires line == if path in lines then Some(lines[path]) else None
    ensures LocatedIn(g, root, path, line)
  {
    if IsWritten(g, root, path) && Unshared(g, root, Front(path)) {
      UnsharedLinesAreComplete(g, root, arrived, lines, path);
    }
  }

  /** One error for each document that does not read, in source order. */
  ghost predicate RejectionErrors(sources: seq<Source>, read: Reading, errors: seq<DocumentError>) {
    var at := RejectedAt(sources, read);
    && |errors| == |at|
    && forall i :: 0 <= i < |at| ==> ErrorFor(sources[at[i]], read, errors[i])
  }

  ghost predicate ErrorFor(source: Source, read: Reading, e: DocumentError) {
    && read(source).Invalid?
    && e.source == source.name
    && e.complaint == Rejects(read(source).rejection)
    && LocatedAs(source.composed, read(source).rejection, e.line)
  }

  /** `parse_document_set`: all of it or none, and every error there is rather than the first. */
  method ParseDocumentSet(sources: seq<Source>, tenant: Text, rules: Rules) returns (parsed: Parsed)
    ensures parsed.Accepted? <==>
            RejectedAt(sources, ReadingOf(tenant, rules)) == [] &&
            DuplicateErrors(ClaimsOf(sources, ReadingOf(tenant, rules))) == []
    ensures parsed.Accepted? ==> parsed.snapshots == Keys(ClaimsOf(sources, ReadingOf(tenant, rules)), SnapshotOfClaim)
    ensures parsed.InvalidRevision? ==>
              exists rejections :: RejectionErrors(sources, ReadingOf(tenant, rules), rejections) &&
                                   parsed.errors == rejections + DuplicateErrors(ClaimsOf(sources, ReadingOf(tenant, rules)))
  {
    var errors, claims := ReadAll(sources, tenant, rules);
    var contested := DuplicateIdentityErrors(claims);
    if errors + contested != [] {
      return InvalidRevision(errors + contested);
    }
    return Accepted(Keys(claims, SnapshotOfClaim));
  }

  method ReadAll(sources: seq<Source>, tenant: Text, rules: Rules)
    returns (errors: seq<DocumentError>, claims: seq<Claim>)
    ensures claims == ClaimsOf(sources, ReadingOf(tenant, rules))
    ensures RejectionErrors(sources, ReadingOf(tenant, rules), errors)
  {
    errors, claims := [], [];
    for i := 0 to |sources|
      invariant claims == ClaimsOf(sources[..i], ReadingOf(tenant, rules))
      invariant RejectionErrors(sources[..i], ReadingOf(tenant, rules), errors)
    {
      var r, line := ReadAndLocate(sources[i], tenant, rules);
      ReadStep(sources, i, ReadingOf(tenant, rules));
      match r {
        case Fine(s) => claims := claims + [Claim(sources[i].name, s)];
        case Invalid(rejection) =>
          var e := DocumentError(sources[i].name, line, Rejects(rejection));
          MoreRejections(sources, i, ReadingOf(tenant, rules), errors, e);
          errors := errors + [e];
      }
    }
    assert sources[..|sources|] == sources;
  }

  method ReadAndLocate(source: Source, tenant: Text, rules: Rules) returns (r: Result<Snapshot>, line: Option<nat>)
    ensures r == ReadingOf(tenant, rules)(source)
    ensures r.Invalid? ==> LocatedAs(source.composed, r.rejection, line)
  {
    r := ReadOne(source.composed, tenant, rules);
    line := None;
    if r.Invalid? {
      line := Locate(source.composed, r.rejection);
    }
  }

  lemma {:induction false} ReadStep(sources: seq<Source>, i: nat, read: Reading)
    requires i < |sources|
    ensures ClaimsOf(sources[..i + 1], read) ==
            ClaimsOf(sources[..i], read) +
            if read(sources[i]).Fine? then [Claim(sources[i].name, read(sources[i]).value)] else []
    ensures RejectedAt(sources[..i + 1], read) ==
            RejectedAt(sources[..i], read) + if read(sources[i]).Invalid? then [i] else []
  {
    assert sources[..i + 1][..i] == sources[..i];
  }

  lemma {:induction false} MoreRejections(
      sources: seq<Source>, i: nat, read: Reading, errors: seq<DocumentError>, e: DocumentError)
    requires i < |sources| && RejectionErrors(sources[..i], read, errors)
    requires ErrorFor(sources[i], read, e)
    ensures RejectionErrors(sources[..i + 1], read, errors + [e])
  {
    ReadStep(sources, i, read);
    var at, at' := RejectedAt(sources[..i], read), RejectedAt(sources[..i + 1], read);
    forall j | 0 <= j < |at'| ensures ErrorFor(sources[..i + 1][at'[j]], read, (errors + [e])[j]) {
      if j < |at| { assert sources[..i + 1][at[j]] == sources[..i][at[j]]; }
    }
  }

  /**
   * A rejection with a path names a line exactly when the document writes a key at that path, unless what
   * states the key is shared; and where no key is repeated it is the one line there is. One of the
   * document's structure that still names no line is of the whole document or of a position in a list.
   */
  lemma {:induction false} RejectionsFindTheirLine(source: Source, tenant: Text, rules: Rules, d: Document, e: DocumentError, path: Path)
    requires source.composed == Composed([d]) && ErrorFor(source, ReadingOf(tenant, rules), e)
    requires e.complaint.rejection.line == None && e.complaint.rejection.path == Some(path)
    requires Unshared(d.g, d.root, Front(path))
    ensures e.line.Some? <==> IsWritten(d.g, d.root, path)
    ensures Unrepeated(d.g, d.root) ==> forall line: nat :: Written(d.g, d.root, path, line) ==> e.line == Some(line)
    ensures e.complaint.rejection.reason.Structural? && e.line == None ==> path == [] || IsPosition(d.g, d.root, path)
    ensures OfAStatedKey(e.complaint.rejection.reason) ==> e.line.Some?
  {
    var g, root := d.g, d.root;
    assert source.composed.documents[0] == d;
    assert LocatedIn(g, root, path, e.line);
    assert e.line.Some? ==> IsWritten(g, root, path);
    RejectionIsPlaced(d, tenant, rules, path);
    forall line: nat | Unrepeated(g, root) && Written(g, root, path, line) ensures e.line == Some(line) {
      assert IsWritten(g, root, path);
      RecordedLineIsTheLine(g, root, path, line, e.line.value);
    }
  }

  // ---------------------------------------------------------------- exactly the contested keys

  lemma {:induction false} ListedOnce(keys: seq<NaturalKey>)
    ensures NoRepeats(Listed(keys)) && forall k :: k in Listed(keys) <==> k in keys
  {
    if keys != [] {
      var front, last := keys[..|keys| - 1], keys[|keys| - 1];
      assert keys == front + [last];
      ListedOnce(front);
      NoRepeatsAppend(Listed(front), last);
    }
  }

  function IsContested(claims: seq<Claim>): NaturalKey -> bool { (k: NaturalKey) => |Claimants(claims, k)| > 1 }

  /** One error for each of these keys, each of which two or more claim. */
  ghost predicate ErrorsFor(claims: seq<Claim>, keys: seq<NaturalKey>, errors: seq<DocumentError>) {
    |errors| == |keys| && forall i :: 0 <= i < |keys| ==> IsErrorFor(claims, keys[i], errors[i])
  }

  ghost predicate IsErrorFor(claims: seq<Claim>, key: NaturalKey, e: DocumentError) {
    |Claimants(claims, key)| > 1 && e == ContestedBy(claims, key)
  }

  lemma {:induction false} ErrorsForAppend(
      claims: seq<Claim>, keys: seq<NaturalKey>, errors: seq<DocumentError>, key: NaturalKey, e: DocumentError)
    requires ErrorsFor(claims, keys, errors) && IsErrorFor(claims, key, e)
    ensures ErrorsFor(claims, keys + [key], errors + [e])
  {}

  lemma {:induction false} ContestedAre(claims: seq<Claim>, keys: seq<NaturalKey>)
    ensures ErrorsFor(claims, Filter(keys, IsContested(claims)), ContestedAmong(claims, keys))
  {
    if keys != [] {
      var front, last := keys[..|keys| - 1], keys[|keys| - 1];
      assert keys == front + [last];
      ContestedAre(claims, front);
      FilterAppend(front, last, IsContested(claims));
      if |Claimants(claims, last)| > 1 {
        ErrorsForAppend(claims, Filter(front, IsContested(claims)), ContestedAmong(claims, front), last, ContestedBy(claims, last));
      }
    }
  }

  lemma {:induction false} ClaimantsAre(claims: seq<Claim>, key: NaturalKey, source: Text)
    ensures source in Claimants(claims, key) <==> exists c :: c in claims && c.snapshot.key == key && c.source == source
  {
    KeyedBy(Filter(claims, Claiming(key)), SourceOfClaim, source);
  }

  /** Each natural key claimed by two or more documents is reported once, in key order, and no other is. */
  lemma {:induction false} ContestedExactlyOnce(claims: seq<Claim>)
    ensures exists keys: seq<NaturalKey> ::
              && ErrorsFor(claims, keys, DuplicateErrors(claims))
              && (forall k :: k in keys <==> |Claimants(claims, k)| > 1)
              && NoRepeats(keys)
              && Ascending(keys, KeyLe)
  {
    var keys := Filter(SortedKeys(claims), IsContested(claims));
    ContestedAre(claims, SortedKeys(claims));
    ContestedInOrder(claims);
    forall k ensures k in keys <==> |Claimants(claims, k)| > 1 {
      if |Claimants(claims, k)| > 1 { ContestedKeyIsListed(claims, k); }
    }
  }

  lemma {:induction false} ContestedInOrder(claims: seq<Claim>)
    ensures var keys := Filter(SortedKeys(claims), IsContested(claims)); NoRepeats(keys) && Ascending(keys, KeyLe)
  {
    var all := SortedKeys(claims);
    SortedKeysAre(claims);
    KeysOfItself(all);
    KeysOfItself(Filter(all, IsContested(claims)));
    FilterKeepsNoRepeats(all, IsContested(claims), Itself);
    FilterAscends(all, IsContested(claims), Itself, KeyLe);
  }

  lemma {:induction false} SortedKeysAre(claims: seq<Claim>)
    ensures NoRepeats(SortedKeys(claims)) && Ascending(SortedKeys(claims), KeyLe)
    ensures forall k :: k in SortedKeys(claims) <==> k in Keys(claims, KeyOfClaim)
  {
    var listed := Listed(Keys(claims, KeyOfClaim));
    ListedOnce(Keys(claims, KeyOfClaim));
    KeysOfItself(listed);
    KeysOfItself(SortedKeys(claims));
    SortByNoRepeats(listed, Itself, KeyLe);
    SortByKeepsElements(listed, Itself, KeyLe);
    KeyOrder();
    SortByAscends(listed, Itself, KeyLe);
  }

  lemma {:induction false} ContestedKeyIsListed(claims: seq<Claim>, key: NaturalKey)
    requires |Claimants(claims, key)| > 0
    ensures key in SortedKeys(claims)
  {
    SortedKeysAre(claims);
    ClaimantsAre(claims, key, Claimants(claims, key)[0]);
    assert Claimants(claims, key)[0] in Claimants(claims, key);
    var c :| c in claims && c.snapshot.key == key;
    KeyedBy(claims, KeyOfClaim, key);
  }

  /** An error for a contested key names all who claim it, sorted, under the first of them. */
  lemma {:induction false} ContestedNamesClaimants(claims: seq<Claim>, key: NaturalKey)
    requires |Claimants(claims, key)| > 0
    ensures var e := ContestedBy(claims, key);
            && e.complaint.Contested? && e.complaint.key == key && e.line == None
            && multiset(e.complaint.sources) == multiset(Claimants(claims, key))
            && Ascending(e.complaint.sources, TextLe)
            && |e.complaint.sources| > 0 && e.source == e.complaint.sources[0]
  {
    TextOrder();
    SortByKeepsElements(Claimants(claims, key), Itself, TextLe);
    SortByAscends(Claimants(claims, key), Itself, TextLe);
    KeysOfItself(SortBy(Claimants(claims, key), Itself, TextLe));
  }

  /** A document claims the key it reads as, under its own name. */
  lemma {:induction false} ClaimsSayWhoReadsWhat(sources: seq<Source>, read: Reading, name: Text, s: Snapshot)
    ensures Claim(name, s) in ClaimsOf(sources, read) <==>
            exists n :: 0 <= n < |sources| && sources[n].name == name && read(sources[n]) == Fine(s)
  {
    if sources != [] {
      var front, last := sources[..|sources| - 1], sources[|sources| - 1];
      ClaimsSayWhoReadsWhat(front, read, name, s);
      if n :| 0 <= n < |front| && front[n].name == name && read(front[n]) == Fine(s) { assert sources[n] == front[n]; }
      if n :| 0 <= n < |sources| && sources[n].name == name && read(sources[n]) == Fine(s) {
        if n < |front| { assert front[n] == sources[n]; }
      }
    }
  }

  lemma {:induction false} TwoClaimants(claims: seq<Claim>, i: nat, j: nat)
    requires i < j < |claims| && claims[i].snapshot.key == claims[j].snapshot.key
    ensures |Claimants(claims, claims[i].snapshot.key)| > 1
  {
    var front, last := claims[..|claims| - 1], claims[|claims| - 1];
    var keep := Claiming(claims[i].snapshot.key);
    assert claims == front + [last];
    FilterAppend(front, last, keep);
    if j < |front| {
      TwoClaimants(front, i, j);
    } else {
      assert front[i] in Filter(front, keep);
    }
  }

  lemma {:induction false} UncontestedKeysDistinct(claims: seq<Claim>)
    requires forall k :: |Claimants(claims, k)| <= 1
    ensures NoRepeats(Keys(claims, KeyOfClaim))
  {
    forall i, j | 0 <= i < j < |claims| ensures Keys(claims, KeyOfClaim)[i] != Keys(claims, KeyOfClaim)[j] {
      if claims[i].snapshot.key == claims[j].snapshot.key {
        TwoClaimants(claims, i, j);
      }
    }
  }

  lemma {:induction false} ClaimAt(sources: seq<Source>, n: nat, read: Reading)
    requires RejectedAt(sources, read) == [] && n < |sources|
    ensures |ClaimsOf(sources, read)| == |sources|
    ensures read(sources[n]) == Fine(ClaimsOf(sources, read)[n].snapshot)
  {
    var front := sources[..|sources| - 1];
    if front != [] {
      ClaimAt(front, if n < |front| then n else 0, read);
    }
  }

  /**
   * An accepted revision has one snapshot for each document in source order, no two under one natural
   * key, each storable and stating exactly its kind's attributes: what the projection and the matcher assume.
   */
  lemma {:induction false} AcceptedRevisionIsUsable(sources: seq<Source>, tenant: Text, rules: Rules)
    requires RejectedAt(sources, ReadingOf(tenant, rules)) == []
    requires DuplicateErrors(ClaimsOf(sources, ReadingOf(tenant, rules))) == []
    ensures var snapshots := Keys(ClaimsOf(sources, ReadingOf(tenant, rules)), SnapshotOfClaim);
            && |snapshots| == |sources|
            && NoRepeats(Keys(snapshots, KeyOfSnapshot))
            && (forall i :: 0 <= i < |sources| ==>
                  ReadingOf(tenant, rules)(sources[i]) == Fine(snapshots[i]) && Usable(snapshots[i], tenant, rules))
  {
    var read := ReadingOf(tenant, rules);
    var claims := ClaimsOf(sources, read);
    UncontestedSnapshotsDistinct(claims);
    forall i | 0 <= i < |sources|
      ensures |claims| == |sources| && read(sources[i]) == Fine(claims[i].snapshot) && Usable(claims[i].snapshot, tenant, rules)
    {
      ClaimIsUsable(sources, i, tenant, rules);
    }
    assert sources == [] ==> claims == [];
  }

  lemma {:induction false} UncontestedSnapshotsDistinct(claims: seq<Claim>)
    requires DuplicateErrors(claims) == []
    ensures NoRepeats(Keys(Keys(claims, SnapshotOfClaim), KeyOfSnapshot))
  {
    ContestedExactlyOnce(claims);
    UncontestedKeysDistinct(claims);
    assert Keys(Keys(claims, SnapshotOfClaim), KeyOfSnapshot) == Keys(claims, KeyOfClaim);
  }

  lemma {:induction false} ClaimIsUsable(sources: seq<Source>, i: nat, tenant: Text, rules: Rules)
    requires RejectedAt(sources, ReadingOf(tenant, rules)) == [] && i < |sources|
    ensures var claims := ClaimsOf(sources, ReadingOf(tenant, rules));
            && |claims| == |sources|
            && ReadingOf(tenant, rules)(sources[i]) == Fine(claims[i].snapshot)
            && Usable(claims[i].snapshot, tenant, rules)
  {
    ClaimAt(sources, i, ReadingOf(tenant, rules));
    ReadIsUsable(sources[i], tenant, rules);
  }

  ghost predicate Usable(s: Snapshot, tenant: Text, rules: Rules) {
    && Admitted(s)
    && s.key.tenant == tenant
    && s.providerId == None
    && s.key.kind in rules.schemas
    && SchemaKeys(s.attributes, rules.schemas[s.key.kind])
  }

  lemma {:induction false} ReadIsUsable(source: Source, tenant: Text, rules: Rules)
    requires ReadingOf(tenant, rules)(source).Fine?
    ensures Usable(ReadingOf(tenant, rules)(source).value, tenant, rules)
  {
    AcceptedIsWellStated(source.composed, tenant, rules);
  }
}
