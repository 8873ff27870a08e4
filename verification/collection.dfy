/** One collector run from the first page to the conclusion it may draw: paging, storing, finishing. */
module Collection {
  import opened Options
  import opened Texts
  import opened Values
  import opened Divergence
  import opened Snapshots
  import opened Absence

  // ---------------------------------------------------------------- paging

  const ITEMS_KEY: Text := AsText("items")
  const METADATA_KEY: Text := AsText("metadata")
  const CONTINUE_KEY: Text := AsText("continue")

  /** `records_in`: an envelope without a list has no records to offer, not zero of them. */
  function RecordsIn(payload: Value): Option<seq<Value>> {
    if !payload.Dict? then None
    else match Find(payload.entries, ITEMS_KEY)
         case None => None
         case Some(i) => if payload.entries[i].value.List? then Some(payload.entries[i].value.items) else None
  }

  function ContinueToken(payload: Value): Option<Text> {
    if !payload.Dict? then None
    else match Find(payload.entries, METADATA_KEY)
         case None => None
         case Some(i) =>
           var metadata := payload.entries[i].value;
           if !metadata.Dict? then None
           else match Find(metadata.entries, CONTINUE_KEY)
                case None => None
                case Some(j) =>
                  var token := metadata.entries[j].value;
                  if token.Str? && token.s != [] then Some(token.s) else None
  }

  /** A page has records exactly when it is a mapping that lists them. */
  lemma {:induction false} RecordsExactly(payload: Value, items: seq<Value>)
    requires payload.Dict? ==> DistinctKeys(payload.entries)
    ensures RecordsIn(payload) == Some(items) <==> payload.Dict? && Entry(Name(AsText("items")), List(items)) in payload.entries
  {
    if payload.Dict? && Entry(Name(ITEMS_KEY), List(items)) in payload.entries {
      var i :| 0 <= i < |payload.entries| && payload.entries[i] == Entry(Name(ITEMS_KEY), List(items));
      FindIsUnique(payload.entries, i);
    }
  }

  /** It names a next page exactly when its metadata's `continue` is text that is not empty. */
  lemma {:induction false} TokenExactly(payload: Value, token: Text)
    requires payload.Dict? ==>
               DistinctKeys(payload.entries) &&
               forall e :: e in payload.entries && e.value.Dict? ==> DistinctKeys(e.value.entries)
    ensures ContinueToken(payload) == Some(token) <==>
            token != [] && payload.Dict? &&
            exists es :: Entry(Name(AsText("metadata")), Dict(es)) in payload.entries && Entry(Name(AsText("continue")), Str(token)) in es
  {
    if payload.Dict? {
      var m := Find(payload.entries, METADATA_KEY);
      if m.Some? && payload.entries[m.value].value.Dict? {
        var es := payload.entries[m.value].value.entries;
        assert payload.entries[m.value] == Entry(Name(METADATA_KEY), Dict(es)) && payload.entries[m.value] in payload.entries;
        if Find(es, CONTINUE_KEY).Some? { assert es[Find(es, CONTINUE_KEY).value] in es; }
        if Entry(Name(CONTINUE_KEY), Str(token)) in es {
          var j :| 0 <= j < |es| && es[j] == Entry(Name(CONTINUE_KEY), Str(token));
          FindIsUnique(es, j);
        }
      }
      if es :| Entry(Name(METADATA_KEY), Dict(es)) in payload.entries && Entry(Name(CONTINUE_KEY), Str(token)) in es {
        var i :| 0 <= i < |payload.entries| && payload.entries[i] == Entry(Name(METADATA_KEY), Dict(es));
        FindIsUnique(payload.entries, i);
      }
    }
  }

  /** What the provider answers to one page request; None when the request or its parsing failed. */
  type Answer = Option<Value>

  predicate Usable(a: Answer) { a.Some? && RecordsIn(a.value).Some? }
  predicate HasNext(a: Answer) { Usable(a) && ContinueToken(a.value).Some? }

  datatype Fetched = Unavailable | PartialRead(records: seq<Value>) | WholeRead(records: seq<Value>)

  /** The conversation reaches a page that fails or that names no next page. */
  predicate Stops(answers: seq<Answer>) { exists i :: 0 <= i < |answers| && !HasNext(answers[i]) }

  predicate AllUsable(answers: seq<Answer>) { forall i :: 0 <= i < |answers| ==> Usable(answers[i]) }

  function Gathered(answers: seq<Answer>): seq<Value>
    requires AllUsable(answers)
  {
    if answers == [] then []
    else
      assert Usable(answers[|answers| - 1]);
      Gathered(answers[..|answers| - 1]) + RecordsIn(answers[|answers| - 1].value).value
  }

  predicate Continues(answers: seq<Answer>) { forall i :: 0 <= i < |answers| ==> HasNext(answers[i]) }

  /** The outcome of a read whose first `n` pages name a next page and whose page `n` does not. */
  function ReadTo(answers: seq<Answer>, n: nat): Fetched
    requires n < |answers| && Continues(answers[..n]) && !HasNext(answers[n])
  {
    var before := Gathered(answers[..n]);
    if Usable(answers[n]) then WholeRead(before + RecordsIn(answers[n].value).value)
    else if before == [] then Unavailable
    else PartialRead(before)
  }

  /** The token the request for page `n` carries: none at first, then the one the page before it named. */
  function TokenFor(answers: seq<Answer>, n: nat): Option<Text>
    requires n <= |answers|
  {
    if n == 0 || answers[n - 1] == None then None else ContinueToken(answers[n - 1].value)
  }

  /** The requests carried the tokens they should. */
  predicate CarryTokens(answers: seq<Answer>, asked: seq<Option<Text>>) {
    |asked| <= |answers| && forall i :: 0 <= i < |asked| ==> asked[i] == TokenFor(answers, i)
  }

  /** `ClusterSource.read`: `asked` lists the tokens it requested pages with. */
  method ReadPages(answers: seq<Answer>) returns (fetched: Fetched, asked: seq<Option<Text>>)
    requires Stops(answers)
    ensures 0 < |asked| <= |answers| && Continues(answers[..|asked| - 1]) && !HasNext(answers[|asked| - 1])
    ensures CarryTokens(answers, asked)
    ensures fetched == ReadTo(answers, |asked| - 1)
  {
    var records, token, page := [], None, 0;
    asked := [];
    ghost var stop :| 0 <= stop < |answers| && !HasNext(answers[stop]);
    while true
      invariant 0 <= page <= stop
      invariant ReadSoFar(answers, page, records, token, asked)
      decreases stop - page
    {
      CarryOn(answers, asked);
      ghost var askedBefore, tokenBefore := asked, token;
      asked := asked + [token];
      if !Usable(answers[page]) {
        fetched := if records == [] then Unavailable else PartialRead(records);
        return fetched, asked;
      }
      var items := RecordsIn(answers[page].value).value;
      token := ContinueToken(answers[page].value);
      if token == None {
        return WholeRead(records + items), asked;
      }
      assert page < stop;
      NextPage(answers, page, records, tokenBefore, askedBefore);
      records := records + items;
      page := page + 1;
    }
  }

  /** What has been read and asked for after so many pages. */
  ghost predicate ReadSoFar(answers: seq<Answer>, page: nat, records: seq<Value>, token: Option<Text>, asked: seq<Option<Text>>) {
    && page <= |answers|
    && Continues(answers[..page]) && records == Gathered(answers[..page])
    && token == TokenFor(answers, page)
    && |asked| == page && CarryTokens(answers, asked)
  }

  lemma {:induction false} NextPage(answers: seq<Answer>, page: nat, records: seq<Value>, token: Option<Text>, asked: seq<Option<Text>>)
    requires page < |answers| && ReadSoFar(answers, page, records, token, asked) && HasNext(answers[page])
    ensures ReadSoFar(answers, page + 1, records + RecordsIn(answers[page].value).value,
                      ContinueToken(answers[page].value), asked + [token])
  {
    PageGathered(answers, page);
    CarryOn(answers, asked);
  }

  lemma {:induction false} CarryOn(answers: seq<Answer>, asked: seq<Option<Text>>)
    requires CarryTokens(answers, asked) && |asked| < |answers|
    ensures CarryTokens(answers, asked + [TokenFor(answers, |asked|)])
  {}

  lemma {:induction false} PageGathered(answers: seq<Answer>, n: nat)
    requires n < |answers| && Continues(answers[..n]) && HasNext(answers[n])
    ensures Continues(answers[..n + 1])
    ensures Gathered(answers[..n + 1]) == Gathered(answers[..n]) + RecordsIn(answers[n].value).value
    ensures TokenFor(answers, n + 1) == ContinueToken(answers[n].value)
  {
    assert answers[..n + 1] == answers[..n] + [answers[n]];
  }

  lemma {:induction false} ContinuesAt(answers: seq<Answer>, n: nat, i: nat)
    requires i < n <= |answers| && Continues(answers[..n])
    ensures HasNext(answers[i])
  {
    assert answers[..n][i] == answers[i];
  }

  /** The page at which a read stops is the first that names no next page, so the outcome is determined. */
  lemma {:induction false} OneStop(answers: seq<Answer>, n: nat, m: nat)
    requires n < |answers| && Continues(answers[..n]) && !HasNext(answers[n])
    requires m < |answers| && Continues(answers[..m]) && !HasNext(answers[m])
    ensures n == m
  {
    if n < m {
      ContinuesAt(answers, m, n);
    } else if m < n {
      ContinuesAt(answers, n, m);
    }
  }

  /** Records are gathered page after page, and from one page as it lists them. */
  lemma {:induction false} GatheredConcat(a: seq<Answer>, b: seq<Answer>)
    requires AllUsable(a) && AllUsable(b)
    ensures AllUsable(a + b) && Gathered(a + b) == Gathered(a) + Gathered(b)
  {
    if b == [] {
      assert a + b == a;
    } else {
      var front := b[..|b| - 1];
      GatheredConcat(a, front);
      LastApart(a, b);
    }
  }

  lemma {:induction false} LastApart(a: seq<Answer>, b: seq<Answer>)
    requires b != []
    ensures (a + b)[..|a + b| - 1] == a + b[..|b| - 1] && (a + b)[|a + b| - 1] == b[|b| - 1]
  {}

  lemma {:induction false} OnePage(a: Answer)
    requires Usable(a)
    ensures Gathered([a]) == RecordsIn(a.value).value
  {
    assert [a][..0] == [];
  }

  /**
   * A read is whole exactly when the page it stops at is usable, and then has every page's records; otherwise
   * it has those of the pages before, and is no read at all exactly when they had none.
   */
  lemma {:induction false} ReadIs(answers: seq<Answer>, n: nat)
    requires n < |answers| && Continues(answers[..n]) && !HasNext(answers[n])
    ensures AllUsable(answers[..n])
    ensures if Usable(answers[n]) then
              AllUsable(answers[..n + 1]) && ReadTo(answers, n) == WholeRead(Gathered(answers[..n + 1]))
            else if Gathered(answers[..n]) == [] then ReadTo(answers, n) == Unavailable
            else ReadTo(answers, n) == PartialRead(Gathered(answers[..n]))
  {
    if Usable(answers[n]) {
      assert answers[..n + 1] == answers[..n] + [answers[n]];
      OnePage(answers[n]);
      GatheredConcat(answers[..n], [answers[n]]);
    }
  }

  // ---------------------------------------------------------------- one record

  /** The adapter: the one kind it owns, and its judgement of one record. */
  datatype Adapter = Adapter(name: Text, kind: Text, normalize: Value -> Option<Snapshot>)

  /** What the database knows and accepts while the run lasts. */
  datatype Database = Database(kinds: set<Text>, accepts: Snapshot -> bool)

  datatype Verdict = Rejection | AdapterBug | Storing(snapshot: Snapshot)

  /** The observation is filed under the tenant the run is for. */
  function Filed(s: Snapshot, tenant: Text): Snapshot { s.(key := s.key.(tenant := tenant)) }

  function Judged(a: Adapter, db: Database, tenant: Text, record: Value): Verdict {
    match a.normalize(record)
    case None => Rejection
    case Some(s) =>
      if !EntriesStorable(s.attributes) then Rejection
      else if s.key.kind != a.kind then AdapterBug
      else if s.key.kind !in db.kinds then Rejection
      else if !db.accepts(s) then Rejection
      else Storing(Filed(s, tenant))
  }

  predicate NoBug(a: Adapter, db: Database, tenant: Text, records: seq<Value>) {
    forall i :: 0 <= i < |records| ==> !Judged(a, db, tenant, records[i]).AdapterBug?
  }

  /** What is stored of the records, in their order. */
  function Stored(a: Adapter, db: Database, tenant: Text, records: seq<Value>): (kept: seq<Snapshot>)
    ensures |kept| <= |records|
  {
    if records == [] then []
    else
      var verdict := Judged(a, db, tenant, records[|records| - 1]);
      Stored(a, db, tenant, records[..|records| - 1]) + if verdict.Storing? then [verdict.snapshot] else []
  }

  lemma {:induction false} StoredStep(a: Adapter, db: Database, tenant: Text, records: seq<Value>, i: nat)
    requires i < |records|
    ensures var verdict := Judged(a, db, tenant, records[i]);
            Stored(a, db, tenant, records[..i + 1]) ==
            Stored(a, db, tenant, records[..i]) + if verdict.Storing? then [verdict.snapshot] else []
  {
    assert records[..i + 1][..i] == records[..i];
  }

  /** Everything was stored exactly when nothing was rejected. */
  lemma {:induction false} AllStored(a: Adapter, db: Database, tenant: Text, records: seq<Value>)
    ensures |Stored(a, db, tenant, records)| == |records| <==>
            forall i :: 0 <= i < |records| ==> Judged(a, db, tenant, records[i]).Storing?
  {
    if records != [] {
      var front := records[..|records| - 1];
      AllStored(a, db, tenant, front);
      assert forall i :: 0 <= i < |front| ==> front[i] == records[i];
    }
  }

  lemma {:induction false} StoredIsOfTenant(a: Adapter, db: Database, tenant: Text, records: seq<Value>)
    ensures forall s :: s in Stored(a, db, tenant, records) ==> s.key.tenant == tenant && Admitted(s)
  {
    if records != [] { StoredIsOfTenant(a, db, tenant, records[..|records| - 1]); }
  }

  /** The record is stored as the adapter normalised it, under the tenant of the run and nothing else changed. */
  ghost predicate ObservedAs(a: Adapter, tenant: Text, record: Value, s: Snapshot) {
    exists n ::
      && a.normalize(record) == Some(n)
      && s.attributes == n.attributes && s.providerId == n.providerId
      && s.key == NaturalKey(n.key.kind, tenant, n.key.scope, n.key.name)
  }

  /** The record is one to store: normalised, storable, of the adapter's own kind, and the database has the kind and accepts it. */
  ghost predicate ToStore(a: Adapter, db: Database, record: Value) {
    exists n ::
      && a.normalize(record) == Some(n)
      && EntriesStorable(n.attributes) && n.key.kind == a.kind && a.kind in db.kinds && db.accepts(n)
  }

  lemma {:induction false} JudgedExactly(a: Adapter, db: Database, tenant: Text, record: Value)
    ensures Judged(a, db, tenant, record).Storing? <==> ToStore(a, db, record)
    ensures Judged(a, db, tenant, record).Storing? ==> ObservedAs(a, tenant, record, Judged(a, db, tenant, record).snapshot)
    ensures Judged(a, db, tenant, record).AdapterBug? <==>
            exists n :: a.normalize(record) == Some(n) && EntriesStorable(n.attributes) && n.key.kind != a.kind
  {}

  /** What is stored comes from the records to store, each once and in their order, and each as it was observed. */
  lemma {:induction false} StoredIsWhatWasObserved(a: Adapter, db: Database, tenant: Text, records: seq<Value>) returns (at: seq<nat>)
    ensures |at| == |Stored(a, db, tenant, records)|
    ensures forall i :: 0 <= i < |at| ==>
              at[i] < |records| && ObservedAs(a, tenant, records[at[i]], Stored(a, db, tenant, records)[i])
    ensures forall i, j :: 0 <= i < j < |at| ==> at[i] < at[j]
    ensures forall n :: 0 <= n < |records| ==> (n in at <==> ToStore(a, db, records[n]))
  {
    at := [];
    if records != [] {
      var front, last := records[..|records| - 1], records[|records| - 1];
      at := StoredIsWhatWasObserved(a, db, tenant, front);
      JudgedExactly(a, db, tenant, last);
      assert forall n :: 0 <= n < |front| ==> front[n] == records[n];
      if Judged(a, db, tenant, last).Storing? {
        var more := at + [|front|];
        assert forall n :: n in more <==> n in at || n == |front|;
        at := more;
      }
    }
  }

  // ---------------------------------------------------------------- the run

  datatype Counts = Counts(read: nat, written: nat, errors: nat)

  datatype Report = Skipped | Aborted | Done(counts: Counts, status: Status, gap: bool)

  function StatusFor(errors: nat, gap: bool): Status { if errors > 0 || gap then Partial else Success }

  function Observations(run: nat, snapshots: seq<Snapshot>): (es: seq<Event>)
    ensures |es| == |snapshots| && forall i :: 0 <= i < |es| ==> es[i] == Observe(run, snapshots[i])
  {
    seq(|snapshots|, i requires 0 <= i < |snapshots| => Observe(run, snapshots[i]))
  }

  /** The discovered plane and the log of everything that has happened to it. */
  class Discovery {
    var plane: Plane
    ghost var log: seq<Event>

    ghost predicate Valid()
      reads this
    {
      Legal(log) && plane == Replay(log)
    }

    constructor ()
      ensures Valid() && log == []
    {
      plane := Nothing;
      log := [];
    }

    method Happen(e: Event)
      requires Valid() && Enabled(plane, e)
      modifies this
      ensures Valid() && log == old(log) + [e] && plane == Applied(old(plane), e)
    {
      Extended(log, e);
      plane := Applied(plane, e);
      log := log + [e];
    }

    /** `run_collector`: a tick that finds the lock taken stands down. */
    method RunCollector(a: Adapter, db: Database, tenant: Text, answers: seq<Answer>, now: int) returns (report: Report)
      requires Valid() && Stops(answers)
      modifies this
      ensures Valid()
      ensures report.Skipped? <==>
              exists r :: 0 <= r < |old(plane).runs| && old(plane).runs[r].alive && old(plane).runs[r].owner == Owner(tenant, a.name)
      ensures report.Skipped? ==> log == old(log)
      ensures report.Done? ==> report.counts.read == report.counts.written + report.counts.errors
      ensures !report.Skipped? ==>
                exists n :: 0 <= n < |answers| && Continues(answers[..n]) && !HasNext(answers[n]) &&
                            report == Expected(a, db, tenant, ReadTo(answers, n)) &&
                            log == old(log) + RunEvents(a, db, tenant, ReadTo(answers, n), |old(plane).runs|, now)
    {
      if !LockFree(plane, Owner(tenant, a.name)) {
        return Skipped;
      }
      report := ReadOnce(a, db, tenant, answers, now);
    }

    /** `_read_once`, the lock held: open the run, read, store what can be stored, close, conclude. */
    method ReadOnce(a: Adapter, db: Database, tenant: Text, answers: seq<Answer>, now: int) returns (report: Report)
      requires Valid() && Stops(answers) && LockFree(plane, Owner(tenant, a.name))
      modifies this
      ensures Valid() && !report.Skipped?
      ensures report.Done? ==> report.counts.read == report.counts.written + report.counts.errors
      ensures exists n :: 0 <= n < |answers| && Continues(answers[..n]) && !HasNext(answers[n]) &&
                          report == Expected(a, db, tenant, ReadTo(answers, n)) &&
                          log == old(log) + RunEvents(a, db, tenant, ReadTo(answers, n), |old(plane).runs|, now)
    {
      var run := |plane.runs|;
      Happen(Start(Owner(tenant, a.name)));
      var fetched, asked := ReadPages(answers);
      report := Process(a, db, tenant, fetched, run, now);
      ReadAppends(old(log), a, db, tenant, fetched, run, now);
    }

    /** The rest of the run, once the provider has been read. */
    method Process(a: Adapter, db: Database, tenant: Text, fetched: Fetched, run: nat, now: int) returns (report: Report)
      requires Valid() && Alive(plane, run) && plane.runs[run].phase == Reading && plane.runs[run].owner.tenant == tenant
      modifies this
      ensures Valid()
      ensures report == Expected(a, db, tenant, fetched)
      ensures log == old(log) + RestEvents(a, db, tenant, fetched, run, now)
    {
      ghost var before := log;
      if fetched.Unavailable? {
        Happen(Finish(run, Failed, false));
        Happen(End(run));
        return Done(Counts(0, 0, 0), Failed, false);
      }
      var stopped, counts := Store(a, db, tenant, fetched.records, run);
      ghost var kept := Observations(run, Stored(a, db, tenant, UntilBug(a, db, tenant, fetched.records)));
      if stopped {
        Happen(End(run));
        ThenOne(before, kept, End(run));
        return Aborted;
      }
      NoBugAtAll(a, db, tenant, fetched.records);
      var gap := fetched.PartialRead?;
      var status := StatusFor(counts.errors, gap);
      ghost var read := log;
      Conclude(run, status, gap, now);
      assert read == before + kept;
      ThenThree(before, kept, Finish(run, status, gap), Mark(run, now), End(run));
      return Done(counts, status, gap);
    }

    /** Closing the run: how it went, what it concludes, and its lock let go. */
    method Conclude(run: nat, status: Status, gap: bool, now: int)
      requires Valid() && Alive(plane, run) && plane.runs[run].phase == Reading
      modifies this
      ensures Valid() && log == old(log) + [Finish(run, status, gap)] + [Mark(run, now)] + [End(run)]
    {
      Happen(Finish(run, status, gap));
      Happen(Mark(run, now));
      Happen(End(run));
    }

    /** The loop over the records; an adapter producing another kind ends the run where it stands. */
    method Store(a: Adapter, db: Database, tenant: Text, records: seq<Value>, run: nat)
      returns (stopped: bool, counts: Counts)
      requires Valid() && Alive(plane, run) && plane.runs[run].phase == Reading && plane.runs[run].owner.tenant == tenant
      modifies this
      ensures Valid() && plane.runs == old(plane).runs
      ensures stopped <==> !NoBug(a, db, tenant, records)
      ensures log == old(log) + Observations(run, Stored(a, db, tenant, UntilBug(a, db, tenant, records)))
      ensures counts == Counts(|UntilBug(a, db, tenant, records)|, |Stored(a, db, tenant, UntilBug(a, db, tenant, records))|,
                               |UntilBug(a, db, tenant, records)| - |Stored(a, db, tenant, UntilBug(a, db, tenant, records))|)
    {
      counts := Counts(0, 0, 0);
      for i := 0 to |records|
        invariant Valid() && plane.runs == old(plane).runs
        invariant NoBug(a, db, tenant, records[..i])
        invariant log == old(log) + Observations(run, Stored(a, db, tenant, records[..i]))
        invariant counts == Counts(i, |Stored(a, db, tenant, records[..i])|, i - |Stored(a, db, tenant, records[..i])|)
      {
        var verdict := Judged(a, db, tenant, records[i]);
        StoredStep(a, db, tenant, records, i);
        assert records[..i + 1] == records[..i] + [records[i]];
        match verdict {
          case AdapterBug =>
            BugAt(a, db, tenant, records, i);
            return true, counts;
          case Rejection =>
            counts := Counts(counts.read + 1, counts.written, counts.errors + 1);
          case Storing(s) =>
            ThenObserved(old(log), run, Stored(a, db, tenant, records[..i]), s);
            Happen(Observe(run, s));
            counts := Counts(counts.read + 1, counts.written + 1, counts.errors);
        }
      }
      assert records[..|records|] == records;
      NoBugAtAll(a, db, tenant, records);
      return false, counts;
    }
  }

  lemma {:induction false} ThenOne(log: seq<Event>, kept: seq<Event>, e: Event)
    ensures log + kept + [e] == log + (kept + [e])
  {}

  lemma {:induction false} ThenThree(log: seq<Event>, kept: seq<Event>, e: Event, f: Event, g: Event)
    ensures log + kept + [e] + [f] + [g] == log + (kept + [e, f, g])
  {}

  lemma {:induction false} ThenObserved(log: seq<Event>, run: nat, snapshots: seq<Snapshot>, s: Snapshot)
    ensures log + Observations(run, snapshots) + [Observe(run, s)] == log + Observations(run, snapshots + [s])
  {
    assert Observations(run, snapshots + [s]) == Observations(run, snapshots) + [Observe(run, s)];
  }

  /** The records before the first one the adapter gets wrong. */
  function UntilBug(a: Adapter, db: Database, tenant: Text, records: seq<Value>): seq<Value> {
    if records == [] || Judged(a, db, tenant, records[0]).AdapterBug? then []
    else [records[0]] + UntilBug(a, db, tenant, records[1..])
  }

  lemma {:induction false} BugAt(a: Adapter, db: Database, tenant: Text, records: seq<Value>, i: nat)
    requires i < |records| && NoBug(a, db, tenant, records[..i]) && Judged(a, db, tenant, records[i]).AdapterBug?
    ensures UntilBug(a, db, tenant, records) == records[..i] && !NoBug(a, db, tenant, records)
  {
    if i > 0 {
      assert records[..i][0] == records[0];
      forall j | 0 <= j < i - 1 ensures !Judged(a, db, tenant, records[1..][j]).AdapterBug? {
        assert records[1..][j] == records[..i][j + 1];
      }
      BugAt(a, db, tenant, records[1..], i - 1);
    }
  }

  lemma {:induction false} NoBugAtAll(a: Adapter, db: Database, tenant: Text, records: seq<Value>)
    requires NoBug(a, db, tenant, records)
    ensures UntilBug(a, db, tenant, records) == records
  {
    if records != [] { NoBugAtAll(a, db, tenant, records[1..]); }
  }

  function Expected(a: Adapter, db: Database, tenant: Text, fetched: Fetched): Report {
    if fetched.Unavailable? then Done(Counts(0, 0, 0), Failed, false)
    else if !NoBug(a, db, tenant, fetched.records) then Aborted
    else
      var read, written := |fetched.records|, |Stored(a, db, tenant, fetched.records)|;
      Done(Counts(read, written, read - written), StatusFor(read - written, fetched.PartialRead?), fetched.PartialRead?)
  }

  /** What a run adds to the log after its read, when nothing else interleaves. */
  function RestEvents(a: Adapter, db: Database, tenant: Text, fetched: Fetched, run: nat, now: int): seq<Event> {
    if fetched.Unavailable? then [Finish(run, Failed, false), End(run)]
    else
      var kept := Observations(run, Stored(a, db, tenant, UntilBug(a, db, tenant, fetched.records)));
      match Expected(a, db, tenant, fetched)
      case Done(_, status, gap) => kept + [Finish(run, status, gap), Mark(run, now), End(run)]
      case _ => kept + [End(run)]
  }

  function RunEvents(a: Adapter, db: Database, tenant: Text, fetched: Fetched, run: nat, now: int): seq<Event> {
    [Start(Owner(tenant, a.name))] + RestEvents(a, db, tenant, fetched, run, now)
  }

  lemma {:induction false} ReadAppends(
      log: seq<Event>, a: Adapter, db: Database, tenant: Text, fetched: Fetched, run: nat, now: int)
    ensures log + [Start(Owner(tenant, a.name))] + RestEvents(a, db, tenant, fetched, run, now) ==
            log + RunEvents(a, db, tenant, fetched, run, now)
  {}
}
