/** Which comparison records one run writes to its log, each field's stream sampled on its own. */
module Audit {
  import opened Options
  import opened Indexing
  import opened Texts

  datatype AuditEntry = AuditEntry(kind: Text, field: Text, agrees: bool, detail: Text)

  datatype Level = Debug | DiscrepancyOnly | SampledAudit

  datatype Write = Write(entry: AuditEntry, level: Level)

  type Stream = (Text, Text)

  function StreamOfEntry(e: AuditEntry): Stream { (e.kind, e.field) }
  function StreamOf(w: Write): Stream { StreamOfEntry(w.entry) }
  function InStream(s: Stream): Write -> bool { (w: Write) => StreamOf(w) == s }
  function SampledIn(s: Stream): Write -> bool { (w: Write) => w.level == SampledAudit && StreamOf(w) == s }
  function EntryIn(s: Stream): AuditEntry -> bool { (e: AuditEntry) => StreamOfEntry(e) == s }

  predicate IsMultiple(n: nat, rate: nat)
    requires rate >= 1
  {
    n % rate == 0
  }

  /** Whether a write is emitted, given the run's writes before it. */
  predicate Emits(rate: nat, before: seq<Write>, w: Write)
    requires rate >= 1
  {
    match w.level
    case Debug => true
    case DiscrepancyOnly => !w.entry.agrees
    case SampledAudit => IsMultiple(Sampled(before, StreamOf(w)) + 1, rate)
  }

  function Emitted(rate: nat, writes: seq<Write>): seq<AuditEntry>
    requires rate >= 1
  {
    if writes == [] then []
    else
      var front, last := writes[..|writes| - 1], writes[|writes| - 1];
      Emitted(rate, front) + if Emits(rate, front, last) then [last.entry] else []
  }

  lemma {:induction false} EmittedAppend(rate: nat, writes: seq<Write>, w: Write)
    requires rate >= 1
    ensures Emits(rate, writes, w) ==> Emitted(rate, writes + [w]) == Emitted(rate, writes) + [w.entry]
    ensures !Emits(rate, writes, w) ==> Emitted(rate, writes + [w]) == Emitted(rate, writes)
  {
    assert (writes + [w])[..|writes|] == writes;
    assert Emitted(rate, writes) + [] == Emitted(rate, writes);
  }

  function Sampled(writes: seq<Write>, s: Stream): nat { |Filter(writes, SampledIn(s))| }

  /** The counters a run's writes leave: one for each stream that has sampled. */
  ghost predicate Counted(writes: seq<Write>, counts: map<Stream, nat>) {
    forall s :: Sampled(writes, s) == if s in counts then counts[s] else 0
  }

  lemma {:induction false} SampledStep(writes: seq<Write>, w: Write, s: Stream)
    ensures Sampled(writes + [w], s) == Sampled(writes, s) + if SampledIn(s)(w) then 1 else 0
  {
    FilterAppend(writes, w, SampledIn(s));
  }

  lemma {:induction false} CountedStep(writes: seq<Write>, counts: map<Stream, nat>, w: Write)
    requires Counted(writes, counts)
    ensures var s := StreamOf(w);
            Counted(writes + [w], if w.level == SampledAudit then counts[s := Sampled(writes, s) + 1] else counts)
  {
    forall s ensures Sampled(writes + [w], s) == Sampled(writes, s) + if SampledIn(s)(w) then 1 else 0 {
      SampledStep(writes, w, s);
    }
  }

  ghost predicate KeepsUp(rate: nat, writes: seq<Write>, counts: map<Stream, nat>, emitted: seq<AuditEntry>) {
    rate >= 1 && Counted(writes, counts) && emitted == Emitted(rate, writes)
  }

  /** The counters and the log after one more write. */
  lemma {:induction false} KeepsUpStep(
      rate: nat, writes: seq<Write>, counts: map<Stream, nat>, emitted: seq<AuditEntry>, w: Write,
      counts': map<Stream, nat>, emitted': seq<AuditEntry>)
    requires KeepsUp(rate, writes, counts, emitted)
    requires counts' == if w.level == SampledAudit then counts[StreamOf(w) := Sampled(writes, StreamOf(w)) + 1] else counts
    requires emitted' == if Emits(rate, writes, w) then emitted + [w.entry] else emitted
    ensures KeepsUp(rate, writes + [w], counts', emitted')
  {
    EmittedAppend(rate, writes, w);
    CountedStep(writes, counts, w);
  }

  const MINIMUM_SAMPLE_RATE := 1

  class AuditLogWriter {
    const sampleRate: nat
    var counts: map<Stream, nat>
    var emitted: seq<AuditEntry>
    ghost var writes: seq<Write>

    ghost predicate Valid()
      reads this
    {
      KeepsUp(sampleRate, writes, counts, emitted)
    }

    constructor (rate: nat)
      requires rate >= 1
      ensures Valid() && sampleRate == rate && writes == [] && emitted == []
    {
      sampleRate := rate;
      counts, emitted, writes := map[], [], [];
    }

    /** A rate that names no sampling is refused. */
    static method Create(rate: int) returns (writer: Option<AuditLogWriter>)
      ensures writer.Some? <==> rate >= MINIMUM_SAMPLE_RATE
      ensures writer.Some? ==> fresh(writer.value) && writer.value.Valid() && writer.value.sampleRate == rate && writer.value.writes == []
    {
      if rate < MINIMUM_SAMPLE_RATE {
        return None;
      }
      var w := new AuditLogWriter(rate);
      return Some(w);
    }

    method Record(entry: AuditEntry, level: Level) returns (wasEmitted: bool)
      requires Valid()
      modifies this
      ensures Valid()
      ensures writes == old(writes) + [Write(entry, level)]
      ensures wasEmitted <==> Emits(sampleRate, old(writes), Write(entry, level))
      ensures emitted == if wasEmitted then old(emitted) + [entry] else old(emitted)
    {
      var w := Write(entry, level);
      ghost var countsBefore, emittedBefore := counts, emitted;
      match level {
        case Debug => wasEmitted := true;
        case DiscrepancyOnly => wasEmitted := !entry.agrees;
        case SampledAudit => wasEmitted := SampleIsDue(entry);
      }
      if wasEmitted {
        emitted := emitted + [entry];
      }
      KeepsUpStep(sampleRate, writes, countsBefore, emittedBefore, w, counts, emitted);
      writes := writes + [w];
    }

    /** Advances the entry's own stream, and no other. */
    method SampleIsDue(entry: AuditEntry) returns (due: bool)
      requires sampleRate >= 1 && Counted(writes, counts)
      modifies this`counts
      ensures due <==> IsMultiple(Sampled(writes, StreamOfEntry(entry)) + 1, sampleRate)
      ensures counts == old(counts)[StreamOfEntry(entry) := Sampled(writes, StreamOfEntry(entry)) + 1]
    {
      var stream := StreamOfEntry(entry);
      var count := (if stream in counts then counts[stream] else 0) + 1;
      assert count == Sampled(writes, stream) + 1;
      counts := counts[stream := count];
      due := IsMultiple(count, sampleRate);
    }
  }

  // ---------------------------------------------------------------- what is emitted

  /** Among the first `n` writes, those sampled for one kind and field. */
  function SampledBefore(writes: seq<Write>, n: nat, kind: Text, field: Text): nat
    requires n <= |writes|
  {
    if n == 0 then 0
    else
      var w := writes[n - 1];
      SampledBefore(writes, n - 1, kind, field) +
      if w.level == SampledAudit && w.entry.kind == kind && w.entry.field == field then 1 else 0
  }

  /** Everything at `debug`, disagreements at `discrepancy`, and at `sampled_audit` each Nth of its kind and field. */
  predicate IsDue(rate: nat, writes: seq<Write>, n: nat)
    requires rate >= 1 && n < |writes|
  {
    var w := writes[n];
    match w.level
    case Debug => true
    case DiscrepancyOnly => !w.entry.agrees
    case SampledAudit => IsMultiple(SampledBefore(writes, n, w.entry.kind, w.entry.field) + 1, rate)
  }

  lemma {:induction false} SampledBeforeIs(writes: seq<Write>, n: nat, kind: Text, field: Text)
    requires n <= |writes|
    ensures SampledBefore(writes, n, kind, field) == Sampled(writes[..n], (kind, field))
  {
    if n > 0 {
      SampledBeforeIs(writes, n - 1, kind, field);
      assert writes[..n] == writes[..n - 1] + [writes[n - 1]];
      SampledStep(writes[..n - 1], writes[n - 1], (kind, field));
    }
  }

  /** What is emitted is the entries of the writes that are due, each once and in their order. */
  lemma {:induction false} EmissionsExactly(rate: nat, writes: seq<Write>, k: nat) returns (at: seq<nat>)
    requires rate >= 1 && k <= |writes|
    ensures |at| == |Emitted(rate, writes[..k])|
    ensures forall i :: 0 <= i < |at| ==> at[i] < k && Emitted(rate, writes[..k])[i] == writes[at[i]].entry
    ensures forall i, j :: 0 <= i < j < |at| ==> at[i] < at[j]
    ensures forall n :: 0 <= n < k ==> (n in at <==> IsDue(rate, writes, n))
  {
    at := [];
    if k > 0 {
      at := EmissionsExactly(rate, writes, k - 1);
      var w := writes[k - 1];
      assert writes[..k] == writes[..k - 1] + [w];
      EmittedAppend(rate, writes[..k - 1], w);
      SampledBeforeIs(writes, k - 1, w.entry.kind, w.entry.field);
      assert Emits(rate, writes[..k - 1], w) <==> IsDue(rate, writes, k - 1);
      at := WithLast(at, k - 1, Emits(rate, writes[..k - 1], w));
    }
  }

  lemma {:induction false} WithLast(at: seq<nat>, last: nat, due: bool) returns (more: seq<nat>)
    requires forall i :: 0 <= i < |at| ==> at[i] < last
    ensures more == if due then at + [last] else at
    ensures forall n :: n in more <==> n in at || (due && n == last)
  {
    more := if due then at + [last] else at;
  }

  // ---------------------------------------------------------------- streams are independent

  lemma {:induction false} SampledWithinStream(writes: seq<Write>, s: Stream)
    ensures Sampled(Filter(writes, InStream(s)), s) == Sampled(writes, s)
  {
    if writes != [] {
      var front, last := writes[..|writes| - 1], writes[|writes| - 1];
      assert writes == front + [last];
      SampledWithinStream(front, s);
      FilterAppend(front, last, InStream(s));
      SampledStep(front, last, s);
      SampledStep(Filter(front, InStream(s)), last, s);
    }
  }

  lemma {:induction false} EmitsWithinStream(rate: nat, front: seq<Write>, w: Write)
    requires rate >= 1
    ensures Emits(rate, Filter(front, InStream(StreamOf(w))), w) <==> Emits(rate, front, w)
  {
    SampledWithinStream(front, StreamOf(w));
  }

  /** What a stream emits depends on its own writes alone, however others interleave and whatever their levels. */
  lemma {:induction false} StreamsAreIndependent(rate: nat, writes: seq<Write>, s: Stream)
    requires rate >= 1
    ensures Filter(Emitted(rate, writes), EntryIn(s)) == Emitted(rate, Filter(writes, InStream(s)))
  {
    if writes != [] {
      var front, last := writes[..|writes| - 1], writes[|writes| - 1];
      assert writes == front + [last];
      StreamsAreIndependent(rate, front, s);
      EmittedAppend(rate, front, last);
      FilterAppend(front, last, InStream(s));
      FilterAppend(Emitted(rate, front), last.entry, EntryIn(s));
      if StreamOf(last) == s {
        EmitsWithinStream(rate, front, last);
        EmittedAppend(rate, Filter(front, InStream(s)), last);
      }
    }
  }

  // ---------------------------------------------------------------- every Nth

  lemma {:induction false} NextMultiple(k: nat, n: nat)
    requires n >= 1
    ensures (k + 1) % n == 0 ==> (k + 1) / n == k / n + 1 && k + 1 == (k / n + 1) * n
    ensures (k + 1) % n != 0 ==> (k + 1) / n == k / n
  {
    var q, r := k / n, k % n;
    assert k == n * q + r;
    if r == n - 1 {
      assert k + 1 == n * (q + 1) + 0;
      QuotientIs(k + 1, n, q + 1, 0);
    } else {
      QuotientIs(k + 1, n, q, r + 1);
    }
  }

  lemma {:induction false} QuotientIs(a: nat, n: nat, q: nat, r: nat)
    requires n >= 1 && a == n * q + r && r < n
    ensures a / n == q && a % n == r
  {
    var d := a / n - q;
    assert a == n * (a / n) + a % n;
    assert n * d == r - a % n;
    assert d >= 1 ==> n * d >= n * 1;
    assert d <= -1 ==> n * d <= n * -1;
  }

  /** `out` holds the writes numbered N, 2N, 3N and so on. */
  ghost predicate EveryNth(rate: nat, writes: seq<Write>, out: seq<AuditEntry>)
    requires rate >= 1
  {
    && |out| == |writes| / rate
    && forall j :: 0 <= j < |out| ==> IsNth(rate, writes, out[j], j + 1)
  }

  predicate IsNth(rate: nat, writes: seq<Write>, e: AuditEntry, n: nat) {
    0 < n * rate <= |writes| && e == writes[n * rate - 1].entry
  }

  lemma {:induction false} NextOfEveryNth(rate: nat, front: seq<Write>, last: Write, out: seq<AuditEntry>)
    requires rate >= 1 && EveryNth(rate, front, out)
    ensures (|front| + 1) % rate == 0 ==> EveryNth(rate, front + [last], out + [last.entry])
    ensures (|front| + 1) % rate != 0 ==> EveryNth(rate, front + [last], out)
  {
    NextMultiple(|front|, rate);
    forall j | 0 <= j < |out| ensures IsNth(rate, front + [last], out[j], j + 1) {
      assert IsNth(rate, front, out[j], j + 1);
    }
  }

  /** A sampled stream of `k` writes emits those numbered N, 2N, 3N and so on: floor(k / N) of them. */
  lemma {:induction false} SampledEmitsEveryNth(rate: nat, writes: seq<Write>, s: Stream)
    requires rate >= 1
    requires forall w :: w in writes ==> w.level == SampledAudit && StreamOf(w) == s
    ensures EveryNth(rate, writes, Emitted(rate, writes))
  {
    if writes != [] {
      var front, last := writes[..|writes| - 1], writes[|writes| - 1];
      assert writes == front + [last];
      SampledEmitsEveryNth(rate, front, s);
      FilterAll(front, SampledIn(s));
      EmittedAppend(rate, front, last);
      NextOfEveryNth(rate, front, last, Emitted(rate, front));
    } else {
      assert 0 / rate == 0;
    }
  }
}
