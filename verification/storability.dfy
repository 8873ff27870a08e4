/**
 * The barricade both planes share: a breadth-first walk that reports the first attribute
 * that could not survive storage.
 */
module Storability {
  import opened Options
  import opened Texts
  import opened Values
  import opened CanonicalForm

  datatype Fault = NotText | HoldsNul | HoldsSurrogate

  datatype Problem =
    | UnusableKey(index: nat, fault: Fault)
    | UnstorableText(fault: Fault)
    | NotFinite
    | NotJson

  datatype Verdict =
    | Accepted
    | BadName(index: nat, fault: Fault)
    | EncoderRefused
    | Offends(at: Address, path: Text, problem: Problem)

  /** Which child to take at each level, counted in insertion order. */
  type Address = seq<nat>

  function TextFault(s: Text): Option<Fault> {
    if 0 in s then Some(HoldsNul)
    else if exists i :: 0 <= i < |s| && IsSurrogate(s[i]) then Some(HoldsSurrogate)
    else None
  }

  function KeyFault(k: Key): Option<Fault> {
    match k
    case Odd(_) => Some(NotText)
    case Name(name) => TextFault(name)
  }

  /** The first key that cannot be used, as an offset into the entries. */
  function FirstUnusable(es: seq<Entry>): (r: Option<(nat, Fault)>)
    ensures r == None <==> forall i :: 0 <= i < |es| ==> KeyFault(es[i].key) == None
    ensures r.Some? ==>
              && r.value.0 < |es|
              && KeyFault(es[r.value.0].key) == Some(r.value.1)
              && forall i :: 0 <= i < r.value.0 ==> KeyFault(es[i].key) == None
  {
    if es == [] then None
    else if KeyFault(es[0].key).Some? then Some((0, KeyFault(es[0].key).value))
    else
      match FirstUnusable(es[1..])
      case None => None
      case Some((i, fault)) => Some((i + 1, fault))
  }

  /** What is wrong with one value, looking no deeper than its own keys. */
  function Inspect(v: Value): Option<Problem> {
    match v
    case Str(s) =>
      (match TextFault(s) case None => None case Some(fault) => Some(UnstorableText(fault)))
    case NonFinite(_) => Some(NotFinite)
    case Dict(entries) =>
      (match FirstUnusable(entries)
       case None => None
       case Some((i, fault)) => Some(UnusableKey(i, fault)))
    case Foreign(_) => Some(NotJson)
    case _ => None
  }

  function EntryValues(es: seq<Entry>): (vs: seq<Value>)
    ensures |vs| == |es| && forall i :: 0 <= i < |es| ==> vs[i] == es[i].value
  {
    seq(|es|, i requires 0 <= i < |es| => es[i].value)
  }

  function Children(v: Value): seq<Value> {
    match v
    case List(items) => items
    case Tuple(items) => items
    case Dict(entries) => EntryValues(entries)
    case _ => []
  }

  function KeyText(k: Key): Text {
    match k
    case Name(name) => name
    case Odd(repr) => AsText(repr)
  }

  /** How the path to a child extends the path to its parent: `[2]` or `.name`. */
  function Step(v: Value, k: nat): Text {
    if v.Dict? && k < |v.entries|
    then AsText(".") + KeyText(v.entries[k].key)
    else AsText("[") + AsText(Decimal(k)) + AsText("]")
  }

  predicate ValidAt(vs: seq<Value>, at: Address)
    decreases |at|
  {
    at != [] && at[0] < |vs| && (|at| == 1 || ValidAt(Children(vs[at[0]]), at[1..]))
  }

  function NodeAt(vs: seq<Value>, at: Address): Value
    requires ValidAt(vs, at)
    decreases |at|
  {
    if |at| == 1 then vs[at[0]] else NodeAt(Children(vs[at[0]]), at[1..])
  }

  function PathAt(es: seq<Entry>, at: Address): Text
    requires ValidAt(EntryValues(es), at)
    decreases |at|
  {
    if |at| == 1 then KeyText(es[at[0]].key)
    else
      ValidPrefix(EntryValues(es), at, |at| - 1);
      PathAt(es, at[..|at| - 1]) + Step(NodeAt(EntryValues(es), at[..|at| - 1]), at[|at| - 1])
  }

  lemma {:induction false} ValidPrefix(vs: seq<Value>, at: Address, n: nat)
    requires ValidAt(vs, at) && 0 < n <= |at|
    ensures ValidAt(vs, at[..n])
    decreases |at|
  {
    if n > 1 {
      ValidPrefix(Children(vs[at[0]]), at[1..], n - 1);
      assert at[..n][1..] == at[1..][..n - 1];
    }
  }

  lemma {:induction false} ValidExtension(vs: seq<Value>, at: Address, k: nat)
    requires ValidAt(vs, at)
    ensures ValidAt(vs, at + [k]) <==> k < |Children(NodeAt(vs, at))|
    ensures ValidAt(vs, at + [k]) ==> NodeAt(vs, at + [k]) == Children(NodeAt(vs, at))[k]
    decreases |at|
  {
    assert (at + [k])[1..] == at[1..] + [k];
    if |at| > 1 {
      ValidExtension(Children(vs[at[0]]), at[1..], k);
    } else {
      assert at[1..] == [];
    }
  }

  // ---------------------------------------------------------------- level order

  predicate LexLess(p: Address, q: Address)
    requires |p| == |q|
  {
    p != [] && (p[0] < q[0] || (p[0] == q[0] && LexLess(p[1..], q[1..])))
  }

  /** Shallower first; among equally shallow addresses, insertion order. */
  predicate Earlier(p: Address, q: Address) {
    |p| < |q| || (|p| == |q| && LexLess(p, q))
  }

  lemma {:induction false} EarlierTransitive(p: Address, q: Address, r: Address)
    requires Earlier(p, q) && Earlier(q, r)
    ensures Earlier(p, r)
  {
    if |p| == |q| == |r| { LexTransitive(p, q, r); }
  }

  lemma {:induction false} LexTransitive(p: Address, q: Address, r: Address)
    requires |p| == |q| == |r| && LexLess(p, q) && LexLess(q, r)
    ensures LexLess(p, r)
  {
    if p[0] == q[0] == r[0] { LexTransitive(p[1..], q[1..], r[1..]); }
  }

  lemma {:induction false} LexExtends(p: Address, q: Address, a: nat, b: nat)
    requires |p| == |q| && (LexLess(p, q) || (p == q && a < b))
    ensures LexLess(p + [a], q + [b])
  {
    assert (p + [a])[1..] == if p == [] then [] else p[1..] + [a];
    assert (q + [b])[1..] == if q == [] then [] else q[1..] + [b];
    if p != [] && p[0] == q[0] { LexExtends(p[1..], q[1..], a, b); }
  }

  // ---------------------------------------------------------------- the walk

  datatype Pending = Pending(at: Address, path: Text, value: Value)

  function Weight(v: Value): (w: nat)
    ensures w > 0
  {
    match v
    case List(items) => 1 + TotalWeight(items)
    case Tuple(items) => 1 + TotalWeight(items)
    case Dict(entries) => 1 + EntriesWeight(entries)
    case _ => 1
  }

  function TotalWeight(vs: seq<Value>): nat {
    if vs == [] then 0 else Weight(vs[0]) + TotalWeight(vs[1..])
  }

  function EntriesWeight(es: seq<Entry>): nat {
    if es == [] then 0 else
      assert es[0].value < es[0];
      Weight(es[0].value) + EntriesWeight(es[1..])
  }

  function QueueWeight(queue: seq<Pending>): nat {
    if queue == [] then 0 else Weight(queue[0].value) + QueueWeight(queue[1..])
  }

  lemma {:induction false} EntriesWeigh(es: seq<Entry>)
    ensures TotalWeight(EntryValues(es)) == EntriesWeight(es)
  {
    if es != [] {
      EntriesWeigh(es[1..]);
      assert EntryValues(es)[1..] == EntryValues(es[1..]);
    }
  }

  lemma {:induction false} QueueWeighs(queue: seq<Pending>, more: seq<Pending>)
    ensures QueueWeight(queue + more) == QueueWeight(queue) + QueueWeight(more)
  {
    if queue == [] {
      assert queue + more == more;
    } else {
      assert (queue + more)[1..] == queue[1..] + more;
      QueueWeighs(queue[1..], more);
    }
  }

  function ChildrenOf(p: Pending): (kids: seq<Pending>)
    ensures |kids| == |Children(p.value)|
    ensures forall k :: 0 <= k < |kids| ==>
              kids[k] == Pending(p.at + [k], p.path + Step(p.value, k), Children(p.value)[k])
  {
    seq(|Children(p.value)|, k requires 0 <= k < |Children(p.value)| =>
        Pending(p.at + [k], p.path + Step(p.value, k), Children(p.value)[k]))
  }

  lemma {:induction false} ChildrenWeigh(kids: seq<Pending>, vs: seq<Value>)
    requires |kids| == |vs| && forall k :: 0 <= k < |kids| ==> kids[k].value == vs[k]
    ensures QueueWeight(kids) == TotalWeight(vs)
  {
    if kids != [] { ChildrenWeigh(kids[1..], vs[1..]); }
  }

  /** A queued item carries the node at its address and the path that leads there. */
  ghost predicate Located(es: seq<Entry>, p: Pending) {
    && ValidAt(EntryValues(es), p.at)
    && p.value == NodeAt(EntryValues(es), p.at)
    && p.path == PathAt(es, p.at)
  }

  ghost predicate InLevelOrder(es: seq<Entry>, queue: seq<Pending>) {
    && (forall i :: 0 <= i < |queue| ==> Located(es, queue[i]))
    && InOrder(queue)
    && (forall i :: 0 <= i < |queue| ==> WithinReach(queue[0].at, queue[i].at))
  }

  predicate InOrder(queue: seq<Pending>) {
    forall i, j :: 0 <= i < j < |queue| ==> Earlier(queue[i].at, queue[j].at)
  }

  /** A queued address is at the head's depth, or is the child of a node dequeued before the head. */
  predicate WithinReach(head: Address, at: Address) {
    && |at| <= |head| + 1
    && (|at| == |head| + 1 ==> LexLess(at[..|head|], head))
  }

  /** Some queued item is `at` or one of its ancestors. */
  ghost predicate StillPending(queue: seq<Pending>, at: Address) {
    exists i :: 0 <= i < |queue| && queue[i].at <= at
  }

  ghost predicate DoneIsClean(es: seq<Entry>, queue: seq<Pending>) {
    forall at :: ValidAt(EntryValues(es), at) && !StillPending(queue, at) ==>
                   Inspect(NodeAt(EntryValues(es), at)) == None
  }

  ghost predicate NamesUsable(es: seq<Entry>) {
    forall i :: 0 <= i < |es| ==> KeyFault(es[i].key) == None
  }

  /** The node at `at` cannot be stored. */
  ghost predicate OffendsAt(es: seq<Entry>, at: Address) {
    ValidAt(EntryValues(es), at) && Inspect(NodeAt(EntryValues(es), at)).Some?
  }

  /** What each verdict claims about the attributes it was reached on. */
  ghost predicate Justified(es: seq<Entry>, encoderRefuses: bool, verdict: Verdict) {
    match verdict
    case BadName(i, fault) =>
      && i < |es|
      && KeyFault(es[i].key) == Some(fault)
      && forall j :: 0 <= j < i ==> KeyFault(es[j].key) == None
    case EncoderRefused => NamesUsable(es) && encoderRefuses
    case Offends(at, path, problem) =>
      && NamesUsable(es)
      && !encoderRefuses
      && OffendsAt(es, at)
      && Inspect(NodeAt(EntryValues(es), at)) == Some(problem)
      && path == PathAt(es, at)
      && forall other :: OffendsAt(es, other) && other != at ==> Earlier(at, other)
    case Accepted =>
      && NamesUsable(es)
      && !encoderRefuses
      && forall at :: !OffendsAt(es, at)
  }

  method UnstorableAttribute(attributes: seq<Entry>, encoderRefuses: bool) returns (verdict: Verdict)
    ensures Justified(attributes, encoderRefuses, verdict)
  {
    match FirstUnusable(attributes) {
      case Some((i, fault)) => return BadName(i, fault);
      case None =>
    }
    if encoderRefuses {
      return EncoderRefused;
    }
    var pending := seq(|attributes|, i requires 0 <= i < |attributes| =>
      Pending([i], KeyText(attributes[i].key), attributes[i].value));
    StartsInLevelOrder(attributes, pending);
    while pending != []
      invariant InLevelOrder(attributes, pending)
      invariant DoneIsClean(attributes, pending)
      decreases QueueWeight(pending)
    {
      var head := pending[0];
      match Inspect(head.value) {
        case Some(problem) =>
          HeadIsFirst(attributes, pending);
          return Offends(head.at, head.path, problem);
        case None =>
      }
      StepKeepsOrder(attributes, pending);
      StepKeepsClean(attributes, pending);
      StepLightens(pending);
      pending := pending[1..] + ChildrenOf(head);
    }
    forall at ensures !OffendsAt(attributes, at) {
      assert !StillPending(pending, at);
    }
    return Accepted;
  }

  lemma {:induction false} StartsInLevelOrder(es: seq<Entry>, queue: seq<Pending>)
    requires |queue| == |es|
    requires forall i :: 0 <= i < |es| ==> queue[i] == Pending([i], KeyText(es[i].key), es[i].value)
    ensures InLevelOrder(es, queue) && DoneIsClean(es, queue)
  {
    forall at | ValidAt(EntryValues(es), at) ensures StillPending(queue, at) {
      assert queue[at[0]].at <= at;
    }
  }

  lemma {:induction false} HeadIsFirst(es: seq<Entry>, queue: seq<Pending>)
    requires queue != [] && InLevelOrder(es, queue) && DoneIsClean(es, queue)
    ensures forall other :: OffendsAt(es, other) && other != queue[0].at ==> Earlier(queue[0].at, other)
  {
    var head := queue[0].at;
    forall other | OffendsAt(es, other) && other != head ensures Earlier(head, other) {
      assert StillPending(queue, other);
      var i :| 0 <= i < |queue| && queue[i].at <= other;
      if i > 0 {
        assert Earlier(head, queue[i].at);
      }
      if |queue[i].at| == |other| {
        assert queue[i].at == other;
      }
    }
  }

  lemma {:induction false} StepLightens(queue: seq<Pending>)
    requires queue != []
    ensures QueueWeight(queue[1..] + ChildrenOf(queue[0])) < QueueWeight(queue)
  {
    var v := queue[0].value;
    QueueWeighs(queue[1..], ChildrenOf(queue[0]));
    ChildrenWeigh(ChildrenOf(queue[0]), Children(v));
    if v.Dict? { EntriesWeigh(v.entries); }
  }

  lemma {:induction false} ChildAt(es: seq<Entry>, p: Pending, k: nat)
    requires Located(es, p) && k < |Children(p.value)|
    ensures Located(es, ChildrenOf(p)[k])
  {
    ValidExtension(EntryValues(es), p.at, k);
    assert (p.at + [k])[..|p.at|] == p.at;
  }

  lemma {:induction false} StepKeepsOrder(es: seq<Entry>, queue: seq<Pending>)
    requires queue != [] && InLevelOrder(es, queue)
    ensures InLevelOrder(es, queue[1..] + ChildrenOf(queue[0]))
  {
    var head, kids := queue[0], ChildrenOf(queue[0]);
    var next := queue[1..] + kids;
    forall i | 0 <= i < |next| ensures Located(es, next[i]) {
      StepKeepsLocated(es, queue, i);
    }
    StepKeepsSorted(queue);
    forall i | 0 <= i < |next| ensures WithinReach(next[0].at, next[i].at) {
      StepKeepsReach(es, queue, i);
    }
  }

  lemma {:induction false} StepKeepsLocated(es: seq<Entry>, queue: seq<Pending>, i: nat)
    requires queue != [] && InLevelOrder(es, queue) && i < |queue| - 1 + |ChildrenOf(queue[0])|
    ensures Located(es, (queue[1..] + ChildrenOf(queue[0]))[i])
  {
    if i >= |queue| - 1 {
      ChildAt(es, queue[0], i - (|queue| - 1));
    } else {
      assert Located(es, queue[i + 1]);
    }
  }

  lemma {:induction false} InOrderConcat(a: seq<Pending>, b: seq<Pending>)
    requires InOrder(a) && InOrder(b)
    requires forall i, j :: 0 <= i < |a| && 0 <= j < |b| ==> Earlier(a[i].at, b[j].at)
    ensures InOrder(a + b)
  {}

  lemma {:induction false} KidsInOrder(head: Pending)
    ensures InOrder(ChildrenOf(head))
  {
    var kids := ChildrenOf(head);
    forall i, j | 0 <= i < j < |kids| ensures Earlier(kids[i].at, kids[j].at) {
      LexExtends(head.at, head.at, i, j);
    }
  }

  lemma {:induction false} TailInOrder(queue: seq<Pending>)
    requires queue != [] && InOrder(queue)
    ensures InOrder(queue[1..])
  {
    forall i, j | 0 <= i < j < |queue| - 1 ensures Earlier(queue[1..][i].at, queue[1..][j].at) {
      assert Earlier(queue[i + 1].at, queue[j + 1].at);
    }
  }

  lemma {:induction false} StepKeepsSorted(queue: seq<Pending>)
    requires queue != [] && InOrder(queue)
    requires forall i :: 0 <= i < |queue| ==> WithinReach(queue[0].at, queue[i].at)
    ensures InOrder(queue[1..] + ChildrenOf(queue[0]))
  {
    var rest, kids := queue[1..], ChildrenOf(queue[0]);
    TailInOrder(queue);
    KidsInOrder(queue[0]);
    forall i, j | 0 <= i < |rest| && 0 <= j < |kids| ensures Earlier(rest[i].at, kids[j].at) {
      assert rest[i] == queue[i + 1];
      KidsComeLater(queue[0], queue[i + 1].at, j);
    }
    InOrderConcat(rest, kids);
  }

  lemma {:induction false} StepKeepsReach(es: seq<Entry>, queue: seq<Pending>, i: nat)
    requires queue != [] && InLevelOrder(es, queue)
    requires i < |queue| - 1 + |ChildrenOf(queue[0])|
    ensures var next := queue[1..] + ChildrenOf(queue[0]); WithinReach(next[0].at, next[i].at)
  {
    var head, rest := queue[0], |queue| - 1;
    if rest > 0 {
      assert Earlier(head.at, queue[1].at) && WithinReach(head.at, queue[1].at);
      if i < rest {
        assert WithinReach(head.at, queue[i + 1].at);
        ReachMoves(head.at, queue[1].at, queue[i + 1].at);
      } else {
        KidInReach(head.at, queue[1].at, i - rest);
      }
    }
  }

  lemma {:induction false} KidInReach(head: Address, next: Address, k: nat)
    requires Earlier(head, next) && WithinReach(head, next)
    ensures WithinReach(next, head + [k])
  {
    assert (head + [k])[..|head|] == head;
  }

  lemma {:induction false} KidsComeLater(head: Pending, at: Address, k: nat)
    requires WithinReach(head.at, at) && k < |Children(head.value)|
    ensures Earlier(at, head.at + [k])
  {
    if |at| == |head.at| + 1 {
      assert at == at[..|head.at|] + [at[|head.at|]];
      LexExtends(at[..|head.at|], head.at, at[|head.at|], k);
    }
  }

  lemma {:induction false} ReachMoves(head: Address, next: Address, at: Address)
    requires Earlier(head, next) && WithinReach(head, next) && WithinReach(head, at)
    ensures WithinReach(next, at)
  {
    if |at| == |next| + 1 {
      LexTransitive(at[..|head|], head, next);
    }
  }

  lemma {:induction false} StepKeepsClean(es: seq<Entry>, queue: seq<Pending>)
    requires queue != [] && InLevelOrder(es, queue) && DoneIsClean(es, queue)
    requires Inspect(queue[0].value) == None
    ensures DoneIsClean(es, queue[1..] + ChildrenOf(queue[0]))
  {
    var vs, head, kids := EntryValues(es), queue[0], ChildrenOf(queue[0]);
    var next := queue[1..] + kids;
    forall at | ValidAt(vs, at) && !StillPending(next, at) ensures Inspect(NodeAt(vs, at)) == None {
      if StillPending(queue, at) && at != head.at {
        PendingMovesOn(es, queue, at);
      }
    }
  }

  lemma {:induction false} ChildTowards(vs: seq<Value>, above: Address, at: Address)
    requires ValidAt(vs, above) && ValidAt(vs, at) && above < at
    ensures at[|above|] < |Children(NodeAt(vs, above))| && above + [at[|above|]] <= at
  {
    ValidPrefix(vs, at, |above| + 1);
    assert at[..|above| + 1] == above + [at[|above|]];
    ValidExtension(vs, above, at[|above|]);
  }

  lemma {:induction false} PendingAt(queue: seq<Pending>, i: nat, at: Address)
    requires i < |queue| && queue[i].at <= at
    ensures StillPending(queue, at)
  {}

  lemma {:induction false} PendingConcat(a: seq<Pending>, b: seq<Pending>, at: Address)
    requires StillPending(a, at) || StillPending(b, at)
    ensures StillPending(a + b, at)
  {
    if i :| 0 <= i < |a| && a[i].at <= at {
      PendingAt(a + b, i, at);
    } else {
      var j :| 0 <= j < |b| && b[j].at <= at;
      PendingAt(a + b, |a| + j, at);
    }
  }

  /** Once the head is dequeued, whatever lay below it is pending through one of its children. */
  lemma {:induction false} PendingMovesOn(es: seq<Entry>, queue: seq<Pending>, at: Address)
    requires queue != [] && Located(es, queue[0])
    requires ValidAt(EntryValues(es), at) && StillPending(queue, at) && at != queue[0].at
    ensures StillPending(queue[1..] + ChildrenOf(queue[0]), at)
  {
    var head := queue[0];
    var i :| 0 <= i < |queue| && queue[i].at <= at;
    if i > 0 {
      PendingAt(queue[1..], i - 1, at);
    } else {
      ChildTowards(EntryValues(es), head.at, at);
      PendingAt(ChildrenOf(head), at[|head.at|], at);
    }
    PendingConcat(queue[1..], ChildrenOf(head), at);
  }

  // ---------------------------------------------------------------- what acceptance means

  lemma {:induction false} TextFaultMeans(s: Text)
    ensures TextFault(s) == None <==> StorableText(s)
  {}

  /** No mapping at any depth states a key twice, which Python's `dict` guarantees. */
  predicate Pythonic(v: Value) {
    match v
    case List(items) => forall i :: 0 <= i < |items| ==> Pythonic(items[i])
    case Tuple(items) => forall i :: 0 <= i < |items| ==> Pythonic(items[i])
    case Dict(entries) =>
      && DistinctKeys(entries)
      && forall i :: 0 <= i < |entries| ==> assert entries[i].value < entries[i]; Pythonic(entries[i].value)
    case _ => true
  }

  /** Nothing at or below these values offends. */
  ghost predicate AllClean(vs: seq<Value>) {
    forall at :: ValidAt(vs, at) ==> Inspect(NodeAt(vs, at)) == None
  }

  lemma {:induction false} CleanBelow(vs: seq<Value>, i: nat)
    requires i < |vs| && AllClean(vs)
    ensures Inspect(vs[i]) == None && AllClean(Children(vs[i]))
  {
    assert ValidAt(vs, [i]) && NodeAt(vs, [i]) == vs[i];
    forall at | ValidAt(Children(vs[i]), at) ensures Inspect(NodeAt(Children(vs[i]), at)) == None {
      assert ([i] + at)[1..] == at;
      assert ValidAt(vs, [i] + at) && NodeAt(vs, [i] + at) == NodeAt(Children(vs[i]), at);
    }
  }

  lemma {:induction false} CleanFromBelow(vs: seq<Value>)
    requires forall i :: 0 <= i < |vs| ==> Inspect(vs[i]) == None && AllClean(Children(vs[i]))
    ensures AllClean(vs)
  {
    forall at | ValidAt(vs, at) ensures Inspect(NodeAt(vs, at)) == None {
      if |at| > 1 {
        assert ValidAt(Children(vs[at[0]]), at[1..]);
      }
    }
  }

  lemma {:induction false} KeysUsable(es: seq<Entry>)
    ensures NamesUsable(es) <==> NamedKeys(es) && forall i :: 0 <= i < |es| ==> StorableText(es[i].key.name)
  {
    forall i | 0 <= i < |es|
      ensures KeyFault(es[i].key) == None <==> es[i].key.Name? && StorableText(es[i].key.name)
    {
      if es[i].key.Name? { TextFaultMeans(es[i].key.name); }
    }
  }

  lemma {:induction false} CleanIsStorable(v: Value)
    requires Pythonic(v)
    ensures Inspect(v) == None && AllClean(Children(v)) <==> Storable(v)
  {
    match v
    case Str(s) => TextFaultMeans(s);
    case List(items) => CleanItems(items);
    case Tuple(items) => CleanItems(items);
    case Dict(entries) =>
      KeysUsable(entries);
      CleanEntries(entries);
    case _ =>
  }

  lemma {:induction false} CleanItems(vs: seq<Value>)
    requires forall i :: 0 <= i < |vs| ==> Pythonic(vs[i])
    ensures AllClean(vs) <==> AllStorable(vs)
  {
    forall i | 0 <= i < |vs| ensures Inspect(vs[i]) == None && AllClean(Children(vs[i])) <==> Storable(vs[i]) {
      CleanIsStorable(vs[i]);
    }
    if AllClean(vs) {
      forall i | 0 <= i < |vs| ensures Storable(vs[i]) { CleanBelow(vs, i); }
    }
    if AllStorable(vs) { CleanFromBelow(vs); }
  }

  lemma {:induction false} CleanEntries(es: seq<Entry>)
    requires forall i :: 0 <= i < |es| ==> Pythonic(es[i].value)
    ensures AllClean(EntryValues(es)) <==> forall i :: 0 <= i < |es| ==> Storable(es[i].value)
  {
    var vs := EntryValues(es);
    forall i | 0 <= i < |es|
      ensures Inspect(vs[i]) == None && AllClean(Children(vs[i])) <==> Storable(es[i].value)
    {
      assert es[i].value < es[i];
      CleanIsStorable(es[i].value);
    }
    if AllClean(vs) {
      forall i | 0 <= i < |es| ensures Storable(es[i].value) { CleanBelow(vs, i); }
    }
    if forall i :: 0 <= i < |es| ==> Storable(es[i].value) { CleanFromBelow(vs); }
  }

  /**
   * Past the encoder, attributes are accepted exactly when every name, key and value at every
   * depth is storable; every accepted value then has a canonical form.
   */
  lemma {:induction false} AcceptanceIsStorability(es: seq<Entry>, verdict: Verdict)
    requires Pythonic(Dict(es)) && Justified(es, false, verdict)
    ensures verdict == Accepted <==> EntriesStorable(es)
    ensures verdict == Accepted ==> EntriesEncodable(es)
  {
    KeysUsable(es);
    CleanEntries(es);
    assert (forall at :: !OffendsAt(es, at)) <==> AllClean(EntryValues(es)) by {
      if forall at :: !OffendsAt(es, at) {
        forall at | ValidAt(EntryValues(es), at) ensures Inspect(NodeAt(EntryValues(es), at)) == None {
          assert !OffendsAt(es, at);
        }
      }
    }
  }

  /** The verdict is determined: no two verdicts are justified for the same attributes. */
  lemma {:induction false} VerdictIsUnique(es: seq<Entry>, encoderRefuses: bool, a: Verdict, b: Verdict)
    requires Justified(es, encoderRefuses, a) && Justified(es, encoderRefuses, b)
    ensures a == b
  {
    if a.Offends? && b.Offends? && a.at != b.at {
      EarlierTransitive(a.at, b.at, a.at);
      NotEarlierThanItself(a.at);
    }
  }

  lemma {:induction false} NotEarlierThanItself(p: Address)
    ensures !Earlier(p, p)
  {
    if p != [] { NotEarlierThanItself(p[1..]); }
  }

  /** What each fault of a text says of it: a NUL first, then a surrogate. */
  lemma {:induction false} TextFaultIsTrue(s: Text)
    ensures TextFault(s) == Some(HoldsNul) <==> exists i :: 0 <= i < |s| && s[i] == 0
    ensures TextFault(s) == Some(HoldsSurrogate) <==>
            (forall i :: 0 <= i < |s| ==> s[i] != 0) && exists i :: 0 <= i < |s| && 0xD800 <= s[i] <= 0xDFFF
  {
    if i :| 0 <= i < |s| && 0xD800 <= s[i] <= 0xDFFF { assert IsSurrogate(s[i]); }
  }

  /** What is said of the node named is true of it. */
  lemma {:induction false} InspectIsTrue(v: Value)
    ensures match Inspect(v)
            case Some(UnstorableText(fault)) => v.Str? && TextFault(v.s) == Some(fault)
            case Some(NotFinite) => v.NonFinite?
            case Some(NotJson) => v.Foreign?
            case Some(UnusableKey(i, NotText)) => v.Dict? && i < |v.entries| && v.entries[i].key.Odd?
            case Some(UnusableKey(i, fault)) =>
              v.Dict? && i < |v.entries| && v.entries[i].key.Name? && TextFault(v.entries[i].key.name) == Some(fault)
            case None =>
              && !v.NonFinite? && !v.Foreign? && (v.Str? ==> TextFault(v.s) == None)
              && (v.Dict? ==> forall i :: 0 <= i < |v.entries| ==> v.entries[i].key.Name? && TextFault(v.entries[i].key.name) == None)
  {}

  /** How the place named is spelt: the attribute's name, then `.key` into a mapping and `[index]` into a list. */
  lemma {:induction false} PathSpells(es: seq<Entry>, at: Address, k: nat)
    requires ValidAt(EntryValues(es), at + [k])
    ensures at == [] ==> PathAt(es, at + [k]) == KeyText(es[k].key)
    ensures at != [] ==> ValidAt(EntryValues(es), at)
    ensures at != [] ==>
              var v := NodeAt(EntryValues(es), at);
              PathAt(es, at + [k]) ==
              PathAt(es, at) + if v.Dict? && k < |v.entries| then AsText(".") + KeyText(v.entries[k].key)
                               else AsText("[") + AsText(Decimal(k)) + AsText("]")
  {
    var all := at + [k];
    assert all[..|all| - 1] == at && all[|all| - 1] == k;
    if at != [] { ValidPrefix(EntryValues(es), all, |at|); }
  }
}
