/** Building envelope values from nodes: cycles refused, shared nodes built once. */
module Construction {
  import opened Options
  import opened Values
  import opened Nodes
  import opened Effort

  datatype Conversion = Converted(value: Value) | YamlError(line: Option<nat>) | NotConvertible

  /** YAML's own reading of one scalar. */
  type Reader = Node -> Conversion

  datatype Refusal = Refusal(fault: Fault, path: Option<Path>, line: Option<nat>)

  datatype Outcome<T> = Ok(value: T) | Refused(refusal: Refusal)

  /** A repeated key is reported at the key; every other fault at the node that has it. */
  function At(f: Fault, path: Path): Refusal {
    Refusal(f, Some(if f.RepeatedKey? then path + [f.name] else path), None)
  }

  function ScalarValue(read: Reader, node: Node, path: Path): Outcome<Value> {
    match read(node)
    case Converted(v) => Ok(v)
    case YamlError(line) => Refused(Refusal(Unparseable, None, line))
    case NotConvertible => Refused(At(Unparseable, path))
  }

  function Assembled(node: Node, steps: seq<Step>, values: seq<Value>): Value
    requires |steps| == |values|
  {
    if node.MappingNode? then Dict(seq(|steps|, i requires 0 <= i < |steps| => Entry(Name(steps[i].name), values[i])))
    else List(values)
  }

  // ---------------------------------------------------------------- the tree unfolding

  /** The value of a node read as the tree it unfolds to, every occurrence built afresh. */
  function Unfold(g: Graph, read: Reader, n: nat, path: Path, ancestors: set<nat>): Outcome<Value>
    requires WellFormed(g) && n < |g| && ancestors <= AllNodes(g)
    decreases |AllNodes(g) - ancestors|, 1
  {
    if n in ancestors then Refused(At(ContainsItself, path))
    else if g[n].ScalarNode? then ScalarValue(read, g[n], path)
    else
      match CollectionFault(g, n)
      case Some(f) => Refused(At(f, path))
      case None =>
        Narrower(g, n, ancestors);
        match UnfoldAll(g, read, Steps(g, n), path, ancestors + {n})
        case Refused(r) => Refused(r)
        case Ok(values) => Ok(Assembled(g[n], Steps(g, n), values))
  }

  function UnfoldAll(g: Graph, read: Reader, steps: seq<Step>, path: Path, within: set<nat>): (r: Outcome<seq<Value>>)
    requires WellFormed(g) && within <= AllNodes(g)
    requires forall i :: 0 <= i < |steps| ==> steps[i].node < |g|
    ensures r.Ok? ==> |r.value| == |steps|
    decreases |AllNodes(g) - within|, 2, |steps|
  {
    if steps == [] then Ok([])
    else
      match UnfoldAll(g, read, steps[..|steps| - 1], path, within)
      case Refused(r) => Refused(r)
      case Ok(values) =>
        var last := steps[|steps| - 1];
        match Unfold(g, read, last.node, path + [last.name], within)
        case Refused(r) => Refused(r)
        case Ok(v) => Ok(values + [v])
  }

  lemma {:induction false} Narrower(g: Graph, n: nat, ancestors: set<nat>)
    requires n < |g| && n !in ancestors && ancestors <= AllNodes(g)
    ensures |AllNodes(g) - (ancestors + {n})| < |AllNodes(g) - ancestors|
  {
    assert AllNodes(g) - ancestors == (AllNodes(g) - (ancestors + {n})) + {n};
  }

  lemma {:induction false} UnfoldAllStep(g: Graph, read: Reader, steps: seq<Step>, i: nat, path: Path, within: set<nat>)
    requires WellFormed(g) && within <= AllNodes(g) && i < |steps|
    requires forall j :: 0 <= j < |steps| ==> steps[j].node < |g|
    ensures UnfoldAll(g, read, steps[..i + 1], path, within) ==
            match UnfoldAll(g, read, steps[..i], path, within)
            case Refused(r) => Refused(r)
            case Ok(values) =>
              match Unfold(g, read, steps[i].node, path + [steps[i].name], within)
              case Refused(r) => Refused(r)
              case Ok(v) => Ok(values + [v])
  {
    assert steps[..i + 1][..i] == steps[..i];
  }

  /** Once a child is refused, the collection is refused the same way. */
  lemma {:induction false} RefusedPrefix(g: Graph, read: Reader, steps: seq<Step>, i: nat, path: Path, within: set<nat>)
    requires WellFormed(g) && within <= AllNodes(g) && i <= |steps|
    requires forall j :: 0 <= j < |steps| ==> steps[j].node < |g|
    requires UnfoldAll(g, read, steps[..i], path, within).Refused?
    ensures UnfoldAll(g, read, steps, path, within) == UnfoldAll(g, read, steps[..i], path, within)
    decreases |steps| - i
  {
    if i == |steps| {
      assert steps[..i] == steps;
    } else {
      UnfoldAllStep(g, read, steps, i, path, within);
      RefusedPrefix(g, read, steps, i + 1, path, within);
    }
  }

  // ---------------------------------------------------------------- when it succeeds

  /** A route down from its first node. */
  ghost predicate Walk(g: Graph, w: seq<nat>)
    requires WellFormed(g)
  {
    && w != []
    && (forall i :: 0 <= i < |w| ==> w[i] < |g|)
    && (forall i :: 0 <= i < |w| - 1 ==> Child(g, w[i], w[i + 1]))
  }

  ghost predicate Child(g: Graph, n: nat, m: nat)
    requires WellFormed(g)
  {
    n < |g| && exists i :: 0 <= i < |Steps(g, n)| && Steps(g, n)[i].node == m
  }

  /** The node breaks no rule of its own. */
  ghost predicate Fine(g: Graph, read: Reader, n: nat)
    requires WellFormed(g) && n < |g|
  {
    if g[n].ScalarNode? then read(g[n]).Converted? else CollectionFault(g, n) == None
  }

  /** Every route from `n` keeps to fine nodes, meets none of `ancestors`, and never comes back on itself. */
  ghost predicate Sane(g: Graph, read: Reader, w: seq<nat>, ancestors: set<nat>)
    requires WellFormed(g) && Walk(g, w)
  {
    && (forall i :: 0 <= i < |w| ==> w[i] !in ancestors && Fine(g, read, w[i]))
    && (forall i, j :: 0 <= i < j < |w| ==> w[i] != w[j])
  }

  lemma {:induction false} UnfoldAllOk(g: Graph, read: Reader, steps: seq<Step>, i: nat, path: Path, within: set<nat>)
    requires WellFormed(g) && within <= AllNodes(g) && i < |steps|
    requires forall j :: 0 <= j < |steps| ==> steps[j].node < |g|
    requires UnfoldAll(g, read, steps, path, within).Ok?
    ensures Unfold(g, read, steps[i].node, path + [steps[i].name], within) ==
            Ok(UnfoldAll(g, read, steps, path, within).value[i])
    decreases |steps|
  {
    if i < |steps| - 1 {
      UnfoldAllOk(g, read, steps[..|steps| - 1], i, path, within);
    }
  }

  lemma {:induction false} UnfoldAllRefused(g: Graph, read: Reader, steps: seq<Step>, path: Path, within: set<nat>) returns (i: nat)
    requires WellFormed(g) && within <= AllNodes(g)
    requires forall j :: 0 <= j < |steps| ==> steps[j].node < |g|
    requires UnfoldAll(g, read, steps, path, within).Refused?
    ensures i < |steps|
    ensures Unfold(g, read, steps[i].node, path + [steps[i].name], within) ==
            Refused(UnfoldAll(g, read, steps, path, within).refusal)
    ensures forall j :: 0 <= j < i ==> Unfold(g, read, steps[j].node, path + [steps[j].name], within).Ok?
    decreases |steps|
  {
    var front := steps[..|steps| - 1];
    if UnfoldAll(g, read, front, path, within).Refused? {
      i := UnfoldAllRefused(g, read, front, path, within);
      assert forall j :: 0 <= j < |front| ==> front[j] == steps[j];
    } else {
      i := |steps| - 1;
      forall j | 0 <= j < i ensures Unfold(g, read, steps[j].node, path + [steps[j].name], within).Ok? {
        UnfoldAllOk(g, read, front, j, path, within);
      }
    }
  }

  lemma {:induction false} BuiltMeansSane(
      g: Graph, read: Reader, n: nat, path: Path, ancestors: set<nat>, w: seq<nat>)
    requires WellFormed(g) && n < |g| && ancestors <= AllNodes(g)
    requires Unfold(g, read, n, path, ancestors).Ok? && Walk(g, w) && w[0] == n
    ensures Sane(g, read, w, ancestors)
    decreases |w|
  {
    if |w| > 1 {
      var rest := w[1..];
      assert Child(g, w[0], w[1]);
      var i :| 0 <= i < |Steps(g, n)| && Steps(g, n)[i].node == w[1];
      UnfoldAllOk(g, read, Steps(g, n), i, path, ancestors + {n});
      assert Walk(g, rest) by {
        forall j | 0 <= j < |rest| - 1 ensures Child(g, rest[j], rest[j + 1]) { assert Child(g, w[j + 1], w[j + 2]); }
      }
      BuiltMeansSane(g, read, w[1], path + [Steps(g, n)[i].name], ancestors + {n}, rest);
      assert forall j :: 0 < j < |w| ==> w[j] == rest[j - 1];
    }
  }

  /** A refusal is witnessed by a route to something wrong. */
  lemma {:induction false} RefusedMeansInsane(
      g: Graph, read: Reader, n: nat, path: Path, ancestors: set<nat>) returns (w: seq<nat>)
    requires WellFormed(g) && n < |g| && ancestors <= AllNodes(g) && Unfold(g, read, n, path, ancestors).Refused?
    ensures Walk(g, w) && w[0] == n && !Sane(g, read, w, ancestors)
    decreases |AllNodes(g) - ancestors|
  {
    if n in ancestors || g[n].ScalarNode? || CollectionFault(g, n).Some? {
      w := [n];
      assert w[0] == n;
    } else {
      Narrower(g, n, ancestors);
      var i := UnfoldAllRefused(g, read, Steps(g, n), path, ancestors + {n});
      var m := Steps(g, n)[i].node;
      var rest := RefusedMeansInsane(g, read, m, path + [Steps(g, n)[i].name], ancestors + {n});
      w := [n] + rest;
      assert forall j :: 0 <= j < |rest| ==> w[j + 1] == rest[j];
      assert Walk(g, w) by {
        assert Child(g, n, m);
        forall j | 0 <= j < |w| - 1 ensures Child(g, w[j], w[j + 1]) {
          if j > 0 { assert Child(g, rest[j - 1], rest[j]); }
        }
      }
      if Sane(g, read, w, ancestors) {
        forall j | 0 <= j < |rest| ensures rest[j] !in ancestors + {n} && Fine(g, read, rest[j]) {
          assert w[0] != w[j + 1];
        }
        forall j, k | 0 <= j < k < |rest| ensures rest[j] != rest[k] { assert w[j + 1] != w[k + 1]; }
        assert Sane(g, read, rest, ancestors + {n});
      }
    }
  }

  /** A node has a value exactly when nothing reachable from it breaks a rule or contains itself. */
  lemma {:induction false} BuildsExactlyWhenSane(g: Graph, read: Reader, n: nat, path: Path)
    requires WellFormed(g) && n < |g|
    ensures Unfold(g, read, n, path, {}).Ok? <==>
            forall w :: Walk(g, w) && w[0] == n ==> Sane(g, read, w, {})
  {
    if Unfold(g, read, n, path, {}).Ok? {
      forall w | Walk(g, w) && w[0] == n ensures Sane(g, read, w, {}) {
        BuiltMeansSane(g, read, n, path, {}, w);
      }
    } else {
      var w := RefusedMeansInsane(g, read, n, path, {});
    }
  }

  // ---------------------------------------------------------------- what a value says

  /**
   * What a node says, read off the value: a scalar's is YAML's reading of it, a sequence's its items' in order,
   * a mapping's its entries' in order, each under its own key.
   */
  ghost predicate Denotes(g: Graph, read: Reader, n: nat, v: Value)
    requires WellFormed(g)
    decreases v
  {
    n < |g| && NodeWithin(g, n) &&
    match g[n]
    case ScalarNode(_, _, _, _) => read(g[n]) == Converted(v)
    case SequenceNode(_, items) =>
      && v.List? && |v.items| == |items|
      && forall i :: 0 <= i < |items| ==> Denotes(g, read, items[i], v.items[i])
    case MappingNode(_, entries) =>
      && v.Dict? && |v.entries| == |entries|
      && forall i :: 0 <= i < |entries| ==>
           && IsKey(g[entries[i].0], v.entries[i].key)
           && (assert v.entries[i].value < v.entries[i]; Denotes(g, read, entries[i].1, v.entries[i].value))
  }

  predicate IsKey(node: Node, key: Key) { node.ScalarNode? && key == Name(node.text) }

  /** The unfolding of a node says what the node says. */
  lemma {:induction false} UnfoldDenotes(g: Graph, read: Reader, n: nat, path: Path, ancestors: set<nat>, v: Value)
    requires WellFormed(g) && n < |g| && ancestors <= AllNodes(g) && Unfold(g, read, n, path, ancestors) == Ok(v)
    ensures Denotes(g, read, n, v)
    decreases |AllNodes(g) - ancestors|
  {
    assert NodeWithin(g, n);
    if !g[n].ScalarNode? {
      Narrower(g, n, ancestors);
      var steps := Steps(g, n);
      var values := UnfoldAll(g, read, steps, path, ancestors + {n}).value;
      forall i | 0 <= i < |steps| ensures Denotes(g, read, steps[i].node, values[i]) {
        UnfoldAllOk(g, read, steps, i, path, ancestors + {n});
        UnfoldDenotes(g, read, steps[i].node, path + [steps[i].name], ancestors + {n}, values[i]);
      }
      AssembledDenotes(g, read, n, values);
    }
  }

  lemma {:induction false} AssembledDenotes(g: Graph, read: Reader, n: nat, values: seq<Value>)
    requires WellFormed(g) && n < |g| && !g[n].ScalarNode? && CollectionFault(g, n) == None && |values| == |Steps(g, n)|
    requires forall i :: 0 <= i < |values| ==> Denotes(g, read, Steps(g, n)[i].node, values[i])
    ensures Denotes(g, read, n, Assembled(g[n], Steps(g, n), values))
  {
    assert NodeWithin(g, n);
    var v := Assembled(g[n], Steps(g, n), values);
    match g[n]
    case SequenceNode(_, items) =>
      forall i | 0 <= i < |items| ensures Denotes(g, read, items[i], v.items[i]) {
        assert Steps(g, n)[i].node == items[i];
      }
    case MappingNode(_, entries) =>
      RulesAreExact(g, entries, {});
      forall i | 0 <= i < |entries|
        ensures IsKey(g[entries[i].0], v.entries[i].key) && Denotes(g, read, entries[i].1, v.entries[i].value)
      {
        assert Steps(g, n)[i] == Step(KeyText(g[entries[i].0]), entries[i].1);
      }
    case _ =>
  }

  /** And a node says one thing. */
  lemma {:induction false} DenotesOnce(g: Graph, read: Reader, n: nat, v: Value, w: Value)
    requires WellFormed(g) && Denotes(g, read, n, v) && Denotes(g, read, n, w)
    ensures v == w
    decreases v
  {
    match g[n]
    case SequenceNode(_, items) =>
      forall i | 0 <= i < |items| ensures v.items[i] == w.items[i] {
        DenotesOnce(g, read, items[i], v.items[i], w.items[i]);
      }
    case MappingNode(_, entries) =>
      forall i | 0 <= i < |entries| ensures v.entries[i] == w.entries[i] {
        assert v.entries[i].value < v.entries[i];
        DenotesOnce(g, read, entries[i].1, v.entries[i].value, w.entries[i].value);
      }
    case _ =>
  }

  // ---------------------------------------------------------------- the memoised walk

  /** What is remembered of one node is what its own rules make of what is remembered of its children. */
  ghost predicate Remembered(g: Graph, read: Reader, built: map<nat, Value>, rank: map<nat, nat>, m: nat)
    requires WellFormed(g) && m in built && built.Keys == rank.Keys
  {
    && m < |g|
    && if g[m].ScalarNode? then read(g[m]) == Converted(built[m])
       else
         && CollectionFault(g, m) == None
         && Known(built, Steps(g, m))
         && (forall i :: 0 <= i < |Steps(g, m)| ==> rank[Steps(g, m)[i].node] < rank[m])
         && built[m] == Assembled(g[m], Steps(g, m), Recalled(built, Steps(g, m)))
  }

  ghost predicate Known(built: map<nat, Value>, steps: seq<Step>) {
    forall i :: 0 <= i < |steps| ==> steps[i].node in built
  }

  function Recalled(built: map<nat, Value>, steps: seq<Step>): (values: seq<Value>)
    requires Known(built, steps)
    ensures |values| == |steps| && forall i :: 0 <= i < |steps| ==> values[i] == built[steps[i].node]
  {
    seq(|steps|, i requires 0 <= i < |steps| => built[steps[i].node])
  }

  ghost predicate Ranked(built: map<nat, Value>, rank: map<nat, nat>) {
    built.Keys == rank.Keys && forall m :: m in rank ==> rank[m] < |rank|
  }

  /** Remembered values are sound, and ranked in the order they were completed. */
  ghost predicate Sound(g: Graph, read: Reader, built: map<nat, Value>, rank: map<nat, nat>)
    requires WellFormed(g)
  {
    && Ranked(built, rank)
    && (forall m {:trigger Remembered(g, read, built, rank, m)} :: m in built ==> Remembered(g, read, built, rank, m))
  }

  lemma {:induction false} AllFromEach(
      g: Graph, read: Reader, built: map<nat, Value>, steps: seq<Step>, path: Path, within: set<nat>, n: nat)
    requires WellFormed(g) && within <= AllNodes(g) && n <= |steps|
    requires Known(built, steps) && forall i :: 0 <= i < |steps| ==> steps[i].node < |g|
    requires forall i :: 0 <= i < |steps| ==>
               Unfold(g, read, steps[i].node, path + [steps[i].name], within) == Ok(built[steps[i].node])
    ensures UnfoldAll(g, read, steps[..n], path, within) == Ok(Recalled(built, steps[..n]))
  {
    if n > 0 {
      AllFromEach(g, read, built, steps, path, within, n - 1);
      UnfoldAllStep(g, read, steps, n - 1, path, within);
      RecalledStep(built, built, steps, n - 1);
    }
  }

  /** A remembered value is the unfolding, wherever the node is met again. */
  lemma {:induction false} RememberedIsUnfolded(
      g: Graph, read: Reader, built: map<nat, Value>, rank: map<nat, nat>, m: nat, path: Path, ancestors: set<nat>)
    requires WellFormed(g) && Sound(g, read, built, rank) && m in built && ancestors <= AllNodes(g) && m < |g|
    requires forall a :: a in ancestors && a in rank ==> rank[a] > rank[m]
    ensures Unfold(g, read, m, path, ancestors) == Ok(built[m])
    decreases rank[m]
  {
    assert Remembered(g, read, built, rank, m);
    if !g[m].ScalarNode? {
      Narrower(g, m, ancestors);
      var steps := Steps(g, m);
      forall i | 0 <= i < |steps|
        ensures Unfold(g, read, steps[i].node, path + [steps[i].name], ancestors + {m}) == Ok(built[steps[i].node])
      {
        RememberedIsUnfolded(g, read, built, rank, steps[i].node, path + [steps[i].name], ancestors + {m});
      }
      AllFromEach(g, read, built, steps, path, ancestors + {m}, |steps|);
      assert steps[..|steps|] == steps;
    }
  }

  ghost predicate Extends<T>(more: map<nat, T>, less: map<nat, T>) {
    forall m :: m in less ==> m in more && more[m] == less[m]
  }

  lemma {:induction false} RecalledExtends(more: map<nat, Value>, less: map<nat, Value>, steps: seq<Step>)
    requires Extends(more, less) && Known(less, steps)
    ensures Known(more, steps) && Recalled(more, steps) == Recalled(less, steps)
  {}

  lemma {:induction false} RecalledStep(more: map<nat, Value>, less: map<nat, Value>, steps: seq<Step>, i: nat)
    requires i < |steps| && Extends(more, less) && Known(less, steps[..i]) && steps[i].node in more
    ensures Known(more, steps[..i + 1])
    ensures Recalled(more, steps[..i + 1]) == Recalled(less, steps[..i]) + [more[steps[i].node]]
  {
    assert steps[..i + 1] == steps[..i] + [steps[i]];
    RecalledExtends(more, less, steps[..i]);
  }

  lemma {:induction false} RememberedExtends(
      g: Graph, read: Reader, built: map<nat, Value>, rank: map<nat, nat>,
      built': map<nat, Value>, rank': map<nat, nat>, m: nat)
    requires WellFormed(g) && built.Keys == rank.Keys && built'.Keys == rank'.Keys
    requires Extends(built', built) && Extends(rank', rank)
    requires m in built && Remembered(g, read, built, rank, m)
    ensures Remembered(g, read, built', rank', m)
  {
    if !g[m].ScalarNode? { RecalledExtends(built', built, Steps(g, m)); }
  }

  /** What the node's own rules make of it, its children being remembered. */
  ghost predicate Makes(g: Graph, read: Reader, built: map<nat, Value>, n: nat, v: Value)
    requires WellFormed(g) && n < |g|
  {
    if g[n].ScalarNode? then read(g[n]) == Converted(v)
    else
      && CollectionFault(g, n) == None
      && Known(built, Steps(g, n))
      && v == Assembled(g[n], Steps(g, n), Recalled(built, Steps(g, n)))
  }

  lemma {:induction false} NewIsRemembered(
      g: Graph, read: Reader, built: map<nat, Value>, rank: map<nat, nat>, n: nat, v: Value)
    requires WellFormed(g) && Ranked(built, rank) && n < |g| && n !in built && Makes(g, read, built, n, v)
    ensures Remembered(g, read, built[n := v], rank[n := |rank|], n)
  {
    if !g[n].ScalarNode? { RecalledExtends(built[n := v], built, Steps(g, n)); }
  }

  lemma {:induction false} RankedGrows(built: map<nat, Value>, rank: map<nat, nat>, n: nat, v: Value)
    requires Ranked(built, rank) && n !in built
    ensures Ranked(built[n := v], rank[n := |rank|])
    ensures Extends(built[n := v], built) && Extends(rank[n := |rank|], rank)
  {
    var rank' := rank[n := |rank|];
    assert rank'.Keys == rank.Keys + {n} && |rank'.Keys| == |rank'| && |rank.Keys| == |rank|;
  }

  /** One more node, remembered after its children. */
  lemma {:induction false} SoundGrows(g: Graph, read: Reader, built: map<nat, Value>, rank: map<nat, nat>, n: nat, v: Value)
    requires WellFormed(g) && Sound(g, read, built, rank) && n < |g| && n !in built && Makes(g, read, built, n, v)
    ensures Sound(g, read, built[n := v], rank[n := |rank|])
  {
    var built', rank' := built[n := v], rank[n := |rank|];
    RankedGrows(built, rank, n, v);
    forall m | m in built' ensures Remembered(g, read, built', rank', m) {
      if m == n {
        NewIsRemembered(g, read, built, rank, n, v);
      } else {
        RememberedExtends(g, read, built, rank, built', rank', m);
      }
    }
  }

  /** The walk over one document: what it has built, and, for the record, what that took. */
  class Builder {
    const g: Graph
    const read: Reader
    var built: map<nat, Value>
    ghost var rank: map<nat, nat>
    ghost var calls: nat
    ghost var expanded: seq<nat>

    constructor (g: Graph, read: Reader)
      requires WellFormed(g)
      ensures this.g == g && this.read == read && built == map[] && calls == 0 && expanded == []
      ensures forall ancestors :: ancestors <= AllNodes(g) ==> Valid(ancestors)
    {
      this.g, this.read := g, read;
      built, rank := map[], map[];
      calls, expanded := 0, [];
    }

    /** No node on the path being built is remembered yet; a node was expanded only if it is one of either. */
    ghost predicate Valid(ancestors: set<nat>)
      reads this
    {
      && WellFormed(g)
      && ancestors <= AllNodes(g)
      && Sound(g, read, built, rank)
      && ancestors !! built.Keys
      && ExpandedOnce()
      && forall i :: 0 <= i < |expanded| ==> expanded[i] in built || expanded[i] in ancestors
    }

    ghost predicate ExpandedOnce()
      reads this
    {
      OnceEachBelow(expanded, |g|)
    }

    /** What remains to be paid of the calls that the expanded nodes and `further` calls account for. */
    ghost function Slack(further: int): int
      reads this
    {
      if WellFormed(g) then further + Work(g, expanded) - calls else 0
    }

    /**
     * `_constructed`: what the tree unfolding gives, refusals included, at the cost of one call for each
     * step out of each node expanded, and one more.
     */
    method Construct(n: nat, path: Path, ancestors: set<nat>) returns (r: Outcome<Value>)
      requires Valid(ancestors) && n < |g|
      modifies this
      ensures WellFormed(g) && ancestors <= AllNodes(g) && r == Unfold(g, read, n, path, ancestors)
      ensures r.Ok? ==> Valid(ancestors) && n in built && built[n] == r.value
      ensures r.Ok? ==> Extends(built, old(built)) && Extends(rank, old(rank))
      ensures ExpandedOnce()
      ensures Slack(1) >= old(Slack(0)) && (r.Ok? ==> Slack(1) == old(Slack(0)))
      decreases |AllNodes(g) - ancestors|, 1
    {
      calls := calls + 1;
      if n in ancestors {
        return Refused(At(ContainsItself, path));
      }
      if n in built {
        RememberedIsUnfolded(g, read, built, rank, n, path, ancestors);
        return Ok(built[n]);
      }
      r := Expand(n, path, ancestors);
    }

    /** The body of the walk, for a node neither on the path nor remembered. */
    method Expand(n: nat, path: Path, ancestors: set<nat>) returns (r: Outcome<Value>)
      requires Valid(ancestors) && n < |g| && n !in ancestors && n !in built
      modifies this
      ensures WellFormed(g) && ancestors <= AllNodes(g) && r == Unfold(g, read, n, path, ancestors)
      ensures r.Ok? ==> Valid(ancestors) && n in built && built[n] == r.value
      ensures r.Ok? ==> Extends(built, old(built)) && Extends(rank, old(rank))
      ensures ExpandedOnce()
      ensures Slack(0) >= old(Slack(0)) && (r.Ok? ==> Slack(0) == old(Slack(0)))
      decreases |AllNodes(g) - ancestors|, 0
    {
      Narrower(g, n, ancestors);
      Enter(n, ancestors);
      if g[n].ScalarNode? {
        r := ScalarValue(read, g[n], path);
      } else {
        r := ExpandCollection(n, path, ancestors);
      }
      if r.Ok? {
        Remember(n, r.value, ancestors);
      }
    }

    /** The node joins the path, and is counted as expanded. */
    ghost method Enter(n: nat, ancestors: set<nat>)
      requires Valid(ancestors) && n < |g| && n !in ancestors && n !in built
      modifies this`expanded
      ensures Valid(ancestors + {n}) && Slack(0) == old(Slack(0)) + |Steps(g, n)|
    {
      WorkAppend(g, expanded, n);
      expanded := expanded + [n];
    }

    /** A collection's value, its children built under the rules that it obeys itself. */
    method ExpandCollection(n: nat, path: Path, ancestors: set<nat>) returns (r: Outcome<Value>)
      requires Valid(ancestors + {n}) && n < |g| && n !in ancestors && !g[n].ScalarNode?
      modifies this
      ensures WellFormed(g) && ancestors <= AllNodes(g) && r == Unfold(g, read, n, path, ancestors)
      ensures r.Ok? ==> Valid(ancestors + {n}) && Makes(g, read, built, n, r.value)
      ensures r.Ok? ==> Extends(built, old(built)) && Extends(rank, old(rank))
      ensures ExpandedOnce()
      ensures Slack(|Steps(g, n)|) >= old(Slack(0)) && (r.Ok? ==> Slack(|Steps(g, n)|) == old(Slack(0)))
      decreases |AllNodes(g) - (ancestors + {n})|, 3
    {
      if CollectionFault(g, n).Some? {
        return Refused(At(CollectionFault(g, n).value, path));
      }
      var values := ConstructAll(n, path, ancestors + {n});
      if values.Refused? {
        return Refused(values.refusal);
      }
      return Ok(Assembled(g[n], Steps(g, n), values.value));
    }

    /** The comprehension over one collection's children, in order, stopping at the first refusal. */
    method ConstructAll(n: nat, path: Path, within: set<nat>) returns (r: Outcome<seq<Value>>)
      requires Valid(within) && n < |g|
      modifies this
      ensures WellFormed(g) && within <= AllNodes(g) && r == UnfoldAll(g, read, Steps(g, n), path, within)
      ensures r.Ok? ==> Valid(within)
      ensures r.Ok? ==> Known(built, Steps(g, n)) && r.value == Recalled(built, Steps(g, n))
      ensures r.Ok? ==> Extends(built, old(built)) && Extends(rank, old(rank))
      ensures ExpandedOnce()
      ensures Slack(|Steps(g, n)|) >= old(Slack(0)) && (r.Ok? ==> Slack(|Steps(g, n)|) == old(Slack(0)))
      decreases |AllNodes(g) - within|, 2
    {
      var steps := Steps(g, n);
      var values: seq<Value> := [];
      for i := 0 to |steps|
        invariant Valid(within) && Extends(built, old(built)) && Extends(rank, old(rank))
        invariant UnfoldAll(g, read, steps[..i], path, within) == Ok(values)
        invariant Known(built, steps[..i]) && values == Recalled(built, steps[..i])
        invariant Slack(i) == old(Slack(0))
      {
        ghost var before := built;
        UnfoldAllStep(g, read, steps, i, path, within);
        var v := Construct(steps[i].node, path + [steps[i].name], within);
        if v.Refused? {
          RefusedPrefix(g, read, steps, i + 1, path, within);
          return Refused(v.refusal);
        }
        RecalledStep(built, before, steps, i);
        values := values + [v.value];
      }
      assert steps[..|steps|] == steps;
      return Ok(values);
    }

    method Remember(n: nat, value: Value, ghost ancestors: set<nat>)
      requires Valid(ancestors + {n}) && n < |g| && n !in ancestors && Makes(g, read, built, n, value)
      modifies this`built, this`rank
      ensures Valid(ancestors) && n in built && built[n] == value
      ensures Extends(built, old(built)) && Extends(rank, old(rank))
    {
      SoundGrows(g, read, built, rank, n, value);
      built := built[n := value];
      rank := rank[n := |rank|];
    }
  }
}
