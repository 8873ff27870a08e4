/** Locating a rejection: the walk that records the line each key of a document is written on. */
module KeyLines {
  import opened Texts
  import opened CanonicalForm
  import opened Identity
  import opened Nodes
  import opened Effort

  /** The steps the line walk takes: into every item, and into the value of every scalar key. */
  function Descents(g: Graph, n: nat): (steps: seq<Step>)
    requires WellFormed(g) && n < |g|
    ensures forall i :: 0 <= i < |steps| ==> steps[i].node < |g|
  {
    assert NodeWithin(g, n);
    match g[n]
    case ScalarNode(_, _, _, _) => []
    case SequenceNode(_, items) => Steps(g, n)
    case MappingNode(_, entries) => ScalarKeySteps(g, entries)
  }

  function ScalarKeySteps(g: Graph, entries: seq<(nat, nat)>): (steps: seq<Step>)
    requires forall i :: 0 <= i < |entries| ==> entries[i].0 < |g| && entries[i].1 < |g|
    ensures forall i :: 0 <= i < |steps| ==> steps[i].node < |g|
  {
    if entries == [] then []
    else
      var key := g[entries[|entries| - 1].0];
      ScalarKeySteps(g, entries[..|entries| - 1]) +
      if key.ScalarNode? then [Step(key.text, entries[|entries| - 1].1)] else []
  }

  function Front(path: Path): Path { if path == [] then [] else path[..|path| - 1] }
  function Last(path: Path): Text { if path == [] then [] else path[|path| - 1] }

  /** `path` leads from `root` to `n`. */
  ghost predicate Leads(g: Graph, root: nat, path: Path, n: nat)
    requires WellFormed(g)
    decreases |path|
  {
    n < |g| &&
    if path == [] then n == root
    else exists p: nat :: Leads(g, root, Front(path), p) && StepsTo(g, p, Last(path), n)
  }

  ghost predicate StepsTo(g: Graph, p: nat, name: Text, n: nat)
    requires WellFormed(g)
  {
    p < |g| && Step(name, n) in Descents(g, p)
  }

  /** Some mapping at the front of the path states its last step as a scalar key on this line. */
  ghost predicate Written(g: Graph, root: nat, path: Path, line: nat)
    requires WellFormed(g)
  {
    path != [] && exists m: nat :: Leads(g, root, Front(path), m) && StatesKey(g, m, Last(path), line)
  }

  ghost predicate StatesKey(g: Graph, m: nat, name: Text, line: nat)
    requires WellFormed(g)
  {
    m < |g| && g[m].MappingNode? && NodeWithin(g, m) &&
    exists i :: 0 <= i < |g[m].entries| && KeyAt(g, g[m].entries[i].0, name, line)
  }

  predicate KeyAt(g: Graph, k: nat, name: Text, line: nat) {
    k < |g| && g[k].ScalarNode? && g[k].text == name && g[k].line + 1 == line
  }

  predicate IsCollection(g: Graph, n: nat) { n < |g| && !g[n].ScalarNode? }

  lemma {:induction false} LeadsOn(g: Graph, root: nat, path: Path, p: nat, name: Text, n: nat)
    requires WellFormed(g) && Leads(g, root, path, p) && StepsTo(g, p, name, n)
    ensures Leads(g, root, path + [name], n)
  {
    assert Front(path + [name]) == path;
  }

  lemma {:induction false} WrittenAt(g: Graph, root: nat, path: Path, m: nat, name: Text, line: nat)
    requires WellFormed(g) && Leads(g, root, path, m) && StatesKey(g, m, name, line)
    ensures Written(g, root, path + [name], line)
  {
    assert Front(path + [name]) == path;
  }

  lemma {:induction false} ScalarKeyStep(g: Graph, entries: seq<(nat, nat)>, i: nat)
    requires i < |entries| && forall j :: 0 <= j < |entries| ==> entries[j].0 < |g| && entries[j].1 < |g|
    requires g[entries[i].0].ScalarNode?
    ensures Step(g[entries[i].0].text, entries[i].1) in ScalarKeySteps(g, entries)
  {
    if i < |entries| - 1 { ScalarKeyStep(g, entries[..|entries| - 1], i); }
  }

  lemma {:induction false} ScalarKeyFrom(g: Graph, entries: seq<(nat, nat)>, s: Step)
    requires forall j :: 0 <= j < |entries| ==> entries[j].0 < |g| && entries[j].1 < |g|
    requires s in ScalarKeySteps(g, entries)
    ensures exists i :: 0 <= i < |entries| && g[entries[i].0].ScalarNode? && s == Step(g[entries[i].0].text, entries[i].1)
  {
    var front := entries[..|entries| - 1];
    if s in ScalarKeySteps(g, front) {
      ScalarKeyFrom(g, front, s);
      var i :| 0 <= i < |front| && g[front[i].0].ScalarNode? && s == Step(g[front[i].0].text, front[i].1);
      assert entries[i] == front[i];
    }
  }

  // ---------------------------------------------------------------- the walk

  /** A node is settled when its keys have their lines and every collection below it has been visited. */
  ghost predicate Settled(g: Graph, m: nat, at: Path, lines: map<Path, nat>, visited: set<nat>)
    requires WellFormed(g)
  {
    && m < |g|
    && (forall name, n :: StepsTo(g, m, name, n) && IsCollection(g, n) ==> n in visited)
    && (forall name, line :: StatesKey(g, m, name, line) ==> at + [name] in lines)
  }

  lemma {:induction false} StaysSettled(
      g: Graph, m: nat, at: Path, lines: map<Path, nat>, visited: set<nat>, lines': map<Path, nat>, visited': set<nat>)
    requires WellFormed(g) && Settled(g, m, at, lines, visited) && lines.Keys <= lines'.Keys && visited <= visited'
    ensures Settled(g, m, at, lines', visited')
  {}

  ghost predicate ItemsDone(g: Graph, steps: seq<Step>, visited: set<nat>) {
    forall i :: 0 <= i < |steps| && IsCollection(g, steps[i].node) ==> steps[i].node in visited
  }

  ghost predicate EntriesDone(g: Graph, entries: seq<(nat, nat)>, at: Path, lines: map<Path, nat>, visited: set<nat>) {
    forall i :: 0 <= i < |entries| ==> EntryDone(g, entries[i], at, lines, visited)
  }

  ghost predicate EntryDone(g: Graph, entry: (nat, nat), at: Path, lines: map<Path, nat>, visited: set<nat>) {
    entry.0 < |g| && g[entry.0].ScalarNode? ==>
      at + [g[entry.0].text] in lines && (IsCollection(g, entry.1) ==> entry.1 in visited)
  }

  lemma {:induction false} ItemsSettle(g: Graph, n: nat, at: Path, lines: map<Path, nat>, visited: set<nat>)
    requires WellFormed(g) && n < |g| && g[n].SequenceNode? && ItemsDone(g, Steps(g, n), visited)
    ensures Settled(g, n, at, lines, visited)
  {}

  lemma {:induction false} EntriesSettle(g: Graph, n: nat, at: Path, lines: map<Path, nat>, visited: set<nat>)
    requires WellFormed(g) && n < |g| && g[n].MappingNode? && EntriesDone(g, g[n].entries, at, lines, visited)
    ensures Settled(g, n, at, lines, visited)
  {
    assert NodeWithin(g, n);
    var entries := g[n].entries;
    forall name, m | StepsTo(g, n, name, m) && IsCollection(g, m) ensures m in visited {
      ScalarKeyFrom(g, entries, Step(name, m));
      var i :| 0 <= i < |entries| && g[entries[i].0].ScalarNode? && Step(name, m) == Step(g[entries[i].0].text, entries[i].1);
      assert EntryDone(g, entries[i], at, lines, visited);
    }
    forall name, line | StatesKey(g, n, name, line) ensures at + [name] in lines {
      var i :| 0 <= i < |entries| && KeyAt(g, entries[i].0, name, line);
      assert EntryDone(g, entries[i], at, lines, visited);
    }
  }

  lemma {:induction false} EntriesDoneStep(
      g: Graph, entries: seq<(nat, nat)>, i: nat, at: Path, was: Trail, now: Trail)
    requires i < |entries| && EntriesDone(g, entries[..i], at, was.lines, was.visited)
    requires was.lines.Keys <= now.lines.Keys && was.visited <= now.visited
    requires EntryDone(g, entries[i], at, now.lines, now.visited)
    ensures EntriesDone(g, entries[..i + 1], at, now.lines, now.visited)
  {
    var more := entries[..i + 1];
    forall j | 0 <= j < |more| ensures EntryDone(g, more[j], at, now.lines, now.visited) {
      if j < i {
        assert more[j] == entries[..i][j];
        assert EntryDone(g, entries[..i][j], at, was.lines, was.visited);
      }
    }
  }

  /** The nodes that arrived since are settled. */
  ghost predicate SettledSince(
      g: Graph, before: map<nat, Path>, arrived: map<nat, Path>, lines: map<Path, nat>, visited: set<nat>)
    requires WellFormed(g)
  {
    forall m :: m in arrived && m !in before ==> Settled(g, m, arrived[m], lines, visited)
  }

  ghost predicate Kept(before: map<nat, Path>, arrived: map<nat, Path>) {
    forall m :: m in before ==> m in arrived && arrived[m] == before[m]
  }

  /** What the walk has to show for itself. */
  datatype Trail = Trail(lines: map<Path, nat>, visited: set<nat>, arrived: map<nat, Path>)

  /** Nothing is forgotten, and what arrived since is settled. */
  ghost predicate Progress(g: Graph, was: Trail, now: Trail)
    requires WellFormed(g)
  {
    && was.lines.Keys <= now.lines.Keys && was.visited <= now.visited && Kept(was.arrived, now.arrived)
    && SettledSince(g, was.arrived, now.arrived, now.lines, now.visited)
  }

  /** Two stretches of the walk, one after the other. */
  lemma {:induction false} ProgressThrough(g: Graph, start: Trail, middle: Trail, end: Trail)
    requires WellFormed(g) && Progress(g, start, middle) && Progress(g, middle, end)
    ensures Progress(g, start, end)
  {
    forall m | m in end.arrived && m !in start.arrived ensures Settled(g, m, end.arrived[m], end.lines, end.visited) {
      if m in middle.arrived {
        StaysSettled(g, m, middle.arrived[m], middle.lines, middle.visited, end.lines, end.visited);
      }
    }
  }

  lemma {:induction false} ArrivalSettled(g: Graph, was: Trail, n: nat, at: Path, now: Trail)
    requires WellFormed(g) && n !in was.arrived
    requires Progress(g, Trail(was.lines, was.visited + {n}, was.arrived[n := at]), now)
    requires Settled(g, n, at, now.lines, now.visited)
    ensures Progress(g, was, now)
  {
    var entered := was.arrived[n := at];
    assert entered[n] == at;
    forall m | m in was.arrived ensures m in now.arrived && now.arrived[m] == was.arrived[m] { assert entered[m] == was.arrived[m]; }
  }

  lemma {:induction false} ItemsDoneStep(g: Graph, steps: seq<Step>, i: nat, less: set<nat>, visited: set<nat>)
    requires i < |steps| && ItemsDone(g, steps[..i], less) && less <= visited
    requires IsCollection(g, steps[i].node) ==> steps[i].node in visited
    ensures ItemsDone(g, steps[..i + 1], visited)
  {
    var more := steps[..i + 1];
    forall j | 0 <= j < |more| && IsCollection(g, more[j].node) ensures more[j].node in visited {
      if j < i { assert more[j] == steps[..i][j]; }
    }
  }

  ghost predicate AllLead(g: Graph, root: nat, arrived: map<nat, Path>)
    requires WellFormed(g)
  {
    forall m :: m in arrived ==> Leads(g, root, arrived[m], m)
  }

  ghost predicate AllWritten(g: Graph, root: nat, lines: map<Path, nat>)
    requires WellFormed(g)
  {
    forall path :: path in lines ==> Written(g, root, path, lines[path])
  }

  lemma {:induction false} OneMoreLeads(g: Graph, root: nat, arrived: map<nat, Path>, n: nat, prefix: Path)
    requires WellFormed(g) && AllLead(g, root, arrived) && Leads(g, root, prefix, n)
    ensures AllLead(g, root, arrived[n := prefix]) && arrived[n := prefix].Keys == arrived.Keys + {n}
  {}

  class LineWalk {
    const g: Graph
    const root: nat
    var lines: map<Path, nat>
    var visited: set<nat>
    ghost var arrived: map<nat, Path>
    ghost var calls: nat
    ghost var expansions: nat

    constructor (g: Graph, root: nat)
      requires WellFormed(g) && root < |g|
      ensures this.g == g && this.root == root && lines == map[] && visited == {} && arrived == map[]
      ensures Valid() && calls == 0 && expansions == 0
    {
      this.g, this.root := g, root;
      lines, visited, arrived := map[], {}, map[];
      calls, expansions := 0, 0;
    }

    /** Every line recorded is where that path is really written; every visit came by the path it has. */
    ghost predicate Valid()
      reads this
    {
      && WellFormed(g) && root < |g|
      && visited <= AllNodes(g) && visited == arrived.Keys
      && expansions == |visited|
      && AllLead(g, root, arrived)
      && AllWritten(g, root, lines)
    }

    ghost function Now(): Trail
      reads this
    {
      Trail(lines, visited, arrived)
    }

    /** What remains to be paid of the calls that the visited collections and `further` calls account for. */
    ghost function Slack(further: int): int
      reads this
    {
      if WellFormed(g) then further + WorkOf(g, |g|, visited) - calls else 0
    }

    /** `_collect_key_lines`: every collection met is expanded, once, at the cost of one call a step. */
    method Collect(n: nat, prefix: Path)
      requires Valid() && n < |g| && Leads(g, root, prefix, n)
      modifies this`lines, this`visited, this`arrived, this`calls, this`expansions
      ensures Valid()
      ensures Progress(g, old(Now()), Now())
      ensures IsCollection(g, n) ==> n in visited
      ensures Slack(1) >= old(Slack(0))
      decreases |AllNodes(g) - visited|, 1
    {
      calls := calls + 1;
      if n in visited || g[n].ScalarNode? {
        return;
      }
      Arrive(n, prefix);
      OneMoreVisit(g, old(visited), n);
      Descend(n, prefix);
      ArrivalSettled(g, old(Now()), n, prefix, Now());
    }

    method Arrive(n: nat, prefix: Path)
      requires Valid() && n < |g| && Leads(g, root, prefix, n) && n !in visited
      modifies this`visited, this`arrived, this`expansions
      ensures Valid()
      ensures Now() == Trail(old(lines), old(visited) + {n}, old(arrived)[n := prefix])
    {
      OneMoreVisit(g, visited, n);
      OneMoreLeads(g, root, arrived, n, prefix);
      visited, arrived, expansions := visited + {n}, arrived[n := prefix], expansions + 1;
    }

    method Descend(n: nat, prefix: Path)
      requires Valid() && IsCollection(g, n) && Leads(g, root, prefix, n)
      modifies this`lines, this`visited, this`arrived, this`calls, this`expansions
      ensures Valid()
      ensures Progress(g, old(Now()), Now())
      ensures Settled(g, n, prefix, lines, visited)
      ensures Slack(|Steps(g, n)|) >= old(Slack(0))
      decreases |AllNodes(g) - visited|, 5
    {
      if g[n].SequenceNode? {
        DescendItems(n, prefix);
      } else {
        DescendEntries(n, prefix);
      }
    }

    method DescendItems(n: nat, prefix: Path)
      requires Valid() && n < |g| && g[n].SequenceNode? && Leads(g, root, prefix, n)
      modifies this`lines, this`visited, this`arrived, this`calls, this`expansions
      ensures Valid()
      ensures Progress(g, old(Now()), Now())
      ensures Settled(g, n, prefix, lines, visited)
      ensures Slack(|Steps(g, n)|) >= old(Slack(0))
      decreases |AllNodes(g) - visited|, 3
    {
      var steps := Steps(g, n);
      for i := 0 to |steps|
        invariant Valid()
        invariant Progress(g, old(Now()), Now())
        invariant ItemsDone(g, steps[..i], visited)
        invariant Slack(i) >= old(Slack(0))
      {
        ghost var before := Now();
        VisitedShrinks(g, old(visited), visited);
        DescendItem(n, prefix, i);
        ProgressThrough(g, old(Now()), before, Now());
        ItemsDoneStep(g, steps, i, before.visited, visited);
      }
      assert steps[..|steps|] == steps;
      ItemsSettle(g, n, prefix, lines, visited);
    }

    method DescendItem(n: nat, prefix: Path, i: nat)
      requires Valid() && n < |g| && g[n].SequenceNode? && Leads(g, root, prefix, n) && i < |Steps(g, n)|
      modifies this`lines, this`visited, this`arrived, this`calls, this`expansions
      ensures Valid()
      ensures Progress(g, old(Now()), Now())
      ensures IsCollection(g, Steps(g, n)[i].node) ==> Steps(g, n)[i].node in visited
      ensures Slack(1) >= old(Slack(0))
      decreases |AllNodes(g) - visited|, 2
    {
      var step := Steps(g, n)[i];
      LeadsOn(g, root, prefix, n, step.name, step.node);
      Collect(step.node, prefix + [step.name]);
    }

    method DescendEntries(n: nat, prefix: Path)
      requires Valid() && n < |g| && g[n].MappingNode? && Leads(g, root, prefix, n)
      modifies this`lines, this`visited, this`arrived, this`calls, this`expansions
      ensures Valid()
      ensures Progress(g, old(Now()), Now())
      ensures Settled(g, n, prefix, lines, visited)
      ensures Slack(|Steps(g, n)|) >= old(Slack(0))
      decreases |AllNodes(g) - visited|, 4
    {
      var entries := g[n].entries;
      assert NodeWithin(g, n);
      for i := 0 to |entries|
        invariant Valid()
        invariant Progress(g, old(Now()), Now())
        invariant EntriesDone(g, entries[..i], prefix, lines, visited)
        invariant Slack(i) >= old(Slack(0))
      {
        ghost var before := Now();
        VisitedShrinks(g, old(visited), visited);
        DescendEntry(n, prefix, i);
        ProgressThrough(g, old(Now()), before, Now());
        EntriesDoneStep(g, entries, i, prefix, before, Now());
      }
      assert entries[..|entries|] == entries;
      EntriesSettle(g, n, prefix, lines, visited);
    }

    method DescendEntry(n: nat, prefix: Path, i: nat)
      requires Valid() && n < |g| && g[n].MappingNode? && Leads(g, root, prefix, n) && i < |g[n].entries|
      modifies this`lines, this`visited, this`arrived, this`calls, this`expansions
      ensures Valid()
      ensures Progress(g, old(Now()), Now())
      ensures EntryDone(g, g[n].entries[i], prefix, lines, visited)
      ensures Slack(1) >= old(Slack(0))
      decreases |AllNodes(g) - visited|, 3
    {
      assert NodeWithin(g, n);
      var key := g[g[n].entries[i].0];
      if !key.ScalarNode? {
        return;
      }
      EntryLeads(g, root, prefix, n, i);
      Record(n, prefix, i);
      CollectValue(g[n].entries[i].1, prefix + [key.text]);
    }

    /** Below a key already recorded. */
    method CollectValue(n: nat, path: Path)
      requires Valid() && n < |g| && Leads(g, root, path, n) && path in lines
      modifies this`lines, this`visited, this`arrived, this`calls, this`expansions
      ensures Valid() && Progress(g, old(Now()), Now())
      ensures path in lines && (IsCollection(g, n) ==> n in visited)
      ensures Slack(1) >= old(Slack(0))
      decreases |AllNodes(g) - visited|, 2
    {
      Collect(n, path);
    }

    method Record(n: nat, prefix: Path, i: nat)
      requires Valid() && n < |g| && g[n].MappingNode? && Leads(g, root, prefix, n) && i < |g[n].entries|
      requires g[n].entries[i].0 < |g| && g[g[n].entries[i].0].ScalarNode?
      modifies this`lines
      ensures Valid() && Progress(g, old(Now()), Now())
      ensures var key := g[g[n].entries[i].0]; lines == old(lines)[prefix + [key.text] := key.line + 1]
    {
      var key := g[g[n].entries[i].0];
      assert NodeWithin(g, n) && KeyAt(g, g[n].entries[i].0, key.text, key.line + 1);
      WrittenAt(g, root, prefix, n, key.text, key.line + 1);
      lines := lines[prefix + [key.text] := key.line + 1];
    }
  }

  lemma {:induction false} EntryLeads(g: Graph, root: nat, prefix: Path, n: nat, i: nat)
    requires WellFormed(g) && n < |g| && g[n].MappingNode? && Leads(g, root, prefix, n) && i < |g[n].entries|
    requires g[n].entries[i].0 < |g| && g[g[n].entries[i].0].ScalarNode?
    ensures g[n].entries[i].1 < |g|
    ensures Leads(g, root, prefix + [g[g[n].entries[i].0].text], g[n].entries[i].1)
  {
    assert NodeWithin(g, n);
    ScalarKeyStep(g, g[n].entries, i);
    LeadsOn(g, root, prefix, n, g[g[n].entries[i].0].text, g[n].entries[i].1);
  }

  lemma {:induction false} OneMoreVisit(g: Graph, visited: set<nat>, n: nat)
    requires WellFormed(g) && n < |g| && n !in visited && visited <= AllNodes(g)
    ensures visited + {n} <= AllNodes(g) && |visited + {n}| == |visited| + 1
    ensures |AllNodes(g) - (visited + {n})| < |AllNodes(g) - visited|
    ensures WorkOf(g, |g|, visited + {n}) == WorkOf(g, |g|, visited) + |Steps(g, n)|
  {
    WorkOfOneMore(g, |g|, visited, n);
    assert AllNodes(g) - visited == (AllNodes(g) - (visited + {n})) + {n};
  }

  lemma {:induction false} VisitedShrinks(g: Graph, less: set<nat>, more: set<nat>)
    requires less <= more
    ensures |AllNodes(g) - more| <= |AllNodes(g) - less|
  {
    Subset(AllNodes(g) - more, AllNodes(g) - less);
  }

  lemma {:induction false} Subset(a: set<nat>, b: set<nat>)
    requires a <= b
    ensures |a| <= |b|
  {
    if a != {} {
      var x :| x in a;
      Subset(a - {x}, b - {x});
    }
  }

  // ---------------------------------------------------------------- what the finished walk holds

  /** A finished walk: everything visited is settled, under the path that first led to it. */
  ghost predicate Complete(g: Graph, root: nat, arrived: map<nat, Path>, lines: map<Path, nat>)
    requires WellFormed(g)
  {
    && (IsCollection(g, root) ==> root in arrived)
    && (forall m :: m in arrived ==> Leads(g, root, arrived[m], m) && Settled(g, m, arrived[m], lines, arrived.Keys))
  }

  /** `_key_lines`: the whole document from its root. */
  method LinesOf(g: Graph, root: nat) returns (lines: map<Path, nat>, ghost arrived: map<nat, Path>, ghost calls: nat, ghost expansions: nat)
    requires WellFormed(g) && root < |g|
    ensures expansions == |arrived| && calls <= 1 + StepsBelow(g, |g|)
    ensures AllWritten(g, root, lines)
    ensures Complete(g, root, arrived, lines)
  {
    var walk := new LineWalk(g, root);
    walk.Collect(root, []);
    NoWork(g, |g|);
    WorkOfAtMost(g, |g|, walk.visited);
    lines, arrived, calls, expansions := walk.lines, walk.arrived, walk.calls, walk.expansions;
    assert arrived.Keys == walk.visited && |arrived| == |arrived.Keys|;
  }

  /** Every collection the walk can reach at all, it has visited. */
  lemma {:induction false} ReachedIsVisited(g: Graph, root: nat, arrived: map<nat, Path>, lines: map<Path, nat>, path: Path, n: nat)
    requires WellFormed(g) && Complete(g, root, arrived, lines) && Leads(g, root, path, n) && IsCollection(g, n)
    ensures n in arrived
    decreases |path|
  {
    if path != [] {
      var p: nat :| Leads(g, root, Front(path), p) && StepsTo(g, p, Last(path), n);
      ReachedIsVisited(g, root, arrived, lines, Front(path), p);
      assert Settled(g, p, arrived[p], lines, arrived.Keys);
    }
  }

  /** What this path leads to is not shared: no other path leads to any collection it leads to. */
  ghost predicate Unshared(g: Graph, root: nat, path: Path)
    requires WellFormed(g)
  {
    forall other, n :: Leads(g, root, path, n) && Leads(g, root, other, n) && IsCollection(g, n) ==> other == path
  }

  ghost predicate IsWritten(g: Graph, root: nat, path: Path)
    requires WellFormed(g)
  {
    exists line :: Written(g, root, path, line)
  }

  /** Every key of a mapping that is not shared has a line. */
  lemma {:induction false} UnsharedLinesAreComplete(
      g: Graph, root: nat, arrived: map<nat, Path>, lines: map<Path, nat>, path: Path)
    requires WellFormed(g) && Complete(g, root, arrived, lines) && Unshared(g, root, Front(path))
    requires IsWritten(g, root, path)
    ensures path in lines
  {
    var line :| Written(g, root, path, line);
    var m: nat :| Leads(g, root, Front(path), m) && StatesKey(g, m, Last(path), line);
    ReachedIsVisited(g, root, arrived, lines, Front(path), m);
    assert Leads(g, root, arrived[m], m);
    assert arrived[m] == Front(path);
    assert Settled(g, m, arrived[m], lines, arrived.Keys);
    Rejoined(path);
  }

  lemma {:induction false} Rejoined(path: Path)
    requires path != []
    ensures path == Front(path) + [Last(path)]
  {}

  /** A path names at most one node below mappings that repeat no key. */
  ghost predicate Unrepeated(g: Graph, root: nat)
    requires WellFormed(g)
  {
    forall path, m :: Leads(g, root, path, m) ==> KeysApart(g, m)
  }

  ghost predicate KeysApart(g: Graph, m: nat)
    requires WellFormed(g)
  {
    m < |g| && NodeWithin(g, m) && g[m].MappingNode? ==>
      forall i, j :: 0 <= i < j < |g[m].entries| && g[g[m].entries[i].0].ScalarNode? && g[g[m].entries[j].0].ScalarNode? ==>
                       g[g[m].entries[i].0].text != g[g[m].entries[j].0].text
  }

  lemma {:induction false} IndexStepsApart(i: nat, j: nat)
    requires IndexStep(i) == IndexStep(j)
    ensures i == j
  {
    var a, b := Decimal(i), Decimal(j);
    assert |AsText(a)| == |AsText(b)|;
    forall k | 0 <= k < |a| ensures a[k] == b[k] {
      assert IndexStep(i)[k + 1] == a[k] as int && IndexStep(j)[k + 1] == b[k] as int;
    }
    assert a == b;
    DecimalInjective(i, j);
  }

  lemma {:induction false} OneStepPerName(g: Graph, p: nat, name: Text, n: nat, m: nat)
    requires WellFormed(g) && p < |g| && KeysApart(g, p) && StepsTo(g, p, name, n) && StepsTo(g, p, name, m)
    ensures n == m
  {
    assert NodeWithin(g, p);
    if g[p].SequenceNode? {
      var steps := Steps(g, p);
      var i :| 0 <= i < |steps| && steps[i] == Step(name, n);
      var j :| 0 <= j < |steps| && steps[j] == Step(name, m);
      IndexStepsApart(i, j);
    } else {
      var entries := g[p].entries;
      ScalarKeyFrom(g, entries, Step(name, n));
      ScalarKeyFrom(g, entries, Step(name, m));
      var i :| 0 <= i < |entries| && g[entries[i].0].ScalarNode? && Step(name, n) == Step(g[entries[i].0].text, entries[i].1);
      var j :| 0 <= j < |entries| && g[entries[j].0].ScalarNode? && Step(name, m) == Step(g[entries[j].0].text, entries[j].1);
      assert i == j;
    }
  }

  lemma {:induction false} OneNodePerPath(g: Graph, root: nat, path: Path, n: nat, m: nat)
    requires WellFormed(g) && Unrepeated(g, root) && Leads(g, root, path, n) && Leads(g, root, path, m)
    ensures n == m
    decreases |path|
  {
    if path != [] {
      var p: nat :| Leads(g, root, Front(path), p) && StepsTo(g, p, Last(path), n);
      var q: nat :| Leads(g, root, Front(path), q) && StepsTo(g, q, Last(path), m);
      OneNodePerPath(g, root, Front(path), p, q);
      OneStepPerName(g, p, Last(path), n, m);
    }
  }

  /** Without repeated keys a recorded line is the one line its path is written on: never a blameless one. */
  lemma {:induction false} RecordedLineIsTheLine(g: Graph, root: nat, path: Path, line: nat, other: nat)
    requires WellFormed(g) && Unrepeated(g, root) && Written(g, root, path, line) && Written(g, root, path, other)
    ensures line == other
  {
    var m: nat :| Leads(g, root, Front(path), m) && StatesKey(g, m, Last(path), line);
    var n: nat :| Leads(g, root, Front(path), n) && StatesKey(g, n, Last(path), other);
    OneNodePerPath(g, root, Front(path), m, n);
    var entries := g[m].entries;
    var i :| 0 <= i < |entries| && KeyAt(g, entries[i].0, Last(path), line);
    var j :| 0 <= j < |entries| && KeyAt(g, entries[j].0, Last(path), other);
    assert KeysApart(g, m);
    assert i == j;
  }
}
