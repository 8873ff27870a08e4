/** What a walk over a document's nodes costs, when no node is expanded twice. */
module Effort {
  import opened Nodes

  /** Calls made below the nodes that were expanded: one for each of their steps. */
  function Work(g: Graph, expanded: seq<nat>): nat
    requires WellFormed(g)
  {
    if expanded == [] then 0
    else
      var n := expanded[|expanded| - 1];
      Work(g, expanded[..|expanded| - 1]) + if n < |g| then |Steps(g, n)| else 0
  }

  lemma {:induction false} WorkAppend(g: Graph, expanded: seq<nat>, n: nat)
    requires WellFormed(g) && n < |g|
    ensures Work(g, expanded + [n]) == Work(g, expanded) + |Steps(g, n)|
  {
    assert (expanded + [n])[..|expanded|] == expanded;
  }

  /** The steps out of every node numbered below `k`. */
  function StepsBelow(g: Graph, k: nat): nat
    requires WellFormed(g) && k <= |g|
  {
    if k == 0 then 0 else StepsBelow(g, k - 1) + |Steps(g, k - 1)|
  }

  ghost predicate OnceEachBelow(expanded: seq<nat>, k: nat) {
    && (forall i :: 0 <= i < |expanded| ==> expanded[i] < k)
    && (forall i, j :: 0 <= i < j < |expanded| ==> expanded[i] != expanded[j])
  }

  ghost function Among(nodes: seq<nat>): set<nat> { set n | n in nodes }

  /** The steps out of those nodes below `k` that are in the set. */
  ghost function WorkOf(g: Graph, k: nat, nodes: set<nat>): nat
    requires WellFormed(g) && k <= |g|
  {
    if k == 0 then 0 else WorkOf(g, k - 1, nodes) + if k - 1 in nodes then |Steps(g, k - 1)| else 0
  }

  lemma {:induction false} WorkOfOneMore(g: Graph, k: nat, nodes: set<nat>, n: nat)
    requires WellFormed(g) && k <= |g| && n < |g| && n !in nodes
    ensures WorkOf(g, k, nodes + {n}) == WorkOf(g, k, nodes) + if n < k then |Steps(g, n)| else 0
  {
    if k > 0 { WorkOfOneMore(g, k - 1, nodes, n); }
  }

  lemma {:induction false} WorkOfAtMost(g: Graph, k: nat, nodes: set<nat>)
    requires WellFormed(g) && k <= |g|
    ensures WorkOf(g, k, nodes) <= StepsBelow(g, k)
  {
    if k > 0 { WorkOfAtMost(g, k - 1, nodes); }
  }

  lemma {:induction false} WorkIsOf(g: Graph, expanded: seq<nat>)
    requires WellFormed(g) && OnceEachBelow(expanded, |g|)
    ensures Work(g, expanded) == WorkOf(g, |g|, Among(expanded))
  {
    if expanded == [] {
      NoWork(g, |g|);
      assert Among(expanded) == {};
    } else {
      var front, last := expanded[..|expanded| - 1], expanded[|expanded| - 1];
      WorkIsOf(g, front);
      assert expanded == front + [last];
      assert Among(expanded) == Among(front) + {last};
      WorkOfOneMore(g, |g|, Among(front), last);
    }
  }

  lemma {:induction false} NoWork(g: Graph, k: nat)
    requires WellFormed(g) && k <= |g|
    ensures WorkOf(g, k, {}) == 0
  {
    if k > 0 { NoWork(g, k - 1); }
  }

  /** Nodes expanded once each cost no more calls than the document has steps. */
  lemma {:induction false} WorkIsLinear(g: Graph, expanded: seq<nat>)
    requires WellFormed(g) && OnceEachBelow(expanded, |g|)
    ensures Work(g, expanded) <= StepsBelow(g, |g|)
  {
    WorkIsOf(g, expanded);
    WorkOfAtMost(g, |g|, Among(expanded));
  }
}
