/** A composed YAML document: nodes that aliases may share or tie into cycles, and the rules on mappings. */
module Nodes {
  import opened Options
  import opened Texts
  import opened CanonicalForm

  const MAP_TAG := "tag:yaml.org,2002:map"
  const SEQ_TAG := "tag:yaml.org,2002:seq"
  const MERGE_TAG := "tag:yaml.org,2002:merge"

  type Path = seq<Text>

  /** Children are named by their place in the document's list of nodes. */
  datatype Node =
    | ScalarNode(tag: string, text: Text, quoted: bool, line: nat)
    | SequenceNode(tag: string, items: seq<nat>)
    | MappingNode(tag: string, entries: seq<(nat, nat)>)

  type Graph = seq<Node>

  predicate WellFormed(g: Graph) {
    forall n :: 0 <= n < |g| ==> NodeWithin(g, n)
  }

  predicate NodeWithin(g: Graph, n: nat)
    requires n < |g|
  {
    match g[n]
    case ScalarNode(_, _, _, _) => true
    case SequenceNode(_, items) => forall i :: 0 <= i < |items| ==> items[i] < |g|
    case MappingNode(_, entries) => forall i :: 0 <= i < |entries| ==> entries[i].0 < |g| && entries[i].1 < |g|
  }

  function NodesBelow(n: nat): (all: set<nat>)
    ensures forall m: nat :: m in all <==> m < n
  {
    if n == 0 then {} else NodesBelow(n - 1) + {n - 1}
  }

  function AllNodes(g: Graph): set<nat> { NodesBelow(|g|) }

  /** `[i]`: bracketed, so that a position is never mistaken for a key spelt with digits. */
  function IndexStep(i: nat): Text { [0x5B] + AsText(Decimal(i)) + [0x5D] }

  /** What a collection's rules can find wrong with it. */
  datatype Fault =
    | ContainsItself
    | Retagged
    | KeyIsStructure
    | UsesMergeKey
    | RepeatedKey(name: Text)
    | Unparseable

  /** One entry's key against the names already seen in its mapping. */
  function KeyFault(key: Node, seen: set<Text>): Option<Fault> {
    if !key.ScalarNode? then Some(KeyIsStructure)
    else if key.tag == MERGE_TAG then Some(UsesMergeKey)
    else if key.text in seen then Some(RepeatedKey(key.text))
    else None
  }

  function KeyText(key: Node): Text { if key.ScalarNode? then key.text else [] }

  function EntriesFault(g: Graph, entries: seq<(nat, nat)>, seen: set<Text>): Option<Fault>
    requires forall i :: 0 <= i < |entries| ==> entries[i].0 < |g|
  {
    if entries == [] then None
    else
      var key := g[entries[0].0];
      match KeyFault(key, seen)
      case Some(f) => Some(f)
      case None => EntriesFault(g, entries[1..], seen + {KeyText(key)})
  }

  /** The first rule a collection breaks, its tag before its keys and its keys before any value. */
  function CollectionFault(g: Graph, n: nat): Option<Fault>
    requires WellFormed(g) && n < |g|
  {
    assert NodeWithin(g, n);
    match g[n]
    case ScalarNode(_, _, _, _) => None
    case SequenceNode(tag, _) => if tag != SEQ_TAG then Some(Retagged) else None
    case MappingNode(tag, entries) => if tag != MAP_TAG then Some(Retagged) else EntriesFault(g, entries, {})
  }

  /** One step down: the label it adds to the path, and the node it arrives at. */
  datatype Step = Step(name: Text, node: nat)

  function Steps(g: Graph, n: nat): (steps: seq<Step>)
    requires WellFormed(g) && n < |g|
    ensures forall i :: 0 <= i < |steps| ==> steps[i].node < |g|
  {
    assert NodeWithin(g, n);
    match g[n]
    case ScalarNode(_, _, _, _) => []
    case SequenceNode(_, items) => seq(|items|, i requires 0 <= i < |items| => Step(IndexStep(i), items[i]))
    case MappingNode(_, entries) =>
      seq(|entries|, i requires 0 <= i < |entries| => Step(KeyText(g[entries[i].0]), entries[i].1))
  }

  /** A mapping's rules hold exactly when its keys are plain scalars, none a merge, no two spelt alike. */
  ghost predicate PlainKeys(g: Graph, entries: seq<(nat, nat)>)
    requires forall i :: 0 <= i < |entries| ==> entries[i].0 < |g|
  {
    && (forall i :: 0 <= i < |entries| ==> g[entries[i].0].ScalarNode? && g[entries[i].0].tag != MERGE_TAG)
    && (forall i, j :: 0 <= i < j < |entries| ==> KeyText(g[entries[i].0]) != KeyText(g[entries[j].0]))
  }

  lemma {:induction false} RulesAreExact(g: Graph, entries: seq<(nat, nat)>, seen: set<Text>)
    requires forall i :: 0 <= i < |entries| ==> entries[i].0 < |g|
    ensures EntriesFault(g, entries, seen) == None <==>
            PlainKeys(g, entries) && forall i :: 0 <= i < |entries| ==> KeyText(g[entries[i].0]) !in seen
  {
    if entries != [] {
      var key, rest := g[entries[0].0], entries[1..];
      RulesAreExact(g, rest, seen + {KeyText(key)});
      if PlainKeys(g, entries) {
        assert forall i :: 0 <= i < |rest| ==> rest[i] == entries[i + 1];
        assert PlainKeys(g, rest);
      }
      if EntriesFault(g, entries, seen) == None {
        forall i, j | 0 <= i < j < |entries| ensures KeyText(g[entries[i].0]) != KeyText(g[entries[j].0]) {
          assert entries[j] == rest[j - 1];
          if i > 0 { assert entries[i] == rest[i - 1]; }
        }
        forall i | 0 <= i < |entries|
          ensures g[entries[i].0].ScalarNode? && g[entries[i].0].tag != MERGE_TAG && KeyText(g[entries[i].0]) !in seen
        {
          if i > 0 { assert entries[i] == rest[i - 1]; }
        }
      }
    }
  }

  /** A collection has no fault exactly when it is tagged as what it is and, if a mapping, its keys keep the rules. */
  lemma {:induction false} FaultlessExactly(g: Graph, n: nat)
    requires WellFormed(g) && n < |g| && NodeWithin(g, n)
    ensures CollectionFault(g, n) == None <==>
            match g[n]
            case ScalarNode(_, _, _, _) => true
            case SequenceNode(tag, _) => tag == "tag:yaml.org,2002:seq"
            case MappingNode(tag, entries) => tag == "tag:yaml.org,2002:map" && PlainKeys(g, entries)
  {
    if g[n].MappingNode? { RulesAreExact(g, g[n].entries, {}); }
  }

  predicate Spells(g: Graph, entry: (nat, nat), name: Text)
    requires entry.0 < |g|
  {
    g[entry.0].ScalarNode? && g[entry.0].text == name
  }

  /** The entry breaks a rule, and this is the fault: a key's shape is looked at before its tag, and its tag before its spelling. */
  ghost predicate BreaksAs(g: Graph, entries: seq<(nat, nat)>, i: nat, f: Fault)
    requires i < |entries| && forall j :: 0 <= j < |entries| ==> entries[j].0 < |g|
  {
    var key := g[entries[i].0];
    if !key.ScalarNode? then f == KeyIsStructure
    else if key.tag == "tag:yaml.org,2002:merge" then f == UsesMergeKey
    else f == RepeatedKey(key.text) && exists j :: 0 <= j < i && Spells(g, entries[j], key.text)
  }

  /** The fault is the first there is, in the order the entries are written. */
  ghost predicate IsFirstFault(f: Fault, g: Graph, entries: seq<(nat, nat)>)
    requires forall j :: 0 <= j < |entries| ==> entries[j].0 < |g|
  {
    exists i :: 0 <= i < |entries| && BreaksAs(g, entries, i, f) && BreaksNothing(g, entries, i)
  }

  ghost predicate BreaksNothing(g: Graph, entries: seq<(nat, nat)>, n: nat)
    requires n <= |entries| && forall j :: 0 <= j < |entries| ==> entries[j].0 < |g|
  {
    forall j, f :: 0 <= j < n ==> !BreaksAs(g, entries, j, f)
  }

  lemma {:induction false} FaultIsFirst(g: Graph, entries: seq<(nat, nat)>, i: nat, seen: set<Text>)
    requires forall j :: 0 <= j < |entries| ==> entries[j].0 < |g|
    requires i <= |entries| && EntriesFault(g, entries[i..], seen).Some?
    requires BreaksNothing(g, entries, i)
    requires forall name :: name in seen <==> exists j :: 0 <= j < i && Spells(g, entries[j], name)
    ensures IsFirstFault(EntriesFault(g, entries[i..], seen).value, g, entries)
    decreases |entries| - i
  {
    var key := g[entries[i].0];
    assert entries[i..][0] == entries[i] && entries[i..][1..] == entries[i + 1..];
    match KeyFault(key, seen)
    case Some(f) => assert BreaksAs(g, entries, i, f);
    case None =>
      assert Spells(g, entries[i], KeyText(key));
      forall j, f | 0 <= j < i + 1 ensures !BreaksAs(g, entries, j, f) {}
      FaultIsFirst(g, entries, i + 1, seen + {KeyText(key)});
  }

  /** A collection's fault is true of it: its tag is another's, or it is the first of its keys to break a rule that does. */
  lemma {:induction false} CollectionFaultIsTrue(g: Graph, n: nat)
    requires WellFormed(g) && n < |g| && CollectionFault(g, n).Some?
    ensures var f := CollectionFault(g, n).value;
            if f == Retagged then
              (g[n].SequenceNode? && g[n].tag != SEQ_TAG) || (g[n].MappingNode? && g[n].tag != MAP_TAG)
            else g[n].MappingNode? && g[n].tag == MAP_TAG && NodeWithin(g, n) && IsFirstFault(f, g, g[n].entries)
  {
    assert NodeWithin(g, n);
    if g[n].MappingNode? && g[n].tag == MAP_TAG {
      assert g[n].entries[0..] == g[n].entries;
      FaultIsFirst(g, g[n].entries, 0, {});
    }
  }

  lemma {:induction false} CollectionFaultKinds(g: Graph, n: nat)
    requires WellFormed(g) && n < |g| && CollectionFault(g, n).Some?
    ensures CollectionFault(g, n).value != ContainsItself && CollectionFault(g, n).value != Unparseable
  {
    assert NodeWithin(g, n);
    if g[n].MappingNode? && g[n].tag == MAP_TAG { EntriesFaultKinds(g, g[n].entries, {}); }
  }

  lemma {:induction false} EntriesFaultKinds(g: Graph, entries: seq<(nat, nat)>, seen: set<Text>)
    requires forall i :: 0 <= i < |entries| ==> entries[i].0 < |g|
    ensures EntriesFault(g, entries, seen) != Some(ContainsItself) && EntriesFault(g, entries, seen) != Some(Unparseable)
  {
    if entries != [] { EntriesFaultKinds(g, entries[1..], seen + {KeyText(g[entries[0].0])}); }
  }

  /** `_entries`: the loop over one mapping's pairs, refusing at the first key that breaks a rule. */
  method EntriesLoop(g: Graph, n: nat) returns (fault: Option<Fault>, steps: seq<Step>)
    requires WellFormed(g) && n < |g| && g[n].MappingNode?
    ensures fault == CollectionFault(g, n)
    ensures fault == None ==> steps == Steps(g, n)
  {
    steps := [];
    if g[n].tag != MAP_TAG {
      return Some(Retagged), [];
    }
    var entries := g[n].entries;
    var seen: set<Text> := {};
    assert NodeWithin(g, n);
    assert entries[0..] == entries;
    for i := 0 to |entries|
      invariant CollectionFault(g, n) == EntriesFault(g, entries[i..], seen)
      invariant steps == Steps(g, n)[..i]
    {
      assert entries[i..][0] == entries[i] && entries[i..][1..] == entries[i + 1..];
      var key := g[entries[i].0];
      var broken := KeyFault(key, seen);
      if broken.Some? {
        return broken, [];
      }
      seen := seen + {KeyText(key)};
      steps := steps + [Step(KeyText(key), entries[i].1)];
    }
    fault := None;
  }
}
