/** What a rejection's path points at: the walk that reads a document goes where the line walk has been. */
module Locating {
  import opened Options
  import opened Texts
  import opened Values
  import opened Snapshots
  import opened Nodes
  import opened Construction
  import opened KeyLines
  import opened Documents

  /** The path is of a position in a list. */
  ghost predicate IsPosition(g: Graph, root: nat, path: Path)
    requires WellFormed(g)
  {
    path != [] && exists m: nat :: Leads(g, root, Front(path), m) && HasPosition(g, m, Last(path))
  }

  ghost predicate HasPosition(g: Graph, m: nat, name: Text) {
    m < |g| && g[m].SequenceNode? && exists i :: 0 <= i < |g[m].items| && name == IndexStep(i)
  }

  /** The whole document, a key it writes, or a position in one of its lists. */
  ghost predicate IsPlace(g: Graph, root: nat, path: Path)
    requires WellFormed(g)
  {
    path == [] || IsWritten(g, root, path) || IsPosition(g, root, path)
  }

  lemma {:induction false} StatedIsWritten(g: Graph, root: nat, path: Path, m: nat, i: nat)
    requires WellFormed(g) && Leads(g, root, path, m) && m < |g| && g[m].MappingNode? && NodeWithin(g, m)
    requires i < |g[m].entries| && g[g[m].entries[i].0].ScalarNode?
    ensures IsWritten(g, root, path + [g[g[m].entries[i].0].text])
  {
    var key := g[g[m].entries[i].0];
    assert KeyAt(g, g[m].entries[i].0, key.text, key.line + 1);
    WrittenAt(g, root, path, m, key.text, key.line + 1);
  }

  lemma {:induction false} StepIsPlace(g: Graph, root: nat, path: Path, m: nat, name: Text, n: nat)
    requires WellFormed(g) && Leads(g, root, path, m) && StepsTo(g, m, name, n)
    ensures IsPlace(g, root, path + [name])
    ensures g[m].MappingNode? ==> IsWritten(g, root, path + [name])
  {
    assert NodeWithin(g, m);
    if g[m].MappingNode? {
      var entries := g[m].entries;
      ScalarKeyFrom(g, entries, Step(name, n));
      var i :| 0 <= i < |entries| && g[entries[i].0].ScalarNode? && Step(name, n) == Step(g[entries[i].0].text, entries[i].1);
      StatedIsWritten(g, root, path, m, i);
    } else {
      assert HasPosition(g, m, name);
      assert Front(path + [name]) == path;
    }
  }

  lemma {:induction false} LeadsToPlace(g: Graph, root: nat, path: Path, n: nat)
    requires WellFormed(g) && Leads(g, root, path, n)
    ensures IsPlace(g, root, path)
  {
    if path != [] {
      var m: nat :| Leads(g, root, Front(path), m) && StepsTo(g, m, Last(path), n);
      StepIsPlace(g, root, Front(path), m, Last(path), n);
      Rejoined(path);
    }
  }

  /** Below a collection without fault the two walks take the same steps. */
  lemma {:induction false} FaultlessSteps(g: Graph, n: nat, i: nat)
    requires WellFormed(g) && n < |g| && CollectionFault(g, n) == None && i < |Steps(g, n)|
    ensures StepsTo(g, n, Steps(g, n)[i].name, Steps(g, n)[i].node)
  {
    assert NodeWithin(g, n);
    if g[n].MappingNode? {
      RulesAreExact(g, g[n].entries, {});
      ScalarKeyStep(g, g[n].entries, i);
    }
  }

  lemma {:induction false} RepeatIsStated(g: Graph, entries: seq<(nat, nat)>, seen: set<Text>, name: Text) returns (i: nat)
    requires forall j :: 0 <= j < |entries| ==> entries[j].0 < |g|
    requires EntriesFault(g, entries, seen) == Some(RepeatedKey(name))
    ensures i < |entries| && g[entries[i].0].ScalarNode? && g[entries[i].0].text == name
  {
    var key := g[entries[0].0];
    if KeyFault(key, seen).Some? {
      i := 0;
    } else {
      var j := RepeatIsStated(g, entries[1..], seen + {KeyText(key)}, name);
      i := j + 1;
    }
  }

  lemma {:induction false} FaultIsPlaced(g: Graph, root: nat, path: Path, n: nat)
    requires WellFormed(g) && Leads(g, root, path, n) && CollectionFault(g, n).Some?
    ensures IsPlace(g, root, At(CollectionFault(g, n).value, path).path.value)
  {
    var fault := CollectionFault(g, n).value;
    if fault.RepeatedKey? {
      assert NodeWithin(g, n);
      var i := RepeatIsStated(g, g[n].entries, {}, fault.name);
      StatedIsWritten(g, root, path, n, i);
    } else {
      LeadsToPlace(g, root, path, n);
    }
  }

  // ---------------------------------------------------------------- what a refusal says

  /** Something is wrong at the node, as the fault says: it lies on its own path, or breaks the rule. */
  ghost predicate WrongAt(g: Graph, read: Reader, root: nat, path: Path, n: nat, fault: Fault)
    requires WellFormed(g) && n < |g|
  {
    match fault
    case ContainsItself => OnPath(g, root, path, n)
    case Unparseable => g[n].ScalarNode? && !read(g[n]).Converted?
    case _ => CollectionFault(g, n) == Some(fault)
  }

  ghost predicate OnPath(g: Graph, root: nat, path: Path, n: nat)
    requires WellFormed(g)
  {
    exists k :: 0 <= k < |path| && Leads(g, root, path[..k], n)
  }

  /** The refusal is about a node the document leads to, and names it. */
  ghost predicate IsReal(g: Graph, read: Reader, root: nat, r: Refusal)
    requires WellFormed(g)
  {
    exists path, n: nat :: Leads(g, root, path, n) && n < |g| && RefusedAt(g, read, root, path, n, r)
  }

  ghost predicate RefusedAt(g: Graph, read: Reader, root: nat, path: Path, n: nat, r: Refusal)
    requires WellFormed(g) && n < |g|
  {
    if r.path == None then r.fault == Unparseable && g[n].ScalarNode? && read(g[n]) == YamlError(r.line)
    else
      && r.line == None
      && r.path.value == (if r.fault.RepeatedKey? then path + [r.fault.name] else path)
      && WrongAt(g, read, root, path, n, r.fault)
  }

  lemma {:induction false} OnLongerPath(g: Graph, root: nat, path: Path, name: Text, n: nat)
    requires WellFormed(g) && (OnPath(g, root, path, n) || Leads(g, root, path, n))
    ensures OnPath(g, root, path + [name], n)
  {
    var longer := path + [name];
    if OnPath(g, root, path, n) {
      var k :| 0 <= k < |path| && Leads(g, root, path[..k], n);
      assert longer[..k] == path[..k];
    } else {
      assert longer[..|path|] == path;
    }
  }

  /** Down the path from some depth on, whatever comes before the path in a collection has a value. */
  ghost predicate BuiltBefore(g: Graph, read: Reader, root: nat, path: Path, from: nat)
    requires WellFormed(g)
  {
    forall k :: from <= k < |path| ==> SiblingsBuilt(g, read, root, path, k)
  }

  ghost predicate SiblingsBuilt(g: Graph, read: Reader, root: nat, path: Path, k: nat)
    requires WellFormed(g) && k < |path|
  {
    exists m: nat, i :: Leads(g, root, path[..k], m) && m < |g| && 0 <= i < |Steps(g, m)| && Steps(g, m)[i].name == path[k] &&
                        EachDenotes(g, read, Steps(g, m)[..i])
  }

  ghost predicate EachDenotes(g: Graph, read: Reader, steps: seq<Step>)
    requires WellFormed(g)
  {
    forall j :: 0 <= j < |steps| ==> HasValue(g, read, steps[j].node)
  }

  ghost predicate HasValue(g: Graph, read: Reader, n: nat)
    requires WellFormed(g)
  {
    exists v :: Denotes(g, read, n, v)
  }

  /** A collection without fault of its own is refused at the first of its children that is. */
  lemma {:induction false} RefusedBelow(g: Graph, read: Reader, root: nat, n: nat, path: Path, ancestors: set<nat>) returns (i: nat)
    requires WellFormed(g) && Leads(g, root, path, n) && ancestors <= AllNodes(g) && n !in ancestors
    requires !g[n].ScalarNode? && CollectionFault(g, n) == None && Unfold(g, read, n, path, ancestors).Refused?
    requires forall a :: a in ancestors ==> OnPath(g, root, path, a)
    ensures i < |Steps(g, n)| && Leads(g, root, path + [Steps(g, n)[i].name], Steps(g, n)[i].node)
    ensures Unfold(g, read, Steps(g, n)[i].node, path + [Steps(g, n)[i].name], ancestors + {n}) ==
            Unfold(g, read, n, path, ancestors)
    ensures forall a :: a in ancestors + {n} ==> OnPath(g, root, path + [Steps(g, n)[i].name], a)
    ensures EachDenotes(g, read, Steps(g, n)[..i])
  {
    Narrower(g, n, ancestors);
    i := UnfoldAllRefused(g, read, Steps(g, n), path, ancestors + {n});
    var step := Steps(g, n)[i];
    FaultlessSteps(g, n, i);
    LeadsOn(g, root, path, n, step.name, step.node);
    forall a | a in ancestors + {n} ensures OnPath(g, root, path + [step.name], a) {
      OnLongerPath(g, root, path, step.name, a);
    }
    EarlierDenote(g, read, Steps(g, n), i, path, ancestors + {n});
  }

  /** The node refused is the first in document order: what comes before it, at every level, has a value. */
  lemma {:induction false} RefusalIsFirst(
      g: Graph, read: Reader, root: nat, n: nat, path: Path, ancestors: set<nat>) returns (refused: Path, m: nat)
    requires WellFormed(g) && Leads(g, root, path, n) && ancestors <= AllNodes(g)
    requires Unfold(g, read, n, path, ancestors).Refused?
    requires forall a :: a in ancestors ==> OnPath(g, root, path, a)
    ensures path <= refused && Leads(g, root, refused, m) && m < |g|
    ensures RefusedAt(g, read, root, refused, m, Unfold(g, read, n, path, ancestors).refusal)
    ensures BuiltBefore(g, read, root, refused, |path|)
    decreases |AllNodes(g) - ancestors|
  {
    refused, m := path, n;
    if n in ancestors || g[n].ScalarNode? {
    } else if CollectionFault(g, n).Some? {
      CollectionFaultKinds(g, n);
    } else {
      Narrower(g, n, ancestors);
      var i := RefusedBelow(g, read, root, n, path, ancestors);
      var step := Steps(g, n)[i];
      refused, m := RefusalIsFirst(g, read, root, step.node, path + [step.name], ancestors + {n});
      BuiltFurther(g, read, root, refused, path, n, i);
    }
  }

  lemma {:induction false} BuiltFurther(g: Graph, read: Reader, root: nat, refused: Path, path: Path, n: nat, i: nat)
    requires WellFormed(g) && n < |g| && i < |Steps(g, n)| && Leads(g, root, path, n)
    requires path + [Steps(g, n)[i].name] <= refused && BuiltBefore(g, read, root, refused, |path| + 1)
    requires EachDenotes(g, read, Steps(g, n)[..i])
    ensures BuiltBefore(g, read, root, refused, |path|)
  {
    assert refused[..|path|] == path && refused[|path|] == Steps(g, n)[i].name;
    assert SiblingsBuilt(g, read, root, refused, |path|);
  }

  lemma {:induction false} EarlierDenote(g: Graph, read: Reader, steps: seq<Step>, i: nat, path: Path, within: set<nat>)
    requires WellFormed(g) && within <= AllNodes(g) && i < |steps| && forall j :: 0 <= j < |steps| ==> steps[j].node < |g|
    requires forall j :: 0 <= j < i ==> Unfold(g, read, steps[j].node, path + [steps[j].name], within).Ok?
    ensures EachDenotes(g, read, steps[..i])
  {
    forall j | 0 <= j < i ensures HasValue(g, read, steps[..i][j].node) {
      UnfoldDenotes(g, read, steps[j].node, path + [steps[j].name], within,
                    Unfold(g, read, steps[j].node, path + [steps[j].name], within).value);
    }
  }

  /** Every refusal of the value walk is real. */
  lemma {:induction false} RefusalIsReal(g: Graph, read: Reader, root: nat, n: nat, path: Path, ancestors: set<nat>)
    requires WellFormed(g) && Leads(g, root, path, n) && ancestors <= AllNodes(g)
    requires forall a :: a in ancestors ==> OnPath(g, root, path, a)
    requires Unfold(g, read, n, path, ancestors).Refused?
    ensures IsReal(g, read, root, Unfold(g, read, n, path, ancestors).refusal)
  {
    var refused, m := RefusalIsFirst(g, read, root, n, path, ancestors);
  }

  /** A refusal that is real and names a path names a place in the document. */
  lemma {:induction false} RefusalIsPlaced(g: Graph, read: Reader, root: nat, r: Refusal)
    requires WellFormed(g) && IsReal(g, read, root, r) && r.path.Some?
    ensures IsPlace(g, root, r.path.value)
  {
    var path, n: nat :| Leads(g, root, path, n) && n < |g| && RefusedAt(g, read, root, path, n, r);
    if r.fault.RepeatedKey? {
      FaultIsPlaced(g, root, path, n);
    } else {
      LeadsToPlace(g, root, path, n);
    }
  }

  // ---------------------------------------------------------------- one document's rejection

  lemma {:induction false} ViewRefusedBy(g: Graph, read: Reader, steps: seq<Step>, root: nat) returns (i: nat)
    requires WellFormed(g) && root < |g| && forall j :: 0 <= j < |steps| ==> steps[j].node < |g|
    requires ViewOf(g, read, steps, root).Refused?
    ensures i < |steps| && steps[i].name != ATTRIBUTES
    ensures Unfold(g, read, steps[i].node, [steps[i].name], {root}) == Refused(ViewOf(g, read, steps, root).refusal)
  {
    var front := steps[..|steps| - 1];
    if ViewOf(g, read, front, root).Refused? {
      i := ViewRefusedBy(g, read, front, root);
    } else {
      i := |steps| - 1;
    }
  }

  lemma {:induction false} AttributesAreStated(g: Graph, read: Reader, steps: seq<Step>, root: nat)
    requires WellFormed(g) && root < |g| && forall j :: 0 <= j < |steps| ==> steps[j].node < |g|
    requires ViewOf(g, read, steps, root).Ok? && ViewOf(g, read, steps, root).value.attributes.Some?
    ensures Step(ATTRIBUTES, ViewOf(g, read, steps, root).value.attributes.value) in steps
  {
    if steps[|steps| - 1].name != ATTRIBUTES {
      AttributesAreStated(g, read, steps[..|steps| - 1], root);
    }
  }

  lemma {:induction false} EnvelopeIsStated(g: Graph, read: Reader, steps: seq<Step>, root: nat, name: Text)
    requires WellFormed(g) && root < |g| && forall j :: 0 <= j < |steps| ==> steps[j].node < |g|
    requires ViewOf(g, read, steps, root).Ok? && name in ViewOf(g, read, steps, root).value.envelope
    ensures exists i :: 0 <= i < |steps| && steps[i].name == name
  {
    var front := steps[..|steps| - 1];
    if steps[|steps| - 1].name != name {
      EnvelopeIsStated(g, read, front, root, name);
      var i :| 0 <= i < |front| && front[i].name == name;
      assert steps[i].name == name;
    }
  }

  /** These are said only of a key that is there: the kind, the attributes, or one of them. */
  predicate OfAStatedKey(reason: Reason) {
    reason.UnknownKind? || reason.AttributesDoNotMatch? ||
    reason.UnknownType? || reason.UnacceptableLiteral? || reason.Unstorable?
  }

  lemma {:induction false} AttributeRejectedAt(g: Graph, steps: seq<Step>, schema: map<Text, Text>, types: Types) returns (i: nat)
    requires forall j :: 0 <= j < |steps| ==> steps[j].node < |g| && steps[j].name in schema
    requires DeclaredAttributes(g, steps, schema, types).Invalid?
    ensures i < |steps| && DeclaredAttributes(g, steps, schema, types).rejection.path == Some([ATTRIBUTES, steps[i].name])
    ensures !DeclaredAttributes(g, steps, schema, types).rejection.reason.Structural?
  {
    var front := steps[..|steps| - 1];
    if DeclaredAttributes(g, front, schema, types).Invalid? {
      i := AttributeRejectedAt(g, front, schema, types);
    } else {
      i := |steps| - 1;
    }
  }

  lemma {:induction false} AttributeIsWritten(g: Graph, root: nat, n: nat, steps: seq<Step>, schema: map<Text, Text>, types: Types)
    requires WellFormed(g) && Leads(g, root, [ATTRIBUTES], n) && g[n].MappingNode? && CollectionFault(g, n) == None
    requires steps == Steps(g, n) && forall j :: 0 <= j < |steps| ==> steps[j].name in schema
    requires DeclaredAttributes(g, steps, schema, types).Invalid?
    ensures !DeclaredAttributes(g, steps, schema, types).rejection.reason.Structural?
    ensures DeclaredAttributes(g, steps, schema, types).rejection.path.Some?
    ensures IsWritten(g, root, DeclaredAttributes(g, steps, schema, types).rejection.path.value)
  {
    var i := AttributeRejectedAt(g, steps, schema, types);
    FaultlessSteps(g, n, i);
    StepIsPlace(g, root, [ATTRIBUTES], n, steps[i].name, steps[i].node);
    assert [ATTRIBUTES] + [steps[i].name] == [ATTRIBUTES, steps[i].name];
  }

  /** What the attributes' rejection points at, given that the document states them. */
  lemma {:induction false} AttributesArePlaced(g: Graph, root: nat, kind: Text, n: nat, rules: Rules)
    requires WellFormed(g) && Leads(g, root, [ATTRIBUTES], n) && IsWritten(g, root, [ATTRIBUTES]) && IsWritten(g, root, [KIND])
    requires ValidatedAttributes(g, kind, Some(n), rules).Invalid?
    ensures var r := ValidatedAttributes(g, kind, Some(n), rules).rejection;
            && (r.reason.Structural? && r.path.Some? ==> IsPlace(g, root, r.path.value))
            && (OfAStatedKey(r.reason) ==> r.path.Some? && IsWritten(g, root, r.path.value))
  {
    if g[n].MappingNode? && CollectionFault(g, n).Some? {
      FaultIsPlaced(g, root, [ATTRIBUTES], n);
    } else if g[n].MappingNode? && kind in rules.schemas && NamesOf(Steps(g, n)) == rules.schemas[kind].Keys {
      var steps := Steps(g, n);
      assert forall i :: 0 <= i < |steps| ==> steps[i].name in NamesOf(steps);
      if DeclaredAttributes(g, steps, rules.schemas[kind], rules.types).Invalid? {
        AttributeIsWritten(g, root, n, steps, rules.schemas[kind], rules.types);
      }
    }
  }

  lemma {:induction false} RootStepIsWritten(g: Graph, root: nat, i: nat)
    requires WellFormed(g) && root < |g| && g[root].MappingNode? && CollectionFault(g, root) == None && i < |Steps(g, root)|
    ensures Leads(g, root, [Steps(g, root)[i].name], Steps(g, root)[i].node)
    ensures IsWritten(g, root, [Steps(g, root)[i].name])
  {
    var step := Steps(g, root)[i];
    FaultlessSteps(g, root, i);
    assert Leads(g, root, [], root);
    LeadsOn(g, root, [], root, step.name, step.node);
    StepIsPlace(g, root, [], root, step.name, step.node);
    assert [] + [step.name] == [step.name];
  }

  lemma {:induction false} EnvelopeReasons(envelope: map<Text, Value>)
    requires CheckedEnvelope(envelope).Invalid?
    ensures !CheckedEnvelope(envelope).rejection.reason.Structural? && !OfAStatedKey(CheckedEnvelope(envelope).rejection.reason)
  {}

  lemma {:induction false} ViewIsPlaced(g: Graph, root: nat, view: View, tenant: Text, rules: Rules)
    requires WellFormed(g) && root < |g| && g[root].MappingNode? && CollectionFault(g, root) == None
    requires ViewOf(g, rules.read, Steps(g, root), root) == Ok(view) && (view.attributes.Some? ==> view.attributes.value < |g|)
    requires ReadView(g, view, tenant, rules).Invalid?
    ensures var r := ReadView(g, view, tenant, rules).rejection;
            && (r.reason.Structural? && r.path.Some? ==> IsPlace(g, root, r.path.value))
            && (OfAStatedKey(r.reason) ==> r.path.Some? && IsWritten(g, root, r.path.value))
  {
    var steps := Steps(g, root);
    if CheckedEnvelope(view.envelope).Invalid? {
      EnvelopeReasons(view.envelope);
    } else if view.attributes.Some? {
      AttributesAreStated(g, rules.read, steps, root);
      var i :| 0 <= i < |steps| && steps[i] == Step(ATTRIBUTES, view.attributes.value);
      RootStepIsWritten(g, root, i);
      EnvelopeIsStated(g, rules.read, steps, root, KIND);
      var j :| 0 <= j < |steps| && steps[j].name == KIND;
      RootStepIsWritten(g, root, j);
      AttributesArePlaced(g, root, CheckedEnvelope(view.envelope).value.kind, view.attributes.value, rules);
    }
  }

  /**
   * A structural rejection is of the whole document, of a key it writes, or of a position in one of its
   * lists; one about the kind named, the attributes named or an attribute's value is of a key it writes.
   */
  lemma {:induction false} RejectionIsPlaced(d: Document, tenant: Text, rules: Rules, path: Path)
    requires ReadDocument(Composed([d]), tenant, rules).Invalid?
    requires ReadDocument(Composed([d]), tenant, rules).rejection.path == Some(path)
    ensures var reason := ReadDocument(Composed([d]), tenant, rules).rejection.reason;
            && (reason.Structural? ==> IsPlace(d.g, d.root, path))
            && (OfAStatedKey(reason) ==> IsWritten(d.g, d.root, path))
  {
    var g, root := d.g, d.root;
    var steps := Steps(g, root);
    AttributesAreNodes(g, rules.read, steps, root);
    if CollectionFault(g, root).Some? {
      assert Leads(g, root, [], root);
      FaultIsPlaced(g, root, [], root);
    } else if ViewOf(g, rules.read, steps, root).Refused? {
      RefusedViewIsReal(d, rules);
      RefusalIsPlaced(g, rules.read, root, ViewOf(g, rules.read, steps, root).refusal);
    } else {
      ViewIsPlaced(g, root, ViewOf(g, rules.read, steps, root).value, tenant, rules);
    }
  }

  // ---------------------------------------------------------------- every rejection is true of its document

  /** What the envelope's rules are about: everything the document says but its attributes. */
  ghost predicate IsEnvelope(g: Graph, read: Reader, root: nat, envelope: map<Text, Value>)
    requires WellFormed(g) && root < |g|
  {
    && (forall name :: name in envelope ==> DocumentSays(g, read, root, name, envelope[name]))
    && (forall name :: name !in envelope && name != AsText("attributes") ==> Named(Steps(g, root), name) == None)
  }

  /** What a rejection claims of the document it is of. */
  ghost predicate IsTrueOfDocument(d: Document, rules: Rules, r: Rejection) {
    match r.reason
    case NotAMapping => !d.g[d.root].MappingNode? && r.path == None && r.line == None
    case Structural(f) => IsReal(d.g, rules.read, d.root, Refusal(f, r.path, r.line))
    case _ =>
      && r.path.Some? && r.line == None
      && ((exists envelope :: IsEnvelope(d.g, rules.read, d.root, envelope) && EnvelopeComplaint(envelope, r.reason, r.path.value))
          || exists kind :: AttributesWrong(d, rules, kind, r.reason, r.path.value))
  }

  ghost predicate AttributesWrong(d: Document, rules: Rules, kind: Text, reason: Reason, path: Path) {
    var attributes := Named(Steps(d.g, d.root), AsText("attributes"));
    && DocumentSays(d.g, rules.read, d.root, AsText("kind"), Str(kind))
    && (attributes.Some? ==> attributes.value < |d.g|)
    && AttributesComplaint(d.g, kind, attributes, rules, reason, path)
  }

  ghost predicate IsTrue(c: Composed, rules: Rules, r: Rejection) {
    match r.reason
    case CannotRead => c.CannotCompose? && r.path == None && r.line == c.line
    case NotOneDocument(found) => c.Composed? && found == |c.documents| != 1 && r.path == None && r.line == None
    case _ => c.Composed? && |c.documents| == 1 && IsTrueOfDocument(c.documents[0], rules, r)
  }

  lemma {:induction false} ViewIsEnvelope(g: Graph, read: Reader, root: nat, view: View)
    requires WellFormed(g) && root < |g| && ViewOf(g, read, Steps(g, root), root) == Ok(view)
    ensures IsEnvelope(g, read, root, view.envelope)
    ensures view.attributes == Named(Steps(g, root), AsText("attributes"))
  {
    var steps := Steps(g, root);
    forall name | name in view.envelope ensures DocumentSays(g, read, root, name, view.envelope[name]) {
      ViewSays(g, read, steps, root, name);
      StatedIsSaid(g, read, root, name, view.envelope[name]);
    }
    forall name | name !in view.envelope && name != AsText("attributes") ensures Named(steps, name) == None {
      ViewSays(g, read, steps, root, name);
      ViewBuilds(g, read, steps, root);
      if Named(steps, name).Some? { StatedUnlessRefused(g, read, steps, root, name); }
    }
    ViewSays(g, read, steps, root, ATTRIBUTES);
  }

  lemma {:induction false} StatedUnlessRefused(g: Graph, read: Reader, steps: seq<Step>, root: nat, name: Text)
    requires WellFormed(g) && root < |g| && forall i :: 0 <= i < |steps| ==> steps[i].node < |g|
    requires EnvelopeBuilds(g, read, steps, root) && Named(steps, name).Some? && name != ATTRIBUTES
    ensures Stated(g, read, steps, root, name).Some?
  {
    var i :| 0 <= i < |steps| && steps[i] == Step(name, Named(steps, name).value);
    assert Unfold(g, read, steps[i].node, [steps[i].name], {root}).Ok?;
  }

  lemma {:induction false} ViewRejectionIsTrue(d: Document, view: View, tenant: Text, rules: Rules)
    requires d.g[d.root].MappingNode? && CollectionFault(d.g, d.root) == None
    requires ViewOf(d.g, rules.read, Steps(d.g, d.root), d.root) == Ok(view) && (view.attributes.Some? ==> view.attributes.value < |d.g|)
    requires ReadView(d.g, view, tenant, rules).Invalid?
    ensures IsTrueOfDocument(d, rules, ReadView(d.g, view, tenant, rules).rejection)
  {
    var g, root := d.g, d.root;
    ViewIsEnvelope(g, rules.read, root, view);
    if CheckedEnvelope(view.envelope).Invalid? {
      EnvelopeRejectionIsTrue(view.envelope);
    } else {
      var kind := CheckedEnvelope(view.envelope).value.kind;
      EnvelopeReads(view.envelope);
      assert view.envelope[KIND] == Str(kind);
      AttributesRejectionIsTrue(g, kind, view.attributes, rules);
      var r := ValidatedAttributes(g, kind, view.attributes, rules).rejection;
      assert AttributesWrong(d, rules, kind, r.reason, r.path.value);
      if r.reason.Structural? { AttributesFaultIsReal(d, rules, view.attributes.value, r); }
    }
  }

  lemma {:induction false} AttributesFaultIsReal(d: Document, rules: Rules, n: nat, r: Rejection)
    requires d.g[d.root].MappingNode? && CollectionFault(d.g, d.root) == None
    requires Named(Steps(d.g, d.root), ATTRIBUTES) == Some(n) && n < |d.g| && CollectionFault(d.g, n).Some?
    requires FromRefusal<Snapshot>(At(CollectionFault(d.g, n).value, [ATTRIBUTES])) == Invalid(r)
    ensures IsReal(d.g, rules.read, d.root, Refusal(r.reason.fault, r.path, r.line))
  {
    var steps := Steps(d.g, d.root);
    var i :| 0 <= i < |steps| && steps[i] == Step(ATTRIBUTES, n);
    RootStepIsWritten(d.g, d.root, i);
    CollectionFaultKinds(d.g, n);
    assert RefusedAt(d.g, rules.read, d.root, [ATTRIBUTES], n, Refusal(r.reason.fault, r.path, r.line));
  }

  lemma {:induction false} RootFaultIsReal(d: Document, rules: Rules)
    requires CollectionFault(d.g, d.root).Some?
    ensures IsReal(d.g, rules.read, d.root, At(CollectionFault(d.g, d.root).value, []))
  {
    assert Leads(d.g, d.root, [], d.root);
    CollectionFaultKinds(d.g, d.root);
    assert RefusedAt(d.g, rules.read, d.root, [], d.root, At(CollectionFault(d.g, d.root).value, []));
  }

  lemma {:induction false} RefusedViewIsReal(d: Document, rules: Rules)
    requires d.g[d.root].MappingNode? && CollectionFault(d.g, d.root) == None
    requires ViewOf(d.g, rules.read, Steps(d.g, d.root), d.root).Refused?
    ensures IsReal(d.g, rules.read, d.root, ViewOf(d.g, rules.read, Steps(d.g, d.root), d.root).refusal)
  {
    var steps := Steps(d.g, d.root);
    var i := ViewRefusedBy(d.g, rules.read, steps, d.root);
    RootStepIsWritten(d.g, d.root, i);
    assert Leads(d.g, d.root, [], d.root);
    assert [steps[i].name][..0] == [];
    assert OnPath(d.g, d.root, [steps[i].name], d.root);
    RefusalIsReal(d.g, rules.read, d.root, steps[i].node, [steps[i].name], {d.root});
  }

  lemma {:induction false} StructuralIsTrue(d: Document, rules: Rules, refusal: Refusal)
    requires IsReal(d.g, rules.read, d.root, refusal)
    ensures IsTrueOfDocument(d, rules, Rejection(Structural(refusal.fault), refusal.path, refusal.line))
  {
    assert Refusal(refusal.fault, refusal.path, refusal.line) == refusal;
  }

  lemma {:induction false} DocumentRejectionIsTrue(d: Document, tenant: Text, rules: Rules)
    requires ReadDocument(Composed([d]), tenant, rules).Invalid? && d.g[d.root].MappingNode?
    ensures IsTrueOfDocument(d, rules, ReadDocument(Composed([d]), tenant, rules).rejection)
  {
    var steps := Steps(d.g, d.root);
    AttributesAreNodes(d.g, rules.read, steps, d.root);
    if CollectionFault(d.g, d.root).Some? {
      RootFaultIsReal(d, rules);
      StructuralIsTrue(d, rules, At(CollectionFault(d.g, d.root).value, []));
    } else if ViewOf(d.g, rules.read, steps, d.root).Refused? {
      RefusedViewIsReal(d, rules);
      StructuralIsTrue(d, rules, ViewOf(d.g, rules.read, steps, d.root).refusal);
    } else {
      ViewRejectionIsTrue(d, ViewOf(d.g, rules.read, steps, d.root).value, tenant, rules);
    }
  }

  lemma {:induction false} ReasonsOfOneDocument(d: Document, tenant: Text, rules: Rules)
    requires ReadDocument(Composed([d]), tenant, rules).Invalid?
    ensures var reason := ReadDocument(Composed([d]), tenant, rules).rejection.reason; !reason.CannotRead? && !reason.NotOneDocument?
  {
    var steps := Steps(d.g, d.root);
    if d.g[d.root].MappingNode? { DocumentRejectionIsTrue(d, tenant, rules); }
  }

  /** Every rejection is true of what was composed, at the place it names. */
  lemma {:induction false} RejectionIsTrue(c: Composed, tenant: Text, rules: Rules)
    requires ReadDocument(c, tenant, rules).Invalid?
    ensures IsTrue(c, rules, ReadDocument(c, tenant, rules).rejection)
  {
    if c.Composed? && |c.documents| == 1 {
      var d := c.documents[0];
      assert c == Composed([d]);
      ReasonsOfOneDocument(d, tenant, rules);
      if d.g[d.root].MappingNode? { DocumentRejectionIsTrue(d, tenant, rules); }
    }
  }
}
