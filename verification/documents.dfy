/** One intent document, from composed nodes to a resource snapshot or the first thing wrong with it. */
module Documents {
  import opened Options
  import opened Texts
  import opened Values
  import opened Divergence
  import opened Snapshots
  import opened Nodes
  import opened Effort
  import opened Construction

  /** The text composed: every document it holds, or where composing gave up. */
  datatype Composed = CannotCompose(line: Option<nat>) | Composed(documents: seq<Document>)

  datatype Tree = Tree(g: Graph, root: nat)

  type Document = d: Tree | WellFormed(d.g) && d.root < |d.g| witness Tree([ScalarNode("", [], false, 0)], 0)

  datatype Reason =
    | CannotRead
    | NotOneDocument(found: nat)
    | NotAMapping
    | Structural(fault: Fault)
    | UnsupportedVersion
    | CarriesProviderId
    | NotAnIdentifier
    | IdentifierTooLong
    | FieldNotAMapping
    | AttributesNotAMapping
    | UnknownKind
    | AttributesDoNotMatch
    | UnknownType
    | UnacceptableLiteral
    | Unstorable

  datatype Rejection = Rejection(reason: Reason, path: Option<Path>, line: Option<nat>)

  datatype Result<T> = Fine(value: T) | Invalid(rejection: Rejection)

  function Rejected<T>(reason: Reason, path: Path): Result<T> { Invalid(Rejection(reason, Some(path), None)) }

  function FromRefusal<T>(r: Refusal): Result<T> { Invalid(Rejection(Structural(r.fault), r.path, r.line)) }

  /** The attribute types by name: how each reads the text of a scalar, if it accepts it. */
  type Types = map<Text, Text -> Option<Value>>

  type KindSchemas = map<Text, map<Text, Text>>

  datatype Rules = Rules(read: Reader, types: Types, schemas: KindSchemas)

  const FORMAT_VERSION := "datum.dev/v1"
  const MAX_IDENTIFIER_LENGTH := 253
  const API_VERSION: Text := AsText("apiVersion")
  const PROVIDER_ID: Text := AsText("provider_id")
  const ATTRIBUTES: Text := AsText("attributes")
  const KIND: Text := AsText("kind")
  const METADATA: Text := AsText("metadata")
  const NAME: Text := AsText("name")
  const SCOPE: Text := AsText("scope")
  const DECLARED_NULL: Text := AsText("null")

  // ---------------------------------------------------------------- the envelope and the attributes

  /** The envelope as values, the attributes as the node they are. */
  datatype View = View(envelope: map<Text, Value>, attributes: Option<nat>)

  function ViewOf(g: Graph, read: Reader, steps: seq<Step>, root: nat): Outcome<View>
    requires WellFormed(g) && root < |g| && forall i :: 0 <= i < |steps| ==> steps[i].node < |g|
  {
    if steps == [] then Ok(View(map[], None))
    else
      match ViewOf(g, read, steps[..|steps| - 1], root)
      case Refused(r) => Refused(r)
      case Ok(v) => Widened(g, read, v, steps[|steps| - 1], root)
  }

  function Widened(g: Graph, read: Reader, v: View, step: Step, root: nat): Outcome<View>
    requires WellFormed(g) && root < |g| && step.node < |g|
  {
    if step.name == ATTRIBUTES then Ok(v.(attributes := Some(step.node)))
    else
      match Unfold(g, read, step.node, [step.name], {root})
      case Refused(r) => Refused(r)
      case Ok(value) => Ok(v.(envelope := v.envelope[step.name := value]))
  }

  /** `_document_view`: one memory of built nodes for the whole envelope, and so no more calls than the text has steps. */
  method DocumentView(g: Graph, read: Reader, root: nat) returns (view: Outcome<View>, ghost calls: nat)
    requires WellFormed(g) && root < |g|
    ensures calls <= StepsBelow(g, |g|)
    ensures view == if CollectionFault(g, root).Some? then Refused(At(CollectionFault(g, root).value, []))
                    else ViewOf(g, read, Steps(g, root), root)
  {
    if CollectionFault(g, root).Some? {
      return Refused(At(CollectionFault(g, root).value, [])), 0;
    }
    var steps := Steps(g, root);
    var builder := new Builder(g, read);
    builder.Enter(root, {});
    var v := View(map[], None);
    for i := 0 to |steps|
      invariant fresh(builder) && builder.g == g && builder.read == read && builder.Valid({root})
      invariant ViewOf(g, read, steps[..i], root) == Ok(v)
      invariant builder.Slack(i) >= |steps|
    {
      ViewStep(g, read, steps, i, root);
      if steps[i].name == ATTRIBUTES {
        v := v.(attributes := Some(steps[i].node));
      } else {
        var built := builder.Construct(steps[i].node, [steps[i].name], {root});
        if built.Refused? {
          ViewRefused(g, read, steps, i + 1, root);
          WorkIsLinear(g, builder.expanded);
          return Refused(built.refusal), builder.calls;
        }
        v := v.(envelope := v.envelope[steps[i].name := built.value]);
      }
    }
    assert steps[..|steps|] == steps;
    WorkIsLinear(g, builder.expanded);
    return Ok(v), builder.calls;
  }

  lemma {:induction false} ViewStep(g: Graph, read: Reader, steps: seq<Step>, i: nat, root: nat)
    requires WellFormed(g) && root < |g| && i < |steps| && forall j :: 0 <= j < |steps| ==> steps[j].node < |g|
    ensures ViewOf(g, read, steps[..i + 1], root) ==
            match ViewOf(g, read, steps[..i], root)
            case Refused(r) => Refused(r)
            case Ok(v) => Widened(g, read, v, steps[i], root)
  {
    assert steps[..i + 1][..i] == steps[..i];
  }

  lemma {:induction false} ViewRefused(g: Graph, read: Reader, steps: seq<Step>, i: nat, root: nat)
    requires WellFormed(g) && root < |g| && i <= |steps| && forall j :: 0 <= j < |steps| ==> steps[j].node < |g|
    requires ViewOf(g, read, steps[..i], root).Refused?
    ensures ViewOf(g, read, steps, root) == ViewOf(g, read, steps[..i], root)
    decreases |steps| - i
  {
    if i == |steps| {
      assert steps[..i] == steps;
    } else {
      ViewStep(g, read, steps, i, root);
      ViewRefused(g, read, steps, i + 1, root);
    }
  }

  // ---------------------------------------------------------------- envelope rules

  function Get(container: map<Text, Value>, name: Text): Option<Value> {
    if name in container then Some(container[name]) else None
  }

  function GetIn(entries: seq<Entry>, name: Text): Option<Value> {
    match Find(entries, name) case None => None case Some(i) => Some(entries[i].value)
  }

  function Identifier(value: Option<Value>, path: Path): Result<Text> {
    if value == None || !value.value.Str? || value.value.s == [] then Rejected(NotAnIdentifier, path)
    else if |value.value.s| > MAX_IDENTIFIER_LENGTH then Rejected(IdentifierTooLong, path)
    else Fine(value.value.s)
  }

  /** What the envelope says the resource is. */
  datatype Envelope = Envelope(kind: Text, name: Text, scope: Text)

  function CheckedEnvelope(envelope: map<Text, Value>): Result<Envelope> {
    if Get(envelope, API_VERSION) != Some(Str(AsText(FORMAT_VERSION))) then Rejected(UnsupportedVersion, [API_VERSION])
    else if PROVIDER_ID in envelope then Rejected(CarriesProviderId, [PROVIDER_ID])
    else
      match Identifier(Get(envelope, KIND), [KIND])
      case Invalid(r) => Invalid(r)
      case Fine(kind) =>
        var metadata := Get(envelope, METADATA);
        if metadata == None || !metadata.value.Dict? then Rejected(FieldNotAMapping, [METADATA])
        else if GetIn(metadata.value.entries, PROVIDER_ID).Some? then Rejected(CarriesProviderId, [METADATA, PROVIDER_ID])
        else
          match Identifier(GetIn(metadata.value.entries, NAME), [METADATA, NAME])
          case Invalid(r) => Invalid(r)
          case Fine(name) =>
            match Identifier(GetIn(metadata.value.entries, SCOPE), [METADATA, SCOPE])
            case Invalid(r) => Invalid(r)
            case Fine(scope) => Fine(Envelope(kind, name, scope))
  }

  // ---------------------------------------------------------------- attributes

  /** Shape, then state, then type: quoting alone keeps `null` a string. */
  function StatedValue(node: Node, parse: Text -> Option<Value>): Option<Value> {
    if !node.ScalarNode? then None
    else if node.quoted then parse(node.text)
    else if node.text == [] then None
    else if node.text == DECLARED_NULL then Some(Null)
    else parse(node.text)
  }

  function DeclaredAttribute(node: Node, name: Text, typeName: Text, types: Types): Result<Value> {
    var path := [ATTRIBUTES, name];
    if typeName !in types then Rejected(UnknownType, path)
    else
      match StatedValue(node, types[typeName])
      case None => Rejected(UnacceptableLiteral, path)
      case Some(v) => if EntriesStorable([Entry(Name(name), v)]) then Fine(v) else Rejected(Unstorable, path)
  }

  function NamesOf(steps: seq<Step>): set<Text> { set i | 0 <= i < |steps| :: steps[i].name }

  /** In document order, so the first attribute refused is the first an author reaches. */
  function DeclaredAttributes(g: Graph, steps: seq<Step>, schema: map<Text, Text>, types: Types): Result<seq<Entry>>
    requires forall i :: 0 <= i < |steps| ==> steps[i].node < |g| && steps[i].name in schema
  {
    if steps == [] then Fine([])
    else
      match DeclaredAttributes(g, steps[..|steps| - 1], schema, types)
      case Invalid(r) => Invalid(r)
      case Fine(entries) =>
        var last := steps[|steps| - 1];
        match DeclaredAttribute(g[last.node], last.name, schema[last.name], types)
        case Invalid(r) => Invalid(r)
        case Fine(v) => Fine(entries + [Entry(Name(last.name), v)])
  }

  function ValidatedAttributes(g: Graph, kind: Text, attributes: Option<nat>, rules: Rules): Result<seq<Entry>>
    requires WellFormed(g) && (attributes.Some? ==> attributes.value < |g|)
  {
    if attributes == None || !g[attributes.value].MappingNode? then Rejected(AttributesNotAMapping, [ATTRIBUTES])
    else if CollectionFault(g, attributes.value).Some? then
      FromRefusal(At(CollectionFault(g, attributes.value).value, [ATTRIBUTES]))
    else if kind !in rules.schemas then Rejected(UnknownKind, [KIND])
    else
      var steps, schema := Steps(g, attributes.value), rules.schemas[kind];
      if NamesOf(steps) != schema.Keys then Rejected(AttributesDoNotMatch, [ATTRIBUTES])
      else
        assert forall i :: 0 <= i < |steps| ==> steps[i].name in NamesOf(steps);
        DeclaredAttributes(g, steps, schema, rules.types)
  }

  // ---------------------------------------------------------------- the document

  function ReadView(g: Graph, view: View, tenant: Text, rules: Rules): Result<Snapshot>
    requires WellFormed(g) && (view.attributes.Some? ==> view.attributes.value < |g|)
  {
    match CheckedEnvelope(view.envelope)
    case Invalid(r) => Invalid(r)
    case Fine(e) =>
      match ValidatedAttributes(g, e.kind, view.attributes, rules)
      case Invalid(r) => Invalid(r)
      case Fine(attributes) => Fine(Snapshot(NaturalKey(e.kind, tenant, e.scope, e.name), None, attributes))
  }

  lemma {:induction false} AttributesAreNodes(g: Graph, read: Reader, steps: seq<Step>, root: nat)
    requires WellFormed(g) && root < |g| && forall i :: 0 <= i < |steps| ==> steps[i].node < |g|
    ensures ViewOf(g, read, steps, root).Ok? ==>
              ViewOf(g, read, steps, root).value.attributes.Some? ==> ViewOf(g, read, steps, root).value.attributes.value < |g|
  {
    if steps != [] { AttributesAreNodes(g, read, steps[..|steps| - 1], root); }
  }

  function ReadDocument(c: Composed, tenant: Text, rules: Rules): Result<Snapshot> {
    match c
    case CannotCompose(line) => Invalid(Rejection(CannotRead, None, line))
    case Composed(documents) =>
      if |documents| != 1 then Invalid(Rejection(NotOneDocument(|documents|), None, None))
      else
        var g, root := documents[0].g, documents[0].root;
        if !g[root].MappingNode? then Invalid(Rejection(NotAMapping, None, None))
        else if CollectionFault(g, root).Some? then FromRefusal(At(CollectionFault(g, root).value, []))
        else
          AttributesAreNodes(g, rules.read, Steps(g, root), root);
          match ViewOf(g, rules.read, Steps(g, root), root)
          case Refused(r) => FromRefusal(r)
          case Ok(view) => ReadView(g, view, tenant, rules)
  }

  /** `_read_document` */
  method ReadOne(c: Composed, tenant: Text, rules: Rules) returns (r: Result<Snapshot>)
    ensures r == ReadDocument(c, tenant, rules)
  {
    if c.CannotCompose? {
      return Invalid(Rejection(CannotRead, None, c.line));
    }
    if |c.documents| != 1 {
      return Invalid(Rejection(NotOneDocument(|c.documents|), None, None));
    }
    var g, root := c.documents[0].g, c.documents[0].root;
    if !g[root].MappingNode? {
      return Invalid(Rejection(NotAMapping, None, None));
    }
    var view, _ := DocumentView(g, rules.read, root);
    if view.Refused? {
      return FromRefusal(view.refusal);
    }
    AttributesAreNodes(g, rules.read, Steps(g, root), root);
    return ReadView(g, view.value, tenant, rules);
  }

  // ---------------------------------------------------------------- what a readable document is

  ghost predicate SchemaKeys(es: seq<Entry>, schema: map<Text, Text>) {
    forall name :: name in schema <==> exists i :: 0 <= i < |es| && es[i].key == Name(name)
  }

  lemma {:induction false} StorableAppend(es: seq<Entry>, name: Text, v: Value)
    requires EntriesStorable(es) && EntriesStorable([Entry(Name(name), v)])
    requires forall i :: 0 <= i < |es| ==> es[i].key != Name(name)
    ensures EntriesStorable(es + [Entry(Name(name), v)])
  {
    var one := [Entry(Name(name), v)];
    var all := es + one;
    assert StorableText(one[0].key.name) && Storable(one[0].value);
    assert DistinctKeys(all) && NamedKeys(all);
    forall i | 0 <= i < |all| ensures StorableText(all[i].key.name) && Storable(all[i].value) {
      if i < |es| { assert all[i] == es[i]; }
    }
  }

  lemma {:induction false} DeclaredAreStorable(g: Graph, steps: seq<Step>, schema: map<Text, Text>, types: Types)
    requires forall i :: 0 <= i < |steps| ==> steps[i].node < |g| && steps[i].name in schema
    requires forall i, j :: 0 <= i < j < |steps| ==> steps[i].name != steps[j].name
    ensures var r := DeclaredAttributes(g, steps, schema, types);
            r.Fine? ==>
              && EntriesStorable(r.value)
              && |r.value| == |steps|
              && forall i :: 0 <= i < |steps| ==> r.value[i].key == Name(steps[i].name)
  {
    if steps != [] {
      var front, last := steps[..|steps| - 1], steps[|steps| - 1];
      DeclaredAreStorable(g, front, schema, types);
      var r := DeclaredAttributes(g, steps, schema, types);
      if r.Fine? {
        var es := DeclaredAttributes(g, front, schema, types).value;
        StorableAppend(es, last.name, r.value[|es|].value);
      }
    }
  }

  lemma {:induction false} FaultlessNamesApart(g: Graph, n: nat)
    requires WellFormed(g) && n < |g| && g[n].MappingNode? && CollectionFault(g, n) == None
    ensures forall i, j :: 0 <= i < j < |Steps(g, n)| ==> Steps(g, n)[i].name != Steps(g, n)[j].name
  {
    assert NodeWithin(g, n);
    RulesAreExact(g, g[n].entries, {});
  }

  /**
   * An accepted document names its resource within bounds, carries no provider id, states exactly the
   * attributes its kind's schema asks for, and can be stored.
   */
  lemma {:induction false} AcceptedIsWellStated(c: Composed, tenant: Text, rules: Rules)
    requires ReadDocument(c, tenant, rules).Fine?
    ensures var s := ReadDocument(c, tenant, rules).value;
            && Admitted(s)
            && s.providerId == None
            && s.key.tenant == tenant
            && s.key.kind in rules.schemas
            && SchemaKeys(s.attributes, rules.schemas[s.key.kind])
            && 1 <= |s.key.kind| <= MAX_IDENTIFIER_LENGTH
            && 1 <= |s.key.name| <= MAX_IDENTIFIER_LENGTH
            && 1 <= |s.key.scope| <= MAX_IDENTIFIER_LENGTH
  {
    var g, root := c.documents[0].g, c.documents[0].root;
    AttributesAreNodes(g, rules.read, Steps(g, root), root);
    var view := ViewOf(g, rules.read, Steps(g, root), root).value;
    var n := view.attributes.value;
    FaultlessNamesApart(g, n);
    AttributesMatch(g, ReadDocument(c, tenant, rules).value.key.kind, n, rules);
  }

  lemma {:induction false} AttributesMatch(g: Graph, kind: Text, n: nat, rules: Rules)
    requires WellFormed(g) && n < |g| && g[n].MappingNode? && CollectionFault(g, n) == None
    requires ValidatedAttributes(g, kind, Some(n), rules).Fine?
    ensures kind in rules.schemas
    ensures EntriesStorable(ValidatedAttributes(g, kind, Some(n), rules).value)
    ensures SchemaKeys(ValidatedAttributes(g, kind, Some(n), rules).value, rules.schemas[kind])
  {
    var steps, schema := Steps(g, n), rules.schemas[kind];
    var es := ValidatedAttributes(g, kind, Some(n), rules).value;
    FaultlessNamesApart(g, n);
    assert forall i :: 0 <= i < |steps| ==> steps[i].name in NamesOf(steps);
    DeclaredAreStorable(g, steps, schema, rules.types);
    forall name ensures name in schema <==> exists i :: 0 <= i < |es| && es[i].key == Name(name) {
      assert name in schema <==> name in NamesOf(steps);
      if name in NamesOf(steps) {
        var i :| 0 <= i < |steps| && steps[i].name == name;
        assert es[i].key == Name(name);
      }
      if i :| 0 <= i < |es| && es[i].key == Name(name) {
        assert steps[i].name == name;
      }
    }
  }

  // ---------------------------------------------------------------- exactly which documents read

  /** The node a collection names, if it names it. */
  function Named(steps: seq<Step>, name: Text): (r: Option<nat>)
    ensures r.Some? ==> exists i :: 0 <= i < |steps| && steps[i] == Step(name, r.value)
    ensures r == None ==> forall i :: 0 <= i < |steps| ==> steps[i].name != name
  {
    if steps == [] then None
    else if steps[|steps| - 1].name == name then Some(steps[|steps| - 1].node)
    else Named(steps[..|steps| - 1], name)
  }

  ghost predicate EnvelopeBuilds(g: Graph, read: Reader, steps: seq<Step>, root: nat)
    requires WellFormed(g) && root < |g| && forall i :: 0 <= i < |steps| ==> steps[i].node < |g|
  {
    forall i :: 0 <= i < |steps| && steps[i].name != ATTRIBUTES ==>
                  Unfold(g, read, steps[i].node, [steps[i].name], {root}).Ok?
  }

  /** What the document's envelope says under a name. */
  function Stated(g: Graph, read: Reader, steps: seq<Step>, root: nat, name: Text): Option<Value>
    requires WellFormed(g) && root < |g| && forall i :: 0 <= i < |steps| ==> steps[i].node < |g|
  {
    if name == ATTRIBUTES || Named(steps, name) == None then None
    else
      match Unfold(g, read, Named(steps, name).value, [name], {root})
      case Ok(v) => Some(v)
      case Refused(_) => None
  }

  lemma {:induction false} NamedStep(steps: seq<Step>, name: Text)
    requires steps != []
    ensures var last := steps[|steps| - 1];
            Named(steps, name) == if last.name == name then Some(last.node) else Named(steps[..|steps| - 1], name)
  {}

  lemma {:induction false} BuildsStep(g: Graph, read: Reader, steps: seq<Step>, root: nat)
    requires WellFormed(g) && root < |g| && forall i :: 0 <= i < |steps| ==> steps[i].node < |g|
    requires steps != []
    ensures var last := steps[|steps| - 1];
            EnvelopeBuilds(g, read, steps, root) <==>
            EnvelopeBuilds(g, read, steps[..|steps| - 1], root) &&
            (last.name != ATTRIBUTES ==> Unfold(g, read, last.node, [last.name], {root}).Ok?)
  {
    var front := steps[..|steps| - 1];
    if EnvelopeBuilds(g, read, front, root) {
      forall i | 0 <= i < |front| && steps[i].name != ATTRIBUTES
        ensures Unfold(g, read, steps[i].node, [steps[i].name], {root}).Ok?
      {
        assert front[i] == steps[i];
      }
    }
    if EnvelopeBuilds(g, read, steps, root) {
      forall i | 0 <= i < |front| && front[i].name != ATTRIBUTES
        ensures Unfold(g, read, front[i].node, [front[i].name], {root}).Ok?
      {
        assert front[i] == steps[i];
      }
    }
  }

  /** The envelope is built exactly when each of its values is. */
  lemma {:induction false} ViewBuilds(g: Graph, read: Reader, steps: seq<Step>, root: nat)
    requires WellFormed(g) && root < |g| && forall i :: 0 <= i < |steps| ==> steps[i].node < |g|
    ensures ViewOf(g, read, steps, root).Ok? <==> EnvelopeBuilds(g, read, steps, root)
  {
    if steps != [] {
      ViewBuilds(g, read, steps[..|steps| - 1], root);
      BuildsStep(g, read, steps, root);
    }
  }

  /** And it says under each name what that value is. */
  lemma {:induction false} ViewSays(g: Graph, read: Reader, steps: seq<Step>, root: nat, name: Text)
    requires WellFormed(g) && root < |g| && forall i :: 0 <= i < |steps| ==> steps[i].node < |g|
    requires ViewOf(g, read, steps, root).Ok?
    ensures ViewOf(g, read, steps, root).value.attributes == Named(steps, ATTRIBUTES)
    ensures Get(ViewOf(g, read, steps, root).value.envelope, name) == Stated(g, read, steps, root, name)
  {
    if steps != [] {
      ViewSays(g, read, steps[..|steps| - 1], root, name);
      NamedStep(steps, name);
      NamedStep(steps, ATTRIBUTES);
    }
  }

  predicate IsIdentifier(value: Option<Value>) {
    value.Some? && value.value.Str? && 1 <= |value.value.s| <= MAX_IDENTIFIER_LENGTH
  }

  ghost predicate SoundEnvelope(version: Option<Value>, providerId: Option<Value>, kind: Option<Value>, metadata: Option<Value>) {
    && version == Some(Str(AsText(FORMAT_VERSION)))
    && providerId == None
    && IsIdentifier(kind)
    && metadata.Some? && metadata.value.Dict?
    && GetIn(metadata.value.entries, PROVIDER_ID) == None
    && IsIdentifier(GetIn(metadata.value.entries, NAME))
    && IsIdentifier(GetIn(metadata.value.entries, SCOPE))
  }

  ghost predicate SoundView(envelope: map<Text, Value>) {
    SoundEnvelope(Get(envelope, API_VERSION), Get(envelope, PROVIDER_ID), Get(envelope, KIND), Get(envelope, METADATA))
  }

  lemma {:induction false} EnvelopeReads(envelope: map<Text, Value>)
    ensures CheckedEnvelope(envelope).Fine? <==> SoundView(envelope)
    ensures SoundView(envelope) ==>
              CheckedEnvelope(envelope).value ==
              Envelope(envelope[KIND].s, GetIn(envelope[METADATA].entries, NAME).value.s,
                       GetIn(envelope[METADATA].entries, SCOPE).value.s)
  {}

  ghost predicate AllDeclared(g: Graph, steps: seq<Step>, schema: map<Text, Text>, types: Types)
    requires forall i :: 0 <= i < |steps| ==> steps[i].node < |g| && steps[i].name in schema
  {
    forall i :: 0 <= i < |steps| ==> DeclaredAttribute(g[steps[i].node], steps[i].name, schema[steps[i].name], types).Fine?
  }

  lemma {:induction false} AttributesRead(g: Graph, steps: seq<Step>, schema: map<Text, Text>, types: Types)
    requires forall i :: 0 <= i < |steps| ==> steps[i].node < |g| && steps[i].name in schema
    ensures DeclaredAttributes(g, steps, schema, types).Fine? <==> AllDeclared(g, steps, schema, types)
    ensures DeclaredAttributes(g, steps, schema, types).Fine? ==>
              var es := DeclaredAttributes(g, steps, schema, types).value;
              && |es| == |steps|
              && forall i :: 0 <= i < |steps| ==>
                   es[i] == Entry(Name(steps[i].name),
                                  DeclaredAttribute(g[steps[i].node], steps[i].name, schema[steps[i].name], types).value)
  {
    if steps != [] {
      var front := steps[..|steps| - 1];
      AttributesRead(g, front, schema, types);
      assert forall i :: 0 <= i < |front| ==> front[i] == steps[i];
    }
  }

  /** The attributes node is a plain mapping whose names are the schema's, each value of its declared type. */
  ghost predicate SoundAttributes(g: Graph, kind: Text, n: nat, rules: Rules)
    requires WellFormed(g) && n < |g|
  {
    && g[n].MappingNode?
    && CollectionFault(g, n) == None
    && kind in rules.schemas
    && NamesOf(Steps(g, n)) == rules.schemas[kind].Keys
    && (forall i :: 0 <= i < |Steps(g, n)| ==> Steps(g, n)[i].name in rules.schemas[kind])
    && AllDeclared(g, Steps(g, n), rules.schemas[kind], rules.types)
  }

  lemma {:induction false} AttributesReadExactly(g: Graph, kind: Text, attributes: Option<nat>, rules: Rules)
    requires WellFormed(g) && (attributes.Some? ==> attributes.value < |g|)
    ensures ValidatedAttributes(g, kind, attributes, rules).Fine? <==>
            attributes.Some? && SoundAttributes(g, kind, attributes.value, rules)
  {
    if attributes.Some? {
      var steps := Steps(g, attributes.value);
      assert forall i :: 0 <= i < |steps| ==> steps[i].name in NamesOf(steps);
      if kind in rules.schemas && NamesOf(steps) == rules.schemas[kind].Keys {
        AttributesRead(g, steps, rules.schemas[kind], rules.types);
      }
    }
  }

  /** What a document must be to read: stated rule by rule, in no order. */
  ghost predicate Readable(g: Graph, root: nat, rules: Rules)
    requires WellFormed(g) && root < |g|
  {
    && g[root].MappingNode?
    && CollectionFault(g, root) == None
    && var steps := Steps(g, root);
       var kind := Stated(g, rules.read, steps, root, KIND);
       && EnvelopeBuilds(g, rules.read, steps, root)
       && SoundEnvelope(Stated(g, rules.read, steps, root, API_VERSION), Stated(g, rules.read, steps, root, PROVIDER_ID),
                        kind, Stated(g, rules.read, steps, root, METADATA))
       && Named(steps, ATTRIBUTES).Some?
       && SoundAttributes(g, kind.value.s, Named(steps, ATTRIBUTES).value, rules)
  }

  lemma {:induction false} ViewReadsExactly(g: Graph, view: View, tenant: Text, rules: Rules)
    requires WellFormed(g) && (view.attributes.Some? ==> view.attributes.value < |g|)
    ensures ReadView(g, view, tenant, rules).Fine? <==>
            && SoundView(view.envelope)
            && view.attributes.Some?
            && SoundAttributes(g, view.envelope[KIND].s, view.attributes.value, rules)
  {
    EnvelopeReads(view.envelope);
    if SoundView(view.envelope) {
      AttributesReadExactly(g, view.envelope[KIND].s, view.attributes, rules);
    }
  }

  lemma {:induction false} TreeReadsExactly(g: Graph, root: nat, tenant: Text, rules: Rules, view: View)
    requires WellFormed(g) && root < |g| && g[root].MappingNode? && CollectionFault(g, root) == None
    requires ViewOf(g, rules.read, Steps(g, root), root) == Ok(view) && (view.attributes.Some? ==> view.attributes.value < |g|)
    ensures ReadView(g, view, tenant, rules).Fine? <==> Readable(g, root, rules)
  {
    var steps := Steps(g, root);
    ViewBuilds(g, rules.read, steps, root);
    ViewSays(g, rules.read, steps, root, API_VERSION);
    ViewSays(g, rules.read, steps, root, PROVIDER_ID);
    ViewSays(g, rules.read, steps, root, KIND);
    ViewSays(g, rules.read, steps, root, METADATA);
    ViewReadsExactly(g, view, tenant, rules);
  }

  /** A document reads exactly when it meets every rule. */
  lemma {:induction false} ReadsExactlyWhenReadable(c: Composed, tenant: Text, rules: Rules)
    ensures ReadDocument(c, tenant, rules).Fine? <==>
            c.Composed? && |c.documents| == 1 && Readable(c.documents[0].g, c.documents[0].root, rules)
  {
    if c.Composed? && |c.documents| == 1 {
      var g, root := c.documents[0].g, c.documents[0].root;
      if g[root].MappingNode? && CollectionFault(g, root) == None {
        var steps := Steps(g, root);
        ViewBuilds(g, rules.read, steps, root);
        AttributesAreNodes(g, rules.read, steps, root);
        if ViewOf(g, rules.read, steps, root).Ok? {
          TreeReadsExactly(g, root, tenant, rules, ViewOf(g, rules.read, steps, root).value);
        }
      }
    }
  }

  // ---------------------------------------------------------------- what an accepted document is read as

  /**
   * What an attribute's node declares: quoted, its text read by its type; unquoted, null for the word `null`,
   * nothing for no text, and otherwise its text read by its type.
   */
  ghost predicate Declares(node: Node, parse: Text -> Option<Value>, v: Value) {
    && node.ScalarNode?
    && (node.quoted ==> parse(node.text) == Some(v))
    && (!node.quoted ==> node.text != [] && if node.text == AsText("null") then v == Null else parse(node.text) == Some(v))
  }

  lemma {:induction false} StatedValueDeclares(node: Node, parse: Text -> Option<Value>, v: Value)
    ensures StatedValue(node, parse) == Some(v) <==> Declares(node, parse, v)
  {}

  lemma {:induction false} DeclaredAttributeDeclares(node: Node, name: Text, typeName: Text, types: Types, v: Value)
    ensures DeclaredAttribute(node, name, typeName, types) == Fine(v) <==>
            typeName in types && Declares(node, types[typeName], v) && EntriesStorable([Entry(Name(name), v)])
  {
    if typeName in types { StatedValueDeclares(node, types[typeName], v); }
  }

  /** The document's mapping states this under a name. */
  ghost predicate DocumentSays(g: Graph, read: Reader, root: nat, name: Text, v: Value)
    requires WellFormed(g) && root < |g|
  {
    Named(Steps(g, root), name).Some? && Denotes(g, read, Named(Steps(g, root), name).value, v)
  }

  lemma {:induction false} StatedIsSaid(g: Graph, read: Reader, root: nat, name: Text, v: Value)
    requires WellFormed(g) && root < |g| && Stated(g, read, Steps(g, root), root, name) == Some(v)
    ensures DocumentSays(g, read, root, name, v)
  {
    UnfoldDenotes(g, read, Named(Steps(g, root), name).value, [name], {root}, v);
  }

  lemma {:induction false} FoundIsThere(es: seq<Entry>, name: Text, v: Value)
    requires GetIn(es, name) == Some(v)
    ensures Entry(Name(name), v) in es
  {
    assert es[Find(es, name).value] == Entry(Name(name), v);
  }

  /** The envelope: what the document says its version, its kind and its metadata's name and scope are. */
  ghost predicate EnvelopeSays(g: Graph, read: Reader, root: nat, key: NaturalKey, metadata: seq<Entry>)
    requires WellFormed(g) && root < |g|
  {
    && DocumentSays(g, read, root, AsText("apiVersion"), Str(AsText("datum.dev/v1")))
    && DocumentSays(g, read, root, AsText("kind"), Str(key.kind))
    && DocumentSays(g, read, root, AsText("metadata"), Dict(metadata))
    && Entry(Name(AsText("name")), Str(key.name)) in metadata
    && Entry(Name(AsText("scope")), Str(key.scope)) in metadata
  }

  /** The attributes: one for each that the document's attributes node states, in its order, of the type its kind gives it. */
  ghost predicate AttributesSay(g: Graph, n: nat, schema: map<Text, Text>, types: Types, es: seq<Entry>)
    requires WellFormed(g) && n < |g|
  {
    && |es| == |Steps(g, n)|
    && forall i :: 0 <= i < |es| ==> AttributeSays(g, Steps(g, n)[i], schema, types, es[i])
  }

  ghost predicate AttributeSays(g: Graph, step: Step, schema: map<Text, Text>, types: Types, e: Entry)
    requires step.node < |g|
  {
    && e.key == Name(step.name)
    && step.name in schema && schema[step.name] in types
    && Declares(g[step.node], types[schema[step.name]], e.value)
  }

  lemma {:induction false} ViewEnvelopeSays(g: Graph, root: nat, rules: Rules, view: View, e: Envelope, key: NaturalKey)
    requires WellFormed(g) && root < |g| && ViewOf(g, rules.read, Steps(g, root), root) == Ok(view)
    requires CheckedEnvelope(view.envelope) == Fine(e) && key.kind == e.kind && key.name == e.name && key.scope == e.scope
    ensures METADATA in view.envelope && view.envelope[METADATA].Dict?
    ensures EnvelopeSays(g, rules.read, root, key, view.envelope[METADATA].entries)
  {
    var steps := Steps(g, root);
    EnvelopeReads(view.envelope);
    ViewSays(g, rules.read, steps, root, API_VERSION);
    ViewSays(g, rules.read, steps, root, KIND);
    ViewSays(g, rules.read, steps, root, METADATA);
    StatedIsSaid(g, rules.read, root, API_VERSION, view.envelope[API_VERSION]);
    StatedIsSaid(g, rules.read, root, KIND, view.envelope[KIND]);
    StatedIsSaid(g, rules.read, root, METADATA, view.envelope[METADATA]);
    FoundIsThere(view.envelope[METADATA].entries, NAME, Str(key.name));
    FoundIsThere(view.envelope[METADATA].entries, SCOPE, Str(key.scope));
  }

  lemma {:induction false} ValidatedSay(g: Graph, kind: Text, n: nat, rules: Rules, es: seq<Entry>)
    requires WellFormed(g) && n < |g| && ValidatedAttributes(g, kind, Some(n), rules) == Fine(es)
    ensures kind in rules.schemas && AttributesSay(g, n, rules.schemas[kind], rules.types, es)
  {
    var steps, schema := Steps(g, n), rules.schemas[kind];
    assert forall i :: 0 <= i < |steps| ==> steps[i].name in NamesOf(steps);
    AttributesRead(g, steps, schema, rules.types);
    forall i | 0 <= i < |es| ensures AttributeSays(g, steps[i], schema, rules.types, es[i]) {
      DeclaredAttributeDeclares(g[steps[i].node], steps[i].name, schema[steps[i].name], rules.types, es[i].value);
    }
  }

  /**
   * An accepted document is read as what it says: its kind, its name and its scope each where the document
   * puts them, under the tenant given, and each attribute as its node declares it under its kind's types.
   */
  lemma {:induction false} AcceptedIsWhatIsWritten(c: Composed, tenant: Text, rules: Rules)
    requires ReadDocument(c, tenant, rules).Fine?
    ensures c.Composed? && |c.documents| == 1
    ensures var s := ReadDocument(c, tenant, rules).value;
            var g, root := c.documents[0].g, c.documents[0].root;
            && s.key.tenant == tenant
            && (exists metadata :: EnvelopeSays(g, rules.read, root, s.key, metadata))
            && s.key.kind in rules.schemas
            && Named(Steps(g, root), AsText("attributes")).Some?
            && AttributesSay(g, Named(Steps(g, root), AsText("attributes")).value, rules.schemas[s.key.kind], rules.types, s.attributes)
  {
    var s := ReadDocument(c, tenant, rules).value;
    var g, root := c.documents[0].g, c.documents[0].root;
    AttributesAreNodes(g, rules.read, Steps(g, root), root);
    var view := ViewOf(g, rules.read, Steps(g, root), root).value;
    ViewEnvelopeSays(g, root, rules, view, CheckedEnvelope(view.envelope).value, s.key);
    ViewSays(g, rules.read, Steps(g, root), root, ATTRIBUTES);
    ValidatedSay(g, s.key.kind, view.attributes.value, rules, s.attributes);
  }

  // ---------------------------------------------------------------- every rejection is true

  /** What the envelope says at a path of one name or two. */
  function SaidAt(envelope: map<Text, Value>, path: Path): Option<Value> {
    if |path| == 1 then Get(envelope, path[0])
    else if |path| == 2 && path[0] in envelope && envelope[path[0]].Dict? then GetIn(envelope[path[0]].entries, path[1])
    else None
  }

  predicate IsIdentifierPath(path: Path) {
    path == [AsText("kind")] || path == [AsText("metadata"), AsText("name")] || path == [AsText("metadata"), AsText("scope")]
  }

  /** What each envelope rejection claims of the place it names. */
  ghost predicate EnvelopeComplaint(envelope: map<Text, Value>, reason: Reason, path: Path) {
    var said := SaidAt(envelope, path);
    match reason
    case UnsupportedVersion => path == [AsText("apiVersion")] && said != Some(Str(AsText("datum.dev/v1")))
    case CarriesProviderId =>
      (path == [AsText("provider_id")] || path == [AsText("metadata"), AsText("provider_id")]) && said.Some?
    case NotAnIdentifier => IsIdentifierPath(path) && !(said.Some? && said.value.Str? && said.value.s != [])
    case IdentifierTooLong => IsIdentifierPath(path) && said.Some? && said.value.Str? && |said.value.s| > 253
    case FieldNotAMapping => path == [AsText("metadata")] && !(said.Some? && said.value.Dict?)
    case _ => false
  }

  lemma {:induction false} EnvelopeRejectionIsTrue(envelope: map<Text, Value>)
    requires CheckedEnvelope(envelope).Invalid?
    ensures var r := CheckedEnvelope(envelope).rejection;
            r.path.Some? && r.line == None && EnvelopeComplaint(envelope, r.reason, r.path.value)
  {}

  /** What each rejection of the attributes claims of the place it names. */
  ghost predicate AttributesComplaint(g: Graph, kind: Text, attributes: Option<nat>, rules: Rules, reason: Reason, path: Path)
    requires WellFormed(g) && (attributes.Some? ==> attributes.value < |g|)
  {
    match reason
    case AttributesNotAMapping =>
      path == [AsText("attributes")] && (attributes.Some? ==> !g[attributes.value].MappingNode?)
    case UnknownKind => path == [AsText("kind")] && kind !in rules.schemas
    case AttributesDoNotMatch =>
      && path == [AsText("attributes")] && attributes.Some? && kind in rules.schemas
      && exists name :: (name in rules.schemas[kind]) != StatesName(Steps(g, attributes.value), name)
    case Structural(f) => attributes.Some? && CollectionFault(g, attributes.value) == Some(f)
    case _ =>
      && attributes.Some? && kind in rules.schemas
      && AttributeComplaint(g, attributes.value, rules.schemas[kind], rules.types, reason, path)
  }

  predicate StatesName(steps: seq<Step>, name: Text) { exists i :: 0 <= i < |steps| && steps[i].name == name }

  ghost predicate AttributeComplaint(g: Graph, n: nat, schema: map<Text, Text>, types: Types, reason: Reason, path: Path)
    requires WellFormed(g) && n < |g|
  {
    exists i :: 0 <= i < |Steps(g, n)| && StepComplaint(g, Steps(g, n)[i], schema, types, reason, path)
  }

  ghost predicate StepComplaint(g: Graph, step: Step, schema: map<Text, Text>, types: Types, reason: Reason, path: Path)
    requires step.node < |g|
  {
    && path == [AsText("attributes"), step.name] && step.name in schema
    && match reason
       case UnknownType => schema[step.name] !in types
       case UnacceptableLiteral => schema[step.name] in types && !exists v :: Declares(g[step.node], types[schema[step.name]], v)
       case Unstorable =>
         schema[step.name] in types &&
         exists v :: Declares(g[step.node], types[schema[step.name]], v) && !EntriesStorable([Entry(Name(step.name), v)])
       case _ => false
  }

  lemma {:induction false} AttributeRejectionIsTrue(g: Graph, step: Step, schema: map<Text, Text>, types: Types)
    requires step.node < |g| && step.name in schema
    requires DeclaredAttribute(g[step.node], step.name, schema[step.name], types).Invalid?
    ensures var r := DeclaredAttribute(g[step.node], step.name, schema[step.name], types).rejection;
            r.path.Some? && r.line == None && StepComplaint(g, step, schema, types, r.reason, r.path.value)
  {
    if schema[step.name] in types {
      var parse := types[schema[step.name]];
      forall v ensures StatedValue(g[step.node], parse) == Some(v) <==> Declares(g[step.node], parse, v) {
        StatedValueDeclares(g[step.node], parse, v);
      }
    }
  }

  lemma {:induction false} FirstBadAttribute(g: Graph, steps: seq<Step>, schema: map<Text, Text>, types: Types) returns (i: nat)
    requires forall j :: 0 <= j < |steps| ==> steps[j].node < |g| && steps[j].name in schema
    requires DeclaredAttributes(g, steps, schema, types).Invalid?
    ensures i < |steps|
    ensures DeclaredAttribute(g[steps[i].node], steps[i].name, schema[steps[i].name], types) ==
            Invalid(DeclaredAttributes(g, steps, schema, types).rejection)
    ensures forall j :: 0 <= j < i ==> DeclaredAttribute(g[steps[j].node], steps[j].name, schema[steps[j].name], types).Fine?
  {
    var front := steps[..|steps| - 1];
    if DeclaredAttributes(g, front, schema, types).Invalid? {
      i := FirstBadAttribute(g, front, schema, types);
      assert forall j :: 0 <= j < |front| ==> front[j] == steps[j];
    } else {
      i := |steps| - 1;
      AttributesRead(g, front, schema, types);
      assert forall j :: 0 <= j < |front| ==> front[j] == steps[j];
    }
  }

  lemma {:induction false} AttributesRejectionIsTrue(g: Graph, kind: Text, attributes: Option<nat>, rules: Rules)
    requires WellFormed(g) && (attributes.Some? ==> attributes.value < |g|)
    requires ValidatedAttributes(g, kind, attributes, rules).Invalid?
    ensures var r := ValidatedAttributes(g, kind, attributes, rules).rejection;
            r.path.Some? && r.line == None && AttributesComplaint(g, kind, attributes, rules, r.reason, r.path.value)
  {
    if attributes.Some? && g[attributes.value].MappingNode? && CollectionFault(g, attributes.value) == None && kind in rules.schemas {
      var steps, schema := Steps(g, attributes.value), rules.schemas[kind];
      if NamesOf(steps) == schema.Keys {
        assert forall i :: 0 <= i < |steps| ==> steps[i].name in NamesOf(steps);
        var i := FirstBadAttribute(g, steps, schema, rules.types);
        AttributeRejectionIsTrue(g, steps[i], schema, rules.types);
      } else {
        NamesDiffer(steps, schema);
      }
    }
  }

  lemma {:induction false} NamesDiffer(steps: seq<Step>, schema: map<Text, Text>)
    requires NamesOf(steps) != schema.Keys
    ensures exists name :: (name in schema) != StatesName(steps, name)
  {
    var name :| (name in schema.Keys) != (name in NamesOf(steps));
    assert (name in schema) != StatesName(steps, name);
  }

  // ---------------------------------------------------------------- and is the first there is

  /** Where a path stands in the order the envelope's rules are tried in. */
  function EnvelopeRank(path: Path): nat {
    if path == [AsText("apiVersion")] then 0
    else if path == [AsText("provider_id")] then 1
    else if path == [AsText("kind")] then 2
    else if path == [AsText("metadata")] then 3
    else if path == [AsText("metadata"), AsText("provider_id")] then 4
    else if path == [AsText("metadata"), AsText("name")] then 5
    else 6
  }

  lemma {:induction false} NamesDistinct()
    ensures AsText("apiVersion") != AsText("provider_id") && AsText("apiVersion") != AsText("kind")
    ensures AsText("apiVersion") != AsText("metadata") && AsText("provider_id") != AsText("kind")
    ensures AsText("provider_id") != AsText("metadata") && AsText("kind") != AsText("metadata") && AsText("name") != AsText("scope")
    ensures AsText("provider_id") != AsText("name") && AsText("provider_id") != AsText("scope")
  {
    assert AsText("apiVersion")[0] == 'a' as int && AsText("provider_id")[0] == 'p' as int;
    assert AsText("kind")[0] == 'k' as int && AsText("metadata")[0] == 'm' as int;
    assert AsText("name")[0] == 'n' as int && AsText("scope")[0] == 's' as int;
  }

  /** No rule tried earlier has anything to complain of. */
  lemma {:induction false} EnvelopeRejectionIsFirst(envelope: map<Text, Value>, reason: Reason, path: Path)
    requires CheckedEnvelope(envelope).Invalid? && EnvelopeComplaint(envelope, reason, path)
    ensures EnvelopeRank(path) >= EnvelopeRank(CheckedEnvelope(envelope).rejection.path.value)
  {
    NamesDistinct();
  }

  /** The order the attributes' rules are tried in: their shape, their structure, the kind, the names, then each attribute. */
  function AttributesRank(reason: Reason): nat {
    match reason
    case AttributesNotAMapping => 0
    case Structural(_) => 1
    case UnknownKind => 2
    case AttributesDoNotMatch => 3
    case _ => 4
  }

  lemma {:induction false} AttributesRejectionIsFirst(
      g: Graph, kind: Text, attributes: Option<nat>, rules: Rules, reason: Reason, path: Path)
    requires WellFormed(g) && (attributes.Some? ==> attributes.value < |g|)
    requires ValidatedAttributes(g, kind, attributes, rules).Invalid?
    requires AttributesComplaint(g, kind, attributes, rules, reason, path)
    ensures AttributesRank(reason) >= AttributesRank(ValidatedAttributes(g, kind, attributes, rules).rejection.reason)
  {
    AttributesRejectionIsTrue(g, kind, attributes, rules);
    if attributes.Some? && kind in rules.schemas {
      var steps, schema := Steps(g, attributes.value), rules.schemas[kind];
      if NamesOf(steps) == schema.Keys {
        forall name ensures name in schema <==> StatesName(steps, name) {
          assert name in schema.Keys <==> name in NamesOf(steps);
        }
      }
    }
  }
}
