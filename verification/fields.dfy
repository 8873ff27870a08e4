/** From a field's configuration to its verdict: what is accepted, what is dispatched, what agrees. */
module Fields {
  import opened Options
  import opened Texts
  import opened Values
  import opened CanonicalForm
  import opened Identity
  import opened Planes
  import opened Divergence
  import opened Lists

  /** `float(v)`: a number, an error the comparison catches, or the overflow it does not. */
  datatype FloatConversion = Number(value: real) | NotANumber | Overflows

  /** The conversions Python supplies, none of which this module looks inside. */
  datatype Python = Python(
    parseInt: string -> Option<int>,
    parseFinite: string -> Option<real>,
    toFloat: Value -> FloatConversion,
    str: Value -> Text,
    lower: Text -> Text,
    strip: Text -> Text,
    collapse: Text -> Text,
    instant: Text -> Option<int>,
    worth: FloatText -> real)

  datatype FieldType = NumericField | StringField | ListField | TimestampField | ObjectField | BooleanField

  datatype FieldConfig = FieldConfig(
    fieldType: FieldType, mode: string, elementComparison: bool, precision: Option<string>, logging: string)

  datatype Precision = Day | Hour | Minute | Second

  datatype Handler =
    | ExactValue | ExactString | Tolerance(within: real)
    | TextExact | TextLower | TextTrim | TextNormalize
    | InOrder | AsMultiset | AsSet
    | TimeText | TimeSemantic(precision: Precision)
    | Ignored | Opaque | ByVersion | ByIdentity | Recurse(depth: int)
    | BooleanExact
    | UnknownMode | UnusableParameter

  // ---------------------------------------------------------------- modes and their parameters

  const TOLERANCE_PREFIX := "tolerance("
  const RECURSE_PREFIX := "recurse("

  predicate StartsWith(s: string, prefix: string) { prefix <= s }
  predicate Closed(s: string) { s != "" && s[|s| - 1] == ')' }

  /** The text between the prefix and the closing parenthesis, when the mode has one. */
  function ParameterText(mode: string, prefix: string): Option<string> {
    if Closed(mode) && |prefix| <= |mode| - 1 then Some(mode[|prefix|..|mode| - 1]) else None
  }

  function ToleranceOf(mode: string, py: Python): Option<real> {
    match ParameterText(mode, TOLERANCE_PREFIX)
    case None => None
    case Some(t) =>
      match py.parseFinite(t)
      case Some(r) => if r < 0.0 then None else Some(r)
      case None => None
  }

  function RecursionDepthOf(mode: string, py: Python): Option<int> {
    match ParameterText(mode, RECURSE_PREFIX)
    case None => None
    case Some(t) =>
      match py.parseInt(t)
      case Some(n) => if n < FULL_RECURSION then None else Some(n)
      case None => None
  }

  predicate ValidPrecision(p: string) { p == "day" || p == "hour" || p == "minute" || p == "second" }

  /** `FieldConfig.__post_init__` raises nothing. */
  predicate Accepts(c: FieldConfig, py: Python) {
    && (c.logging == "debug" || c.logging == "discrepancy" || c.logging == "sampled_audit")
    && c.mode != ""
    && match c.fieldType
       case ListField => (c.mode == "ordered" || c.mode == "unordered_multiset" || c.mode == "set") && c.elementComparison
       case NumericField =>
         && (c.mode == "exact_value" || c.mode == "exact_string" || StartsWith(c.mode, TOLERANCE_PREFIX))
         && (StartsWith(c.mode, TOLERANCE_PREFIX) ==> ToleranceOf(c.mode, py).Some?)
       case StringField => c.mode == "exact" || c.mode == "lowercase" || c.mode == "trim" || c.mode == "normalize"
       case TimestampField =>
         && (c.mode == "string" || c.mode == "semantic_utc" || c.mode == "semantic_resource_tz")
         && (c.mode != "string" ==> c.precision.Some? && ValidPrecision(c.precision.value))
       case ObjectField =>
         && (c.mode == "opaque" || c.mode == "version" || c.mode == "identity" || c.mode == "ignore"
             || StartsWith(c.mode, RECURSE_PREFIX))
         && (StartsWith(c.mode, RECURSE_PREFIX) ==> RecursionDepthOf(c.mode, py).Some?)
       case BooleanField => c.mode == "exact"
  }

  function PrecisionOf(p: Option<string>): Precision {
    match p
    case Some("day") => Day
    case Some("hour") => Hour
    case Some("minute") => Minute
    case _ => Second
  }

  /** The path a comparison takes; it consults the mode alone and never assumes it was validated. */
  function Dispatch(c: FieldConfig, py: Python): Handler {
    match c.fieldType
    case NumericField =>
      if c.mode == "exact_value" then ExactValue
      else if c.mode == "exact_string" then ExactString
      else if StartsWith(c.mode, TOLERANCE_PREFIX) then
        (match ToleranceOf(c.mode, py) case Some(r) => Tolerance(r) case None => UnusableParameter)
      else UnknownMode
    case StringField =>
      if c.mode == "exact" then TextExact
      else if c.mode == "lowercase" then TextLower
      else if c.mode == "trim" then TextTrim
      else if c.mode == "normalize" then TextNormalize
      else UnknownMode
    case ListField =>
      if c.mode == "ordered" then InOrder
      else if c.mode == "unordered_multiset" then AsMultiset
      else if c.mode == "set" then AsSet
      else UnknownMode
    case TimestampField =>
      if c.mode == "string" then TimeText
      else if c.mode == "semantic_utc" || c.mode == "semantic_resource_tz" then TimeSemantic(PrecisionOf(c.precision))
      else UnknownMode
    case ObjectField =>
      if c.mode == "ignore" then Ignored
      else if c.mode == "opaque" then Opaque
      else if c.mode == "version" then ByVersion
      else if c.mode == "identity" then ByIdentity
      else if StartsWith(c.mode, RECURSE_PREFIX) then
        (match RecursionDepthOf(c.mode, py) case Some(n) => Recurse(n) case None => UnusableParameter)
      else UnknownMode
    case BooleanField => if c.mode == "exact" then BooleanExact else UnknownMode
  }

  /** What validation asks for beyond a mode that comparison can run. */
  predicate CompletelyStated(c: FieldConfig) {
    && (c.logging == "debug" || c.logging == "discrepancy" || c.logging == "sampled_audit")
    && (c.fieldType.ListField? ==> c.elementComparison)
    && (c.fieldType.TimestampField? && c.mode != "string" ==>
          c.precision == Some("day") || c.precision == Some("hour") || c.precision == Some("minute") || c.precision == Some("second"))
  }

  /** Validation and dispatch read modes alike: what one accepts the other can run, and conversely. */
  lemma {:induction false} AcceptedModesAreDispatched(c: FieldConfig, py: Python)
    ensures Accepts(c, py) <==> CompletelyStated(c) && !Dispatch(c, py).UnknownMode? && !Dispatch(c, py).UnusableParameter?
    ensures Accepts(c, py) && Dispatch(c, py).Tolerance? ==> Dispatch(c, py).within >= 0.0
    ensures Accepts(c, py) && Dispatch(c, py).Recurse? ==> Dispatch(c, py).depth >= FULL_RECURSION
  {
    assert !StartsWith("", TOLERANCE_PREFIX) && !StartsWith("", RECURSE_PREFIX);
    assert "opaque"[0] == 'o' && "version"[0] == 'v' && "identity"[0] == 'i' && "ignore"[0] == 'i';
    assert RECURSE_PREFIX[0] == 'r' && TOLERANCE_PREFIX[0] == 't';
    assert "exact_value"[0] == 'e' && "exact_string"[0] == 'e';
  }

  // ---------------------------------------------------------------- keyed objects

  /** What one object says about one key; the kind travels beside the spelling, never inside it. */
  datatype KeyStatement = KeyAbsent | KeyNull | Scalar(spelling: Text) | Structured(canonical: string)

  const VERSION_KEY: Text := AsText("version")
  const IDENTITY_KEY: Text := AsText("id")

  function StatementOf(v: Value, key: Text, py: Python): KeyStatement
    requires Encodable(v) && v.Dict?
  {
    match Find(v.entries, key)
    case None => KeyAbsent
    case Some(i) =>
      var stated := FieldOf(v, i);
      if stated == Null then KeyNull
      else if stated.Dict? || stated.List? then Structured(Canonical(stated))
      else Scalar(py.str(stated))
  }

  // ---------------------------------------------------------------- timestamps

  const MICROS_PER_SECOND := 1_000_000

  function Unit(p: Precision): (u: int)
    ensures u > 0
  {
    match p
    case Second => MICROS_PER_SECOND
    case Minute => 60 * MICROS_PER_SECOND
    case Hour => 3600 * MICROS_PER_SECOND
    case Day => 86400 * MICROS_PER_SECOND
  }

  /** A UTC instant in microseconds with everything finer than the precision set to zero. */
  function Truncated(t: int, p: Precision): int { t - t % Unit(p) }

  predicate Finer(p: Precision, q: Precision) { Unit(p) <= Unit(q) }

  lemma {:induction false} SameQuotient(a: int, b: int, u: int)
    requires u > 0 && a - a % u == b - b % u
    ensures a / u == b / u
  {
    assert a == u * (a / u) + a % u && b == u * (b / u) + b % u;
    MultipleIsUnique(u, a / u, b / u);
  }

  lemma {:induction false} MultipleIsUnique(u: int, x: int, y: int)
    requires u > 0 && u * x == u * y
    ensures x == y
  {
    assert u * (x - y) == 0;
  }

  /** Instants that agree at some precision agree at every coarser one. */
  lemma {:induction false} CoarserStillAgrees(a: int, b: int, p: Precision, q: Precision)
    requires Finer(p, q) && Truncated(a, p) == Truncated(b, p)
    ensures Truncated(a, q) == Truncated(b, q)
  {
    var u, w := Unit(p), Unit(q);
    SameQuotient(a, b, u);
    var k := UnitsIn(p, q);
    QuotientOfQuotient(a, u, k);
    QuotientOfQuotient(b, u, k);
    TruncatedIsMultiple(a, q);
    TruncatedIsMultiple(b, q);
  }

  lemma {:induction false} TruncatedIsMultiple(t: int, q: Precision)
    ensures Truncated(t, q) == Unit(q) * (t / Unit(q))
  {}

  /** A coarser unit is a whole number of finer ones. */
  lemma {:induction false} UnitsIn(p: Precision, q: Precision) returns (k: int)
    requires Finer(p, q)
    ensures k > 0 && Unit(q) == Unit(p) * k
  {
    k := match (p, q)
      case (Second, Minute) => 60
      case (Second, Hour) => 3600
      case (Second, Day) => 86400
      case (Minute, Hour) => 60
      case (Minute, Day) => 1440
      case (Hour, Day) => 24
      case _ => 1;
  }

  lemma {:induction false} QuotientOfQuotient(a: int, u: int, k: int)
    requires u > 0 && k > 0
    ensures u * k > 0 && a / (u * k) == a / u / k
  {
    Positive(u, k);
    var b := a / u;
    var q, r, s := b / k, b % k, a % u;
    assert a == u * b + s && b == k * q + r;
    Nested(u, k, b, q, r);
    Bounded(u, k, r, s);
    DivisionIsUnique(a, u * k, q, u * r + s);
  }

  lemma {:induction false} Positive(u: int, k: int)
    requires u > 0 && k > 0
    ensures u * k > 0
  {}

  lemma {:induction false} Nested(u: int, k: int, b: int, q: int, r: int)
    requires b == k * q + r
    ensures u * b == (u * k) * q + u * r
  {
    assert u * (k * q + r) == u * (k * q) + u * r;
    assert u * (k * q) == (u * k) * q;
  }

  lemma {:induction false} Bounded(u: int, k: int, r: int, s: int)
    requires u > 0 && 0 <= r < k && 0 <= s < u
    ensures 0 <= u * r + s < u * k
  {
    assert u * r <= u * (k - 1);
    assert u * (k - 1) == u * k - u;
  }

  lemma {:induction false} DivisionIsUnique(a: int, w: int, q: int, r: int)
    requires w > 0 && a == w * q + r && 0 <= r < w
    ensures a / w == q
  {
    var d := a / w - q;
    assert a == w * (a / w) + a % w;
    assert w * d == r - a % w;
    SmallMultiple(w, d);
  }

  lemma {:induction false} SmallMultiple(w: int, d: int)
    requires w > 0 && -w < w * d < w
    ensures d == 0
  {
    assert d >= 1 ==> w * d >= w * 1;
    assert d <= -1 ==> w * d <= w * -1;
  }

  // ---------------------------------------------------------------- verdicts

  /** Both planes state a value the handler can compare. */
  predicate Comparable(h: Handler, v: Value) {
    match h
    case InOrder => v.List?
    case AsMultiset => v.List?
    case AsSet => v.List?
    case Opaque => v.Dict?
    case ByVersion => v.Dict?
    case ByIdentity => v.Dict?
    case Recurse(_) => v.Dict?
    case BooleanExact => v.Bool?
    case _ => v != Null
  }

  /** A field whose planes state nothing comparable: agreement only on absence, or on null. */
  predicate UnstatedAgrees(d: PlaneValue, c: PlaneValue) {
    (!d.present && !c.present) || (d.present && c.present && d.value == Null && c.value == Null)
  }

  predicate Near(x: real, y: real, within: real) { -within <= x - y <= within }

  /** A comparison of comparable values that raises: no hash for an item, or a number past every float. */
  predicate ValuesRaise(h: Handler, d: Native, c: Native, py: Python)
    requires Comparable(h, d) && Comparable(h, c)
  {
    match h
    case Tolerance(_) => py.toFloat(d).Overflows? || (py.toFloat(d).Number? && py.toFloat(c).Overflows?)
    case AsSet => !AllHashable(NativeItems(d)) || !AllHashable(NativeItems(c))
    case _ => false
  }

  predicate ComparesObjects(h: Handler) { h.Opaque? || h.ByVersion? || h.ByIdentity? || h.Recurse? }

  /** `compare_object`: whole, by one of its keys, or drilled into as far as the depth goes. */
  ghost predicate ObjectsAgree(h: Handler, d: Native, c: Native, py: Python)
    requires ComparesObjects(h) && d.Dict? && c.Dict?
  {
    match h
    case Opaque => Canonical(d) == Canonical(c)
    case ByVersion => StatementOf(d, VERSION_KEY, py) == StatementOf(c, VERSION_KEY, py)
    case ByIdentity => StatementOf(d, IDENTITY_KEY, py) == StatementOf(c, IDENTITY_KEY, py)
    case Recurse(depth) => FirstDivergence(d, c, depth, []) == None
  }

  ghost predicate ValuesAgree(h: Handler, d: Native, c: Native, py: Python)
    requires Comparable(h, d) && Comparable(h, c) && !ValuesRaise(h, d, c, py)
  {
    if ComparesObjects(h) then ObjectsAgree(h, d, c, py)
    else
      match h
      case ExactValue => Canonical(d) == Canonical(c)
      case ExactString => py.str(d) == py.str(c)
      case Tolerance(within) =>
        py.toFloat(d).Number? && py.toFloat(c).Number? && Near(py.toFloat(d).value, py.toFloat(c).value, within)
      case TextExact => py.str(d) == py.str(c)
      case TextLower => py.lower(py.str(d)) == py.lower(py.str(c))
      case TextTrim => py.strip(py.str(d)) == py.strip(py.str(c))
      case TextNormalize => py.collapse(py.lower(py.str(d))) == py.collapse(py.lower(py.str(c)))
      case InOrder => CanonicalForms(NativeItems(d)) == CanonicalForms(NativeItems(c))
      case AsMultiset => multiset(CanonicalForms(NativeItems(d))) == multiset(CanonicalForms(NativeItems(c)))
      case AsSet => SetModeAgrees(NativeItems(d), NativeItems(c), py.worth)
      case TimeText => py.str(d) == py.str(c)
      case TimeSemantic(p) =>
        (match (py.instant(py.str(d)), py.instant(py.str(c)))
         case (Some(x), Some(y)) => Truncated(x, p) == Truncated(y, p)
         case _ => false)
      case BooleanExact => d == c
      case _ => false
  }

  function NativeItems(v: Native): seq<Native>
    requires v.List?
  {
    assert AllStorable(v.items);
    v.items
  }

  type NativePlane = p: PlaneValue | IsNative(p.value) && Wellformed(p) witness Absent

  /** What comparing one field comes to. */
  datatype Comparison = Raises | Decides(agree: bool)

  predicate ReachesHandler(h: Handler, d: NativePlane, c: NativePlane) {
    h != Ignored && d.present && c.present && Comparable(h, d.value) && Comparable(h, c.value)
  }

  /** `compare_field`: ignored fields always agree; otherwise the statement rule, then the handler. */
  ghost function Compared(h: Handler, d: NativePlane, c: NativePlane, py: Python): Comparison {
    if h == Ignored then Decides(true)
    else if !ReachesHandler(h, d, c) then Decides(UnstatedAgrees(d, c))
    else if ValuesRaise(h, d.value, c.value, py) then Raises
    else Decides(ValuesAgree(h, d.value, c.value, py))
  }

  ghost predicate FieldAgrees(h: Handler, d: NativePlane, c: NativePlane, py: Python) {
    Compared(h, d, c, py) == Decides(true)
  }

  ghost predicate HasUnhashable(vs: seq<Native>) { exists i :: 0 <= i < |vs| && HasNestedMapping(vs[i]) }

  lemma {:induction false} SomeUnhashable(vs: seq<Native>)
    ensures !AllHashable(vs) <==> HasUnhashable(vs)
  {
    forall i | 0 <= i < |vs| ensures Hashable(vs[i]) <==> !HasNestedMapping(vs[i]) { UnhashableExactly(vs[i]); }
  }

  /**
   * A comparison raises exactly where `set` meets, on either side, a mapping that holds a list or a mapping,
   * or a tolerance a number that overflows after any earlier conversion succeeded.
   */
  lemma {:induction false} RaisesExactly(h: Handler, d: NativePlane, c: NativePlane, py: Python)
    ensures Compared(h, d, c, py) == Raises <==>
            && ReachesHandler(h, d, c)
            && ((h.AsSet? && (HasUnhashable(NativeItems(d.value)) || HasUnhashable(NativeItems(c.value))))
                || (h.Tolerance? && (py.toFloat(d.value).Overflows? ||
                                     (py.toFloat(c.value).Overflows? && !py.toFloat(d.value).NotANumber?))))
  {
    if ReachesHandler(h, d, c) && h.AsSet? {
      SomeUnhashable(NativeItems(d.value));
      SomeUnhashable(NativeItems(c.value));
    }
  }

  lemma {:induction false} ObjectsAgreePartially(h: Handler, x: Native, y: Native, z: Native, py: Python)
    requires ComparesObjects(h) && x.Dict? && y.Dict? && z.Dict? && ObjectsAgree(h, x, y, py)
    ensures ObjectsAgree(h, y, x, py)
    ensures ObjectsAgree(h, y, z, py) ==> ObjectsAgree(h, x, z, py)
  {
    if h.Recurse? {
      RecurseIsOpaque(x, y, h.depth, []);
      RecurseIsOpaque(y, x, h.depth, []);
      RecurseIsOpaque(y, z, h.depth, []);
      RecurseIsOpaque(x, z, h.depth, []);
    }
  }

  lemma {:induction false} ValuesAgreeIsPartialEquivalence(h: Handler, x: Native, y: Native, z: Native, py: Python)
    requires Comparable(h, x) && Comparable(h, y) && Comparable(h, z)
    requires !ValuesRaise(h, x, y, py) && ValuesAgree(h, x, y, py)
    ensures !ValuesRaise(h, y, x, py) && ValuesAgree(h, y, x, py)
    ensures !h.Tolerance? && !ValuesRaise(h, y, z, py) && ValuesAgree(h, y, z, py) ==>
              !ValuesRaise(h, x, z, py) && ValuesAgree(h, x, z, py)
  {
    if ComparesObjects(h) { ObjectsAgreePartially(h, x, y, z, py); }
  }

  /** Agreement is symmetric in every mode, and transitive in every mode but tolerance. */
  lemma {:induction false} AgreementIsPartialEquivalence(
      h: Handler, x: NativePlane, y: NativePlane, z: NativePlane, py: Python)
    ensures FieldAgrees(h, x, y, py) ==> FieldAgrees(h, y, x, py)
    ensures !h.Tolerance? && FieldAgrees(h, x, y, py) && FieldAgrees(h, y, z, py) ==> FieldAgrees(h, x, z, py)
  {
    if h != Ignored && FieldAgrees(h, x, y, py) && ReachesHandler(h, x, y) {
      ValuesAgreeIsPartialEquivalence(h, x.value, y.value, x.value, py);
      if Comparable(h, z.value) {
        ValuesAgreeIsPartialEquivalence(h, x.value, y.value, z.value, py);
      }
    }
  }

  /** One side is no number at all and the other overflows: the order of the two conversions shows. */
  predicate Lopsided(h: Handler, x: NativePlane, y: NativePlane, py: Python) {
    && h.Tolerance? && ReachesHandler(h, x, y)
    && ((py.toFloat(x.value).NotANumber? && py.toFloat(y.value).Overflows?)
        || (py.toFloat(x.value).Overflows? && py.toFloat(y.value).NotANumber?))
  }

  /** Swapping the planes changes nothing, raising included, but for that one pair of conversions. */
  lemma {:induction false} SymmetricExactlyUnlessLopsided(h: Handler, x: NativePlane, y: NativePlane, py: Python)
    ensures Compared(h, x, y, py) == Compared(h, y, x, py) <==> !Lopsided(h, x, y, py)
  {
    if ReachesHandler(h, x, y) && !ValuesRaise(h, x.value, y.value, py) && !ValuesRaise(h, y.value, x.value, py) {
      AgreementIsPartialEquivalence(h, x, y, x, py);
      AgreementIsPartialEquivalence(h, y, x, y, py);
    }
  }

  /** A zero tolerance is transitive, like the other modes. */
  lemma {:induction false} ZeroToleranceIsTransitive(x: NativePlane, y: NativePlane, z: NativePlane, py: Python)
    requires FieldAgrees(Tolerance(0.0), x, y, py) && FieldAgrees(Tolerance(0.0), y, z, py)
    ensures FieldAgrees(Tolerance(0.0), x, z, py)
  {}

  /** A tolerance is transitive on values worth 0, t and 2t exactly when it is zero. */
  lemma {:induction false} OnlyZeroToleranceIsTransitive(within: real, x: NativePlane, y: NativePlane, z: NativePlane, py: Python)
    requires within >= 0.0
    requires x.present && y.present && z.present && x.value != Null && y.value != Null && z.value != Null
    requires py.toFloat(x.value) == Number(0.0)
    requires py.toFloat(y.value) == Number(within)
    requires py.toFloat(z.value) == Number(within + within)
    ensures FieldAgrees(Tolerance(within), x, y, py) && FieldAgrees(Tolerance(within), y, z, py)
    ensures FieldAgrees(Tolerance(within), x, z, py) <==> within == 0.0
  {}

  /** No plane that states nothing comparable agrees with one that does. */
  lemma {:induction false} OnlyLikeStatementsAgree(h: Handler, d: NativePlane, c: NativePlane, py: Python)
    requires h != Ignored && FieldAgrees(h, d, c, py)
    ensures d.present == c.present
    ensures d.present ==> (d.value == Null <==> c.value == Null)
    ensures d.present && d.value != Null ==> Comparable(h, d.value) && Comparable(h, c.value)
  {}

  lemma {:induction false} CanonicalVerdict(d: Native, d': Native, c: Native, c': Native)
    requires Same(d, d') && Same(c, c')
    ensures Canonical(d) == Canonical(d') && Canonical(c) == Canonical(c')
  {
    CanonicalIsIdentity(d, d');
    CanonicalIsIdentity(c, c');
  }

  lemma {:induction false} RecurseVerdict(depth: int, d: Native, d': Native, c: Native, c': Native)
    requires Same(d, d') && Same(c, c')
    ensures FirstDivergence(d, c, depth, []) == None <==> FirstDivergence(d', c', depth, []) == None
  {
    CanonicalVerdict(d, d', c, c');
    RecurseIsOpaque(d, c, depth, []);
    RecurseIsOpaque(d', c', depth, []);
  }

  lemma {:induction false} StatementVerdict(key: Text, d: Native, d': Native, c: Native, c': Native, py: Python)
    requires d.Dict? && d'.Dict? && c.Dict? && c'.Dict? && Same(d, d') && Same(c, c')
    ensures StatementOf(d, key, py) == StatementOf(c, key, py) <==> StatementOf(d', key, py) == StatementOf(c', key, py)
  {
    SameStatement(d, d', key, py);
    SameStatement(c, c', key, py);
  }

  lemma {:induction false} SameObjectsAgreeAlike(h: Handler, d: Native, d': Native, c: Native, c': Native, py: Python)
    requires ComparesObjects(h) && d.Dict? && d'.Dict? && c.Dict? && c'.Dict? && Same(d, d') && Same(c, c')
    ensures ObjectsAgree(h, d, c, py) <==> ObjectsAgree(h, d', c', py)
  {
    match h
    case Recurse(depth) => RecurseVerdict(depth, d, d', c, c');
    case ByVersion => StatementVerdict(VERSION_KEY, d, d', c, c', py);
    case ByIdentity => StatementVerdict(IDENTITY_KEY, d, d', c, c', py);
    case Opaque => CanonicalVerdict(d, d', c, c');
  }

  lemma {:induction false} ObjectsAreDispatched(h: Handler, d: Native, c: Native, py: Python)
    requires ComparesObjects(h) && d.Dict? && c.Dict?
    ensures !ValuesRaise(h, d, c, py)
    ensures ValuesAgree(h, d, c, py) <==> ObjectsAgree(h, d, c, py)
  {}

  /** Key order changes no verdict about objects, in any mode and at any depth. */
  lemma {:induction false} ObjectVerdictIgnoresKeyOrder(
      h: Handler, d: Native, d': Native, c: Native, c': Native, py: Python)
    requires ComparesObjects(h)
    requires d.Dict? && d'.Dict? && c.Dict? && c'.Dict? && Same(d, d') && Same(c, c')
    ensures !ValuesRaise(h, d, c, py) && !ValuesRaise(h, d', c', py)
    ensures ValuesAgree(h, d, c, py) <==> ValuesAgree(h, d', c', py)
  {
    ObjectsAreDispatched(h, d, c, py);
    ObjectsAreDispatched(h, d', c', py);
    SameObjectsAgreeAlike(h, d, d', c, c', py);
  }

  lemma {:induction false} SameStatement(a: Native, b: Native, key: Text, py: Python)
    requires a.Dict? && b.Dict? && Same(a, b)
    ensures StatementOf(a, key, py) == StatementOf(b, key, py)
  {
    var es, fs := a.entries, b.entries;
    assert EntriesStorable(es) && EntriesStorable(fs);
    match Find(es, key)
    case Some(i) =>
      assert AgreesWithin(es[i], fs);
      var j :| 0 <= j < |fs| && es[i].key == fs[j].key && Same(es[i].value, fs[j].value);
      FindIsUnique(fs, j);
      SameAtoms(es[i].value, fs[j].value);
      CanonicalIsIdentity(FieldOf(a, i), FieldOf(b, j));
    case None =>
      assert Find(fs, key).Some? ==> AgreedBy(es, fs[Find(fs, key).value]);
  }

  /** `exact_value` is the stricter of the two exact numeric modes: it keeps 3 and 3.0 apart too. */
  lemma {:induction false} ExactValueIsStricter(d: Native, c: Native, py: Python)
    requires d != Null && c != Null && !d.List? && !d.Dict? && ValuesAgree(ExactValue, d, c, py)
    ensures d == c && ValuesAgree(ExactString, d, c, py)
  {
    CanonicalIsIdentity(d, c);
  }

  lemma {:induction false} ExactValueSeparatesIntFromFloat(n: int, f: FloatText, py: Python)
    ensures !ValuesAgree(ExactValue, Int(n), Float(f), py)
  {
    DecimalIsNotFloat(n, f);
  }
}
