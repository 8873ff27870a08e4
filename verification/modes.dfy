/** What each configured mode means, from the words of a configuration to agreement, in terms of the values alone. */
module Modes {
  import opened Options
  import opened Texts
  import opened Values
  import opened Identity
  import opened Divergence
  import opened Lists
  import opened Fields

  /** The values a field of this type is about. */
  predicate Fits(t: FieldType, v: Value) {
    match t
    case ListField => v.List?
    case ObjectField => v.Dict?
    case BooleanField => v.Bool?
    case _ => v != Null
  }

  /** Two mappings say the same about a key: nothing, null, the same structure, or scalars Python spells alike. */
  ghost predicate AlikeUnder(key: Text, d: Native, c: Native, py: Python)
    requires d.Dict? && c.Dict?
  {
    || ((forall e :: e in d.entries ==> e.key != Name(key)) && (forall e :: e in c.entries ==> e.key != Name(key)))
    || exists e, f :: e in d.entries && f in c.entries && e.key == Name(key) && f.key == Name(key) && AlikeStated(e.value, f.value, py)
  }

  ghost predicate AlikeStated(v: Value, w: Value, py: Python) {
    if v == Null || w == Null then v == w
    else if Structure(v) || Structure(w) then Structure(v) && Structure(w) && Same(v, w)
    else py.str(v) == py.str(w)
  }

  predicate Structure(v: Value) { v.Dict? || v.List? }

  /** The microseconds in what a precision names. */
  function Span(precision: string): int {
    if precision == "day" then 86_400_000_000
    else if precision == "hour" then 3_600_000_000
    else if precision == "minute" then 60_000_000
    else 1_000_000
  }

  /** What agreement means under an accepted configuration, mode by mode. */
  ghost predicate MeansTheSame(c: FieldConfig, d: Native, x: Native, py: Python)
    requires Fits(c.fieldType, d) && Fits(c.fieldType, x)
  {
    match c.fieldType
    case NumericField =>
      if c.mode == "exact_value" then Same(d, x)
      else if c.mode == "exact_string" then py.str(d) == py.str(x)
      else exists t, a, b :: c.mode == "tolerance(" + t + ")" && WithinTolerance(t, a, b, d, x, py)
    case StringField =>
      var s, u := py.str(d), py.str(x);
      if c.mode == "exact" then s == u
      else if c.mode == "lowercase" then py.lower(s) == py.lower(u)
      else if c.mode == "trim" then py.strip(s) == py.strip(u)
      else py.collapse(py.lower(s)) == py.collapse(py.lower(u))
    case ListField =>
      if c.mode == "ordered" then SameItems(d.items, x.items)
      else if c.mode == "unordered_multiset" then
        multiset(CanonicalForms(NativeItems(d))) == multiset(CanonicalForms(NativeItems(x)))
      else SetModeAgrees(NativeItems(d), NativeItems(x), py.worth)
    case TimestampField =>
      if c.mode == "string" then py.str(d) == py.str(x)
      else exists t, u :: py.instant(py.str(d)) == Some(t) && py.instant(py.str(x)) == Some(u) &&
                          c.precision.Some? && t / Span(c.precision.value) == u / Span(c.precision.value)
    case ObjectField =>
      if c.mode == "ignore" then true
      else if c.mode == "version" then AlikeUnder(AsText("version"), d, x, py)
      else if c.mode == "identity" then AlikeUnder(AsText("id"), d, x, py)
      else Same(d, x)
    case BooleanField => d == x
  }

  ghost predicate WithinTolerance(t: string, a: real, b: real, d: Value, x: Value, py: Python) {
    && py.toFloat(d) == Number(a) && py.toFloat(x) == Number(b)
    && py.parseFinite(t).Some? && a - b <= py.parseFinite(t).value && b - a <= py.parseFinite(t).value
  }

  // ---------------------------------------------------------------- each type in turn

  lemma {:induction false} KeyedMeans(key: Text, d: Native, c: Native, py: Python)
    requires d.Dict? && c.Dict?
    ensures StatementOf(d, key, py) == StatementOf(c, key, py) <==> AlikeUnder(key, d, c, py)
  {
    var i, j := Find(d.entries, key), Find(c.entries, key);
    assert EntriesStorable(d.entries) && EntriesStorable(c.entries);
    EntryUnder(d, key);
    EntryUnder(c, key);
    if i.Some? && j.Some? {
      StatedMeans(FieldOf(d, i.value), FieldOf(c, j.value), key, d, c, py);
      assert d.entries[i.value] in d.entries && c.entries[j.value] in c.entries;
    }
  }

  lemma {:induction false} EntryUnder(v: Native, key: Text)
    requires v.Dict?
    ensures Find(v.entries, key) == None <==> forall e :: e in v.entries ==> e.key != Name(key)
    ensures Find(v.entries, key).Some? ==>
              forall e :: e in v.entries && e.key == Name(key) ==> e == v.entries[Find(v.entries, key).value]
  {
    assert EntriesStorable(v.entries);
    var i := Find(v.entries, key);
    if i.Some? {
      assert v.entries[i.value] in v.entries;
      forall e | e in v.entries && e.key == Name(key) ensures e == v.entries[i.value] {
        var n :| 0 <= n < |v.entries| && v.entries[n] == e;
        FindIsUnique(v.entries, n);
      }
    }
  }

  lemma {:induction false} StatedMeans(v: Value, w: Value, key: Text, d: Native, c: Native, py: Python)
    requires Storable(v) && Storable(w) && d.Dict? && c.Dict?
    requires Find(d.entries, key).Some? && d.entries[Find(d.entries, key).value].value == v
    requires Find(c.entries, key).Some? && c.entries[Find(c.entries, key).value].value == w
    ensures StatementOf(d, key, py) == StatementOf(c, key, py) <==> AlikeStated(v, w, py)
  {
    CanonicalIsIdentity(v, w);
  }

  lemma {:induction false} OrderedMeans(xs: seq<Native>, ys: seq<Native>)
    ensures CanonicalForms(xs) == CanonicalForms(ys) <==> SameItems(xs, ys)
  {
    if |xs| == |ys| {
      forall i | 0 <= i < |xs| ensures CanonicalForms(xs)[i] == CanonicalForms(ys)[i] <==> Same(xs[i], ys[i]) {
        CanonicalIsIdentity(xs[i], ys[i]);
      }
      if SameItems(xs, ys) {
        assert forall i :: 0 <= i < |xs| ==> CanonicalForms(xs)[i] == CanonicalForms(ys)[i];
      }
    }
  }

  lemma {:induction false} TruncatedMeans(t: int, u: int, p: Precision)
    ensures Truncated(t, p) == Truncated(u, p) <==> t / Unit(p) == u / Unit(p)
  {
    TruncatedIsMultiple(t, p);
    TruncatedIsMultiple(u, p);
    if Truncated(t, p) == Truncated(u, p) { SameQuotient(t, u, Unit(p)); }
  }

  lemma {:induction false} SpanIsUnit(precision: string)
    requires ValidPrecision(precision)
    ensures Span(precision) == Unit(PrecisionOf(Some(precision)))
  {}

  lemma {:induction false} InstantsMean(p: string, d: Native, x: Native, py: Python)
    requires ValidPrecision(p) && d != Null && x != Null
    ensures ValuesAgree(TimeSemantic(PrecisionOf(Some(p))), d, x, py) <==>
            exists t, u :: py.instant(py.str(d)) == Some(t) && py.instant(py.str(x)) == Some(u) && t / Span(p) == u / Span(p)
  {
    SpanIsUnit(p);
    if py.instant(py.str(d)).Some? && py.instant(py.str(x)).Some? {
      TruncatedMeans(py.instant(py.str(d)).value, py.instant(py.str(x)).value, PrecisionOf(Some(p)));
    }
  }

  /** The parameter of a mode is what stands between its parentheses. */
  lemma {:induction false} ParameterIs(prefix: string, t: string)
    ensures ParameterText(prefix + t + ")", prefix) == Some(t)
    ensures StartsWith(prefix + t + ")", prefix)
  {
    assert (prefix + t + ")")[|prefix|..|prefix| + |t|] == t;
  }

  lemma {:induction false} ParameterSpells(mode: string, prefix: string)
    requires StartsWith(mode, prefix) && ParameterText(mode, prefix).Some?
    ensures mode == prefix + ParameterText(mode, prefix).value + ")"
  {}

  lemma {:induction false} ToleranceMeans(c: FieldConfig, d: Native, x: Native, py: Python)
    requires Accepts(c, py) && c.fieldType == NumericField && StartsWith(c.mode, TOLERANCE_PREFIX) && d != Null && x != Null
    requires Dispatch(c, py).Tolerance? && !ValuesRaise(Dispatch(c, py), d, x, py)
    ensures ValuesAgree(Dispatch(c, py), d, x, py) <==>
            exists t, a, b :: c.mode == "tolerance(" + t + ")" && WithinTolerance(t, a, b, d, x, py)
  {
    var text := ParameterText(c.mode, TOLERANCE_PREFIX).value;
    ParameterSpells(c.mode, TOLERANCE_PREFIX);
    forall t | c.mode == "tolerance(" + t + ")" ensures t == text { ParameterIs(TOLERANCE_PREFIX, t); }
    var within := Dispatch(c, py).within;
    assert py.parseFinite(text) == Some(within);
    if py.toFloat(d).Number? && py.toFloat(x).Number? {
      var a, b := py.toFloat(d).value, py.toFloat(x).value;
      assert Near(a, b, within) <==> WithinTolerance(text, a, b, d, x, py);
    }
  }

  // ---------------------------------------------------------------- every mode

  lemma {:induction false} ToleranceIsDispatched(c: FieldConfig, py: Python)
    requires Accepts(c, py) && c.fieldType == NumericField && c.mode != "exact_value" && c.mode != "exact_string"
    ensures StartsWith(c.mode, TOLERANCE_PREFIX) && Dispatch(c, py).Tolerance?
  {}

  lemma {:induction false} ExactValueMeans(d: Native, x: Native, py: Python)
    requires d != Null && x != Null
    ensures !ValuesRaise(ExactValue, d, x, py)
    ensures ValuesAgree(ExactValue, d, x, py) <==> Same(d, x)
  {
    CanonicalIsIdentity(d, x);
  }

  lemma {:induction false} ExactStringMeans(d: Native, x: Native, py: Python)
    requires d != Null && x != Null
    ensures !ValuesRaise(ExactString, d, x, py)
    ensures ValuesAgree(ExactString, d, x, py) <==> py.str(d) == py.str(x)
  {}

  lemma {:induction false} NumbersMean(c: FieldConfig, d: Native, x: Native, py: Python)
    requires Accepts(c, py) && c.fieldType == NumericField && d != Null && x != Null
    requires !ValuesRaise(Dispatch(c, py), d, x, py)
    ensures ValuesAgree(Dispatch(c, py), d, x, py) <==> MeansTheSame(c, d, x, py)
  {
    if c.mode == "exact_value" {
      ExactValueMeans(d, x, py);
    } else if c.mode == "exact_string" {
      ExactStringMeans(d, x, py);
    } else {
      ToleranceIsDispatched(c, py);
      ToleranceMeans(c, d, x, py);
    }
  }

  lemma {:induction false} TextsMean(c: FieldConfig, d: Native, x: Native, py: Python)
    requires Accepts(c, py) && c.fieldType == StringField && d != Null && x != Null
    ensures !ValuesRaise(Dispatch(c, py), d, x, py)
    ensures ValuesAgree(Dispatch(c, py), d, x, py) <==> MeansTheSame(c, d, x, py)
  {}

  lemma {:induction false} ListsMean(c: FieldConfig, d: Native, x: Native, py: Python)
    requires Accepts(c, py) && c.fieldType == ListField && d.List? && x.List?
    requires !ValuesRaise(Dispatch(c, py), d, x, py)
    ensures ValuesAgree(Dispatch(c, py), d, x, py) <==> MeansTheSame(c, d, x, py)
  {
    if c.mode == "ordered" { OrderedMeans(NativeItems(d), NativeItems(x)); }
  }

  lemma {:induction false} TimesMean(c: FieldConfig, d: Native, x: Native, py: Python)
    requires Accepts(c, py) && c.fieldType == TimestampField && d != Null && x != Null
    ensures !ValuesRaise(Dispatch(c, py), d, x, py)
    ensures ValuesAgree(Dispatch(c, py), d, x, py) <==> MeansTheSame(c, d, x, py)
  {
    if c.mode != "string" { InstantsMean(c.precision.value, d, x, py); }
  }

  lemma {:induction false} ObjectsMean(c: FieldConfig, d: Native, x: Native, py: Python)
    requires Accepts(c, py) && c.fieldType == ObjectField && c.mode != "ignore" && d.Dict? && x.Dict?
    ensures ComparesObjects(Dispatch(c, py))
    ensures ObjectsAgree(Dispatch(c, py), d, x, py) <==> MeansTheSame(c, d, x, py)
  {
    AcceptedModesAreDispatched(c, py);
    if c.mode == "version" {
      KeyedMeans(AsText("version"), d, x, py);
    } else if c.mode == "identity" {
      KeyedMeans(AsText("id"), d, x, py);
    } else {
      CanonicalIsIdentity(d, x);
      if c.mode != "opaque" { RecurseIsOpaque(d, x, Dispatch(c, py).depth, []); }
    }
  }

  /** Which comparisons reach the mode: both planes state a value of the field's type. */
  lemma {:induction false} ReachesExactly(c: FieldConfig, d: NativePlane, x: NativePlane, py: Python)
    requires Accepts(c, py)
    ensures ReachesHandler(Dispatch(c, py), d, x) <==>
            && !(c.fieldType == ObjectField && c.mode == "ignore")
            && d.present && x.present && Fits(c.fieldType, d.value) && Fits(c.fieldType, x.value)
  {
    AcceptedModesAreDispatched(c, py);
  }

  lemma {:induction false} ModeMeans(c: FieldConfig, d: Native, x: Native, py: Python)
    requires Accepts(c, py) && Fits(c.fieldType, d) && Fits(c.fieldType, x) && Dispatch(c, py) != Ignored
    requires Comparable(Dispatch(c, py), d) && Comparable(Dispatch(c, py), x)
    requires !ValuesRaise(Dispatch(c, py), d, x, py)
    ensures ValuesAgree(Dispatch(c, py), d, x, py) <==> MeansTheSame(c, d, x, py)
  {
    match c.fieldType
    case NumericField => NumbersMean(c, d, x, py);
    case StringField => TextsMean(c, d, x, py);
    case ListField => ListsMean(c, d, x, py);
    case TimestampField => TimesMean(c, d, x, py);
    case ObjectField =>
      ObjectsMean(c, d, x, py);
      ObjectsAreDispatched(Dispatch(c, py), d, x, py);
    case BooleanField =>
  }

  /**
   * Under every configuration that is accepted, a comparison that does not raise finds agreement exactly when
   * the mode's own words say so of the two values; where a side states no value of the field's type, exactly
   * when neither states anything or both state null; and always where the mode is `ignore`.
   */
  lemma {:induction false} AcceptedModesMean(c: FieldConfig, d: NativePlane, x: NativePlane, py: Python)
    requires Accepts(c, py) && !Compared(Dispatch(c, py), d, x, py).Raises?
    ensures FieldAgrees(Dispatch(c, py), d, x, py) <==>
            if c.fieldType == ObjectField && c.mode == "ignore" then true
            else if d.present && x.present && Fits(c.fieldType, d.value) && Fits(c.fieldType, x.value)
            then MeansTheSame(c, d.value, x.value, py)
            else (!d.present && !x.present) || (d.present && x.present && d.value == Null && x.value == Null)
  {
    AcceptedModesAreDispatched(c, py);
    ReachesExactly(c, d, x, py);
    if ReachesHandler(Dispatch(c, py), d, x) { ModeMeans(c, d.value, x.value, py); }
  }

  /** A mode validation would refuse agrees on no two values: nothing is found equal by accident. */
  lemma {:induction false} RefusedModesNeverAgree(c: FieldConfig, d: NativePlane, x: NativePlane, py: Python)
    requires Dispatch(c, py).UnknownMode? || Dispatch(c, py).UnusableParameter?
    ensures FieldAgrees(Dispatch(c, py), d, x, py) <==>
            (!d.present && !x.present) || (d.present && x.present && d.value == Null && x.value == Null)
  {}
}
