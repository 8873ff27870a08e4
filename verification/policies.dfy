/** The differ under a comparison policy: what is reported is what the configured comparisons cannot settle. */
module Policies {
  import opened Texts
  import opened Planes
  import Lists
  import opened Fields
  import opened Snapshots
  import opened Matching
  import opened Diffing

  /** The usable field configurations of each kind; a kind or a field may have none. */
  type Policy = map<Text, map<Text, FieldConfig>>

  predicate HasPolicy(policy: Policy, kind: Text, field: Text) { kind in policy && field in policy[kind] }

  /** `_comparison_outcome` */
  ghost function OutcomeUnder(policy: Policy, py: Python, kind: Text, field: Text, d: NativePlane, c: NativePlane): FieldOutcome {
    if !HasPolicy(policy, kind, field) then NoPolicy
    else
      match Compared(Dispatch(policy[kind][field], py), d, c, py)
      case Raises => FieldOutcome.Raises
      case Decides(agree) => if agree then Agrees else Drifted
  }

  ghost predicate Judges(judge: Judge, policy: Policy, py: Python) {
    forall kind, field, d: NativePlane, c: NativePlane {:trigger judge(kind, field, d, c)} ::
      judge(kind, field, d, c) == OutcomeUnder(policy, py, kind, field, d, c)
  }

  ghost predicate NativeSnapshot(s: Snapshot) {
    Admitted(s) && forall field :: Lists.IsNative(s.PlaneValueOf(field).value) && Wellformed(s.PlaneValueOf(field))
  }

  ghost predicate NativePair(p: Pair) { NativeSnapshot(p.declared) && NativeSnapshot(p.discovered) }

  predicate Stated(p: Pair, field: Text) { StatesField(p.declared, field) || StatesField(p.discovered, field) }

  /** What the configured comparison of the pair's field comes to. */
  ghost function ComparedUnder(p: Pair, field: Text, policy: Policy, py: Python): Comparison
    requires NativePair(p) && HasPolicy(policy, p.declared.key.kind, field)
  {
    Compared(Dispatch(policy[p.declared.key.kind][field], py), p.declared.PlaneValueOf(field), p.discovered.PlaneValueOf(field), py)
  }

  /** The differ's report on the pair, if it completes, has this outcome for the field. */
  ghost predicate Reported(p: Pair, field: Text, outcome: FieldOutcome, judge: Judge) {
    && ComparedPair(p, judge).Some?
    && exists fd :: fd in ComparedPair(p, judge).value && fd.field == field && fd.outcome == outcome
  }

  lemma {:induction false} JudgedAs(p: Pair, field: Text, policy: Policy, py: Python, judge: Judge)
    requires NativePair(p) && Judges(judge, policy, py)
    ensures OutcomeOf(p, field, judge) ==
            OutcomeUnder(policy, py, p.declared.key.kind, field, p.declared.PlaneValueOf(field), p.discovered.PlaneValueOf(field))
  {}

  /** The differ raises on the pair exactly when the configured comparison of some stated field does. */
  lemma {:induction false} PairRaisesExactly(p: Pair, policy: Policy, py: Python, judge: Judge)
    requires NativePair(p) && Judges(judge, policy, py)
    ensures ComparedPair(p, judge).Some? <==>
            forall field :: Stated(p, field) && HasPolicy(policy, p.declared.key.kind, field) ==>
                              ComparedUnder(p, field, policy, py).Decides?
  {
    SettledExactly(p, judge);
    forall field
      ensures RaisesOn(p, judge, field) <==>
              Stated(p, field) && HasPolicy(policy, p.declared.key.kind, field) && ComparedUnder(p, field, policy, py).Raises?
    {
      JudgedAs(p, field, policy, py, judge);
    }
  }

  /**
   * Where it does not raise, a stated field is reported as drift exactly when its configured comparison of
   * what the two sides say disagrees, and as undecidable exactly when none is configured.
   */
  lemma {:induction false} ReportsAreWhatPolicyCannotSettle(
      p: Pair, field: Text, d: NativePlane, c: NativePlane, policy: Policy, py: Python, judge: Judge)
    requires NativePair(p) && Judges(judge, policy, py)
    requires Says(p.declared.attributes, field, d) && Says(p.discovered.attributes, field, c) && (d.present || c.present)
    requires ComparedPair(p, judge).Some?
    ensures Reported(p, field, Drifted, judge) <==>
            HasPolicy(policy, p.declared.key.kind, field) &&
            Compared(Dispatch(policy[p.declared.key.kind][field], py), d, c, py) == Decides(false)
    ensures Reported(p, field, NoPolicy, judge) <==> !HasPolicy(policy, p.declared.key.kind, field)
  {
    SaysOneThing(p.declared, field, d);
    SaysOneThing(p.discovered, field, c);
    PlaneValueSays(p.declared, field);
    PlaneValueSays(p.discovered, field);
    OutcomeReported(p, field, policy, py, judge);
  }

  lemma {:induction false} OutcomeReported(p: Pair, field: Text, policy: Policy, py: Python, judge: Judge)
    requires NativePair(p) && Judges(judge, policy, py) && Stated(p, field) && ComparedPair(p, judge).Some?
    ensures Reported(p, field, Drifted, judge) <==>
            HasPolicy(policy, p.declared.key.kind, field) && ComparedUnder(p, field, policy, py) == Decides(false)
    ensures Reported(p, field, NoPolicy, judge) <==> !HasPolicy(policy, p.declared.key.kind, field)
  {
    JudgedAs(p, field, policy, py, judge);
    SettledExactly(p, judge);
    assert !RaisesOn(p, judge, field);
    var fd := DiscrepancyOn(p, field, judge);
    FieldDifferencesCharacterized(p, judge, fd);
    DiffersExactly(p, judge, fd);
    forall e | e in FieldDifferences(p, judge) && e.field == field ensures e == fd {
      FieldDifferencesCharacterized(p, judge, e);
      DiffersExactly(p, judge, e);
    }
  }

  /**
   * A field that one side alone states drifts under every configured mode but `ignore`, even where what it
   * states is null; and no comparison of such a field raises.
   */
  lemma {:induction false} OneSidedFieldDrifts(
      p: Pair, field: Text, d: NativePlane, c: NativePlane, policy: Policy, py: Python, judge: Judge)
    requires NativePair(p) && Judges(judge, policy, py) && HasPolicy(policy, p.declared.key.kind, field)
    requires Says(p.declared.attributes, field, d) && Says(p.discovered.attributes, field, c) && d.present != c.present
    ensures var h := Dispatch(policy[p.declared.key.kind][field], py);
            && Compared(h, d, c, py) == Decides(h == Ignored)
            && !RaisesOn(p, judge, field)
            && (ComparedPair(p, judge).Some? ==> (Reported(p, field, Drifted, judge) <==> h != Ignored))
  {
    SaysOneThing(p.declared, field, d);
    SaysOneThing(p.discovered, field, c);
    JudgedAs(p, field, policy, py, judge);
    if ComparedPair(p, judge).Some? { ReportsAreWhatPolicyCannotSettle(p, field, d, c, policy, py, judge); }
  }

  /** Some stated field converts to no number on one side and overflows on the other. */
  ghost predicate LopsidedPair(p: Pair, policy: Policy, py: Python)
    requires NativePair(p)
  {
    exists field :: Stated(p, field) && HasPolicy(policy, p.declared.key.kind, field) &&
                    Lopsided(Dispatch(policy[p.declared.key.kind][field], py),
                             p.declared.PlaneValueOf(field), p.discovered.PlaneValueOf(field), py)
  }

  /** Which plane is called declared changes neither whether the differ completes nor which fields drift. */
  lemma {:induction false} DriftIsSymmetric(p: Pair, q: Pair, field: Text, policy: Policy, py: Python, judge: Judge)
    requires NativePair(p) && NativePair(q) && Judges(judge, policy, py)
    requires q.declared == p.discovered && q.discovered == p.declared && p.declared.key.kind == p.discovered.key.kind
    requires !LopsidedPair(p, policy, py)
    ensures ComparedPair(p, judge).Some? <==> ComparedPair(q, judge).Some?
    ensures Stated(p, field) ==> (Reported(p, field, Drifted, judge) <==> Reported(q, field, Drifted, judge))
  {
    PairRaisesExactly(p, policy, py, judge);
    PairRaisesExactly(q, policy, py, judge);
    forall f | Stated(p, f) && HasPolicy(policy, p.declared.key.kind, f)
      ensures ComparedUnder(p, f, policy, py) == ComparedUnder(q, f, policy, py)
    {
      SymmetricExactlyUnlessLopsided(Dispatch(policy[p.declared.key.kind][f], py),
                                     p.declared.PlaneValueOf(f), p.discovered.PlaneValueOf(f), py);
    }
    if Stated(p, field) && ComparedPair(p, judge).Some? && ComparedPair(q, judge).Some? {
      OutcomeReported(p, field, policy, py, judge);
      OutcomeReported(q, field, policy, py, judge);
    }
  }

  /** A policy without `set` and `tolerance` fields makes no pair raise. */
  lemma {:induction false} PlainPolicyNeverRaises(p: Pair, policy: Policy, py: Python, judge: Judge)
    requires NativePair(p) && Judges(judge, policy, py)
    requires forall field :: HasPolicy(policy, p.declared.key.kind, field) ==>
                               var h := Dispatch(policy[p.declared.key.kind][field], py); !h.AsSet? && !h.Tolerance?
    ensures ComparedPair(p, judge).Some?
  {
    PairRaisesExactly(p, policy, py, judge);
    forall field | Stated(p, field) && HasPolicy(policy, p.declared.key.kind, field)
      ensures ComparedUnder(p, field, policy, py).Decides?
    {
      RaisesExactly(Dispatch(policy[p.declared.key.kind][field], py),
                    p.declared.PlaneValueOf(field), p.discovered.PlaneValueOf(field), py);
    }
  }
}
