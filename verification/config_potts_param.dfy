/**
 * The second copy of `Potts_Param` (`config/potts_param.py`). Its helpers
 * are those of `PottsParam`; it differs in how the object is built: no
 * attribute is initialised before loading, the constructor runs
 * `initialize_parameters`, and that calls `init_derived_parameters`, which
 * the class does not define. `load_parameters` assigns the direct
 * attributes in another order and is never called.
 */
module ConfigPottsParam {
  import opened Wrappers
  import opened PottsParam

  /** Why building the object raised. */
  datatype ConstructError =
    | Param(cause: ParamError)   // one of the helpers raised
    | MissingMethod              // `self.init_derived_parameters`: `AttributeError`

  /** `init_direct_parameters()`: `v_scan`, then the three copied lists. */
  function InitDirectParameters(p: ParamFile, s: State): (r: Result<State, ParamError>)
    ensures r.Failure? <==> p.vScan.step == 0
    ensures r.Failure? ==> r.error == ZeroStep
    ensures r.Success? ==>
              && r.value.Keys == s.Keys + {VScan, Hatch, StartingPos, Heading}
              && RangeIs(r.value, VScan, p.vScan)
              && r.value[Hatch] == Ints(p.hatch) && r.value[StartingPos] == Strs(p.startingPos)
              && r.value[Heading] == Strs(p.heading)
              && forall k :: k in s && k !in {VScan, Hatch, StartingPos, Heading} ==> r.value[k] == s[k]
  {
    var vScan :- ComputeRange(p.vScan);
    Success(s[VScan := Ints(vScan)][Hatch := Ints(p.hatch)][StartingPos := Strs(p.startingPos)]
             [Heading := Strs(p.heading)])
  }

  /**
   * `Potts_Param(filename)` as written: the object starts with no list
   * attribute, `init_direct_parameters` runs, and the call of the missing
   * `init_derived_parameters` raises.
   */
  function Construct(p: ParamFile): Result<State, ConstructError>
  {
    match InitDirectParameters(p, map[])
    case Failure(e) => Failure(Param(e))
    case Success(_) => Failure(MissingMethod)
  }

  /** No document yields an object: a zero `v_scan` step raises first, anything else raises at the missing method. */
  lemma ConstructAlwaysFails(p: ParamFile)
    ensures Construct(p).Failure?
    ensures Construct(p).error == if p.vScan.step == 0 then Param(ZeroStep) else MissingMethod
  {
  }

  /** The direct part of `load_parameters()` in this copy: the copied lists first, then the ranges. */
  function ConfigDirectStage(p: ParamFile, s: State): Result<State, ParamError>
  {
    var s1 := s[Hatch := Ints(p.hatch)][StartingPos := Strs(p.startingPos)][Heading := Strs(p.heading)];
    var vScan :- ComputeRange(p.vScan);
    var meltTail :- ComputeRange(p.meltTailLength);
    var meltDepth :- ComputeRange(p.meltDepth);
    var capHeight :- ComputeRange(p.capHeight);
    Success(s1[VScan := Ints(vScan)][MeltTailLength := Ints(meltTail)][MeltDepth := Ints(meltDepth)]
              [CapHeight := Ints(capHeight)][ExpFactor := Decs(p.expFactor)])
  }

  /** `load_parameters()` of this copy, run on the attributes `s`; the derived part is that of `PottsParam`. */
  function LoadParametersConfig(p: ParamFile, s: State): Result<State, ParamError>
  {
    var d :- ConfigDirectStage(p, s);
    DerivedStage(p, d)
  }

  /**
   * The constructor as evidently intended: after `init_direct_parameters`
   * the derived attributes are computed, as `load_parameters` does.
   */
  function ConstructCorrected(p: ParamFile): Result<State, ParamError>
  {
    var s :- InitDirectParameters(p, map[]);
    LoadParametersConfig(p, s)
  }

  /**
   * `a` (attributes pre-initialised) and `b` (attributes created on first
   * assignment) differ only on `e`: there `a` holds an empty list and `b`
   * has no attribute yet.
   */
  predicate Agree(a: State, b: State, e: set<Key>)
  {
    && (forall k :: k in e ==> k in a && a[k] == Ints([]) && k !in b)
    && (forall k :: k !in e ==> (k in a <==> k in b) && (k in a ==> a[k] == b[k]))
  }

  /** Assigning the same value to an attribute in both keeps them in agreement, and it is no longer pending. */
  lemma AgreeUpdate(a: State, b: State, e: set<Key>, k: Key, v: Attr)
    requires Agree(a, b, e)
    ensures Agree(a[k := v], b[k := v], e - {k})
  {
  }

  /** With nothing pending, agreeing attributes are the same. */
  lemma AgreeNothingPending(a: State, b: State)
    requires Agree(a, b, {})
    ensures a == b
  {
    assert a.Keys == b.Keys;
  }

  /**
   * A base read from agreeing attributes: the same value, or a pending
   * attribute that is an empty list on one side and missing on the other.
   */
  lemma BaseValueAgree(a: State, b: State, e: set<Key>, base: Option<Key>)
    requires Agree(a, b, e)
    ensures BaseValue(a, base).Success? <==> BaseValue(b, base).Success?
    ensures BaseValue(a, base) == BaseValue(b, base)
            || (base.Some? && base.value in e && BaseValue(a, base) == Failure(EmptyBase)
                && BaseValue(b, base) == Failure(NoAttribute))
  {
  }

  /** One based range computed from agreeing attributes and assigned to `key` in both. */
  lemma BasedStepAgree(a: State, b: State, e: set<Key>, key: Key, spec: BasedSpec)
    requires Agree(a, b, e)
    ensures ComputeRangeWithBase(a, spec).Success? <==> ComputeRangeWithBase(b, spec).Success?
    ensures ComputeRangeWithBase(a, spec) == ComputeRangeWithBase(b, spec)
            || (ComputeRangeWithBase(a, spec) == Failure(EmptyBase)
                && ComputeRangeWithBase(b, spec) == Failure(NoAttribute))
    ensures ComputeRangeWithBase(a, spec).Success? ==>
              var v := Ints(ComputeRangeWithBase(a, spec).value);
              Agree(a[key := v], b[key := v], e - {key})
  {
    BaseValueAgree(a, b, e, spec.base);
    if ComputeRangeWithBase(a, spec).Success? {
      AgreeUpdate(a, b, e, key, Ints(ComputeRangeWithBase(a, spec).value));
    }
  }

  /** Both derived stages succeed together and then agree, from directly computed attributes that agree. */
  lemma DerivedStageAgree(p: ParamFile, a: State, b: State)
    requires Agree(a, b, SetAfterSpotWidth)
    requires MeltTailLength in a && MeltDepth in a && CapHeight in a
    requires a[MeltTailLength].Ints? && a[MeltDepth].Ints? && a[CapHeight].Ints?
    ensures DerivedStage(p, a).Success? <==> DerivedStage(p, b).Success?
    ensures DerivedStage(p, a).Success? ==> DerivedStage(p, a) == DerivedStage(p, b)
    ensures DerivedStage(p, a).Failure? ==>
              DerivedStage(p, a) == DerivedStage(p, b)
              || (DerivedStage(p, a) == Failure(EmptyBase) && DerivedStage(p, b) == Failure(NoAttribute))
  {
    BasedStepAgree(a, b, SetAfterSpotWidth, SpotWidth, p.spotWidth);
    var spot := ComputeRangeWithBase(a, p.spotWidth);
    if spot.Success? {
      var a1, b1 := a[SpotWidth := Ints(spot.value)], b[SpotWidth := Ints(spot.value)];
      var e1 := SetAfterSpotWidth - {SpotWidth};
      BasedStepAgree(a1, b1, e1, HazWidth, p.hazWidth);
      var haz := ComputeRangeWithBase(a1, p.hazWidth);
      if haz.Success? {
        var a2, b2 := a1[HazWidth := Ints(haz.value)], b1[HazWidth := Ints(haz.value)];
        assert e1 - {HazWidth} == OffsetKeys;
        OffsetStageAgree(p, a2, b2, OffsetKeys);
        assert DerivedStage(p, a) == OffsetStage(p, a2);
        assert DerivedStage(p, b) == OffsetStage(p, b2);
      } else {
        assert DerivedStage(p, a) == Failure(haz.error);
        assert DerivedStage(p, b) == Failure(ComputeRangeWithBase(b1, p.hazWidth).error);
      }
    } else {
      assert DerivedStage(p, a) == Failure(spot.error);
      assert DerivedStage(p, b) == Failure(ComputeRangeWithBase(b, p.spotWidth).error);
    }
  }

  /** The offset stage on agreeing attributes with only the three offset attributes pending. */
  lemma OffsetStageAgree(p: ParamFile, a: State, b: State, e: set<Key>)
    requires Agree(a, b, e) && e == OffsetKeys
    requires MeltTailLength in a && MeltDepth in a && CapHeight in a
    requires a[MeltTailLength].Ints? && a[MeltDepth].Ints? && a[CapHeight].Ints?
    ensures OffsetStage(p, a).Success? && OffsetStage(p, a) == OffsetStage(p, b)
  {
    OffsetStageValues(p, a);
    var a1 := a[HazTail := Ints(ComputeWithOffset(a, MeltTailLength, p.hazTailOffset).value)];
    var b1 := b[HazTail := Ints(ComputeWithOffset(b, MeltTailLength, p.hazTailOffset).value)];
    AgreeUpdate(a, b, e, HazTail, a1[HazTail]);
    var a2 := a1[DepthHaz := Ints(ComputeWithOffset(a1, MeltDepth, p.depthHazOffset).value)];
    var b2 := b1[DepthHaz := Ints(ComputeWithOffset(b1, MeltDepth, p.depthHazOffset).value)];
    AgreeUpdate(a1, b1, e - {HazTail}, DepthHaz, a2[DepthHaz]);
    var a3 := a2[CapHaz := Ints(ComputeWithOffset(a2, CapHeight, p.capHazOffset).value)];
    var b3 := b2[CapHaz := Ints(ComputeWithOffset(b2, CapHeight, p.capHazOffset).value)];
    AgreeUpdate(a2, b2, e - {HazTail, DepthHaz}, CapHaz, a3[CapHaz]);
    assert e - {HazTail, DepthHaz} - {CapHaz} == {};
    AgreeNothingPending(a3, b3);
  }

  /**
   * The direct part of this copy, run on attributes that hold at most the
   * direct ones, fails exactly when that of `PottsParam` does, with the same
   * error, and otherwise agrees with it, the derived attributes pending.
   */
  lemma ConfigDirectStageAgree(p: ParamFile, s: State)
    requires s.Keys <= {VScan, Hatch, StartingPos, Heading}
    ensures ConfigDirectStage(p, s).Success? <==> DirectStage(p, InitialState()).Success?
    ensures ConfigDirectStage(p, s).Failure? ==>
              ConfigDirectStage(p, s) == Failure(ZeroStep) && DirectStage(p, InitialState()) == Failure(ZeroStep)
    ensures ConfigDirectStage(p, s).Success? ==>
              Agree(DirectStage(p, InitialState()).value, ConfigDirectStage(p, s).value, SetAfterSpotWidth)
  {
    ConfigDirectStageOutcome(p, s);
    if DirectStage(p, InitialState()).Success? {
      ConfigDirectStageValuesAgree(p, s);
    }
  }

  /** Both direct stages evaluate the same four ranges, so they fail together and with the same error. */
  lemma ConfigDirectStageOutcome(p: ParamFile, s: State)
    ensures ConfigDirectStage(p, s).Success? <==> DirectStage(p, InitialState()).Success?
    ensures ConfigDirectStage(p, s).Failure? ==>
              ConfigDirectStage(p, s) == Failure(ZeroStep) && DirectStage(p, InitialState()) == Failure(ZeroStep)
  {
  }

  lemma ConfigDirectStageValuesAgree(p: ParamFile, s: State)
    requires s.Keys <= {VScan, Hatch, StartingPos, Heading}
    requires DirectStage(p, InitialState()).Success? && ConfigDirectStage(p, s).Success?
    ensures Agree(DirectStage(p, InitialState()).value, ConfigDirectStage(p, s).value, SetAfterSpotWidth)
  {
    var a := DirectStage(p, InitialState()).value;
    var b := ConfigDirectStage(p, s).value;
    DirectStageValues(p, InitialState());
    ConfigDirectStageValues(p, s);
    InitialEmptyAfterSpotWidth();
    assert forall k :: k in SetAfterSpotWidth ==> a[k] == Ints([]);
    AgreeFromEntries(p, s.Keys, a, b);
  }

  /** `d` holds the document's eight direct entries. */
  predicate HoldsDirect(p: ParamFile, d: State)
  {
    && RangeIs(d, VScan, p.vScan) && RangeIs(d, MeltTailLength, p.meltTailLength)
    && RangeIs(d, MeltDepth, p.meltDepth) && RangeIs(d, CapHeight, p.capHeight)
    && Hatch in d && d[Hatch] == Ints(p.hatch) && StartingPos in d && d[StartingPos] == Strs(p.startingPos)
    && Heading in d && d[Heading] == Strs(p.heading) && ExpFactor in d && d[ExpFactor] == Decs(p.expFactor)
  }

  /**
   * A complete state whose derived attributes are empty agrees with one that
   * holds only the direct entries and some of the constructor's, when both
   * hold the same document's direct entries.
   */
  lemma AgreeFromEntries(p: ParamFile, pre: set<Key>, a: State, b: State)
    requires pre <= {VScan, Hatch, StartingPos, Heading}
    requires a.Keys == AllKeys && b.Keys == pre + DirectKeys
    requires forall k :: k in SetAfterSpotWidth ==> a[k] == Ints([])
    requires HoldsDirect(p, a) && HoldsDirect(p, b)
    ensures Agree(a, b, SetAfterSpotWidth)
  {
    forall k: Key
      ensures k in SetAfterSpotWidth ==> k in a && a[k] == Ints([]) && k !in b
      ensures k !in SetAfterSpotWidth ==> (k in a <==> k in b) && (k in a ==> a[k] == b[k])
    {
      EveryKey(k);
      DirectNotDerived(k);
    }
  }

  /** The eight attributes this copy's direct stage sets, as `PottsParam`'s direct stage sets them. */
  lemma ConfigDirectStageValues(p: ParamFile, s: State)
    requires ConfigDirectStage(p, s).Success?
    ensures var d := ConfigDirectStage(p, s).value;
      && d.Keys == s.Keys + DirectKeys
      && RangeIs(d, VScan, p.vScan) && RangeIs(d, MeltTailLength, p.meltTailLength)
      && RangeIs(d, MeltDepth, p.meltDepth) && RangeIs(d, CapHeight, p.capHeight)
      && d[Hatch] == Ints(p.hatch) && d[StartingPos] == Strs(p.startingPos)
      && d[Heading] == Strs(p.heading) && d[ExpFactor] == Decs(p.expFactor)
  {
  }

  /**
   * The corrected constructor builds the same object as `PottsParam`'s
   * constructor whenever either succeeds. They fail together, with the same
   * error except that a base assigned too late is an empty list there and a
   * missing attribute here.
   */
  lemma ConstructCorrectedMatches(p: ParamFile)
    ensures ConstructCorrected(p).Success? <==> LoadParameters(p).Success?
    ensures ConstructCorrected(p).Success? ==> ConstructCorrected(p) == LoadParameters(p)
    ensures ConstructCorrected(p).Failure? ==>
              ConstructCorrected(p) == LoadParameters(p)
              || (LoadParameters(p) == Failure(EmptyBase) && ConstructCorrected(p) == Failure(NoAttribute))
  {
    if p.vScan.step != 0 {
      var s := InitDirectParameters(p, map[]).value;
      ConfigDirectStageAgree(p, s);
      if DirectStage(p, InitialState()).Success? {
        var a := DirectStage(p, InitialState()).value;
        var b := ConfigDirectStage(p, s).value;
        DirectStageValues(p, InitialState());
        DirectStageShape(p);
        DerivedStageAgree(p, a, b);
        assert ConstructCorrected(p) == DerivedStage(p, b);
      }
    }
  }
}
