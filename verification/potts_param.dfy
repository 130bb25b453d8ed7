/**
 * The sweep parameters of `Potts_Param` (`potts_param.py`): ranges from
 * start/stop/step triples, ranges placed relative to the first value of
 * another parameter, and lists shifted by an offset, computed in a fixed
 * order over the object's attributes.
 *
 * The loaded YAML document is the typed record `ParamFile`; the object's
 * list attributes are a map from attribute name to list. Ranges are
 * integer ranges.
 */
module PottsParam {
  import opened Wrappers
  import opened Text
  import opened Seqs

  /** Why computing a parameter raised. */
  datatype ParamError =
    | ZeroStep      // `np.arange` with step 0: `ZeroDivisionError`
    | NoAttribute   // `getattr` on a name the object does not have: `AttributeError`
    | EmptyBase     // `[0]` of an empty base list: `IndexError`
    | NotNumeric    // a string base plus an integer offset: `TypeError`
    | FloatBase     // a float base: Python computes a float range, which is not modelled

  /** The value of one list attribute. */
  datatype Attr = Ints(ints: seq<int>) | Strs(strs: seq<string>) | Decs(decs: seq<Dec>)

  /** The list attributes of the class. */
  datatype Key =
    | VScan | Hatch | StartingPos | Heading | SpotWidth | MeltTailLength | MeltDepth | CapHeight
    | HazWidth | HazTail | DepthHaz | CapHaz | ExpFactor

  /** The attribute's Python name. */
  function Name(k: Key): string
  {
    match k
    case VScan => "v_scan"
    case Hatch => "hatch"
    case StartingPos => "starting_pos"
    case Heading => "heading"
    case SpotWidth => "spot_width"
    case MeltTailLength => "melt_tail_length"
    case MeltDepth => "melt_depth"
    case CapHeight => "cap_height"
    case HazWidth => "HAZ_width"
    case HazTail => "HAZ_tail"
    case DepthHaz => "depth_HAZ"
    case CapHaz => "cap_HAZ"
    case ExpFactor => "exp_factor"
  }

  /** The attribute `getattr(self, name)` finds among the lists, if any. */
  function AttrNamed(name: string): (r: Option<Key>)
  {
    if name == "v_scan" then Some(VScan)
    else if name == "hatch" then Some(Hatch)
    else if name == "starting_pos" then Some(StartingPos)
    else if name == "heading" then Some(Heading)
    else if name == "spot_width" then Some(SpotWidth)
    else if name == "melt_tail_length" then Some(MeltTailLength)
    else if name == "melt_depth" then Some(MeltDepth)
    else if name == "cap_height" then Some(CapHeight)
    else if name == "HAZ_width" then Some(HazWidth)
    else if name == "HAZ_tail" then Some(HazTail)
    else if name == "depth_HAZ" then Some(DepthHaz)
    else if name == "cap_HAZ" then Some(CapHaz)
    else if name == "exp_factor" then Some(ExpFactor)
    else None
  }

  /** Names and attributes correspond one to one. */
  lemma AttrNamedName(k: Key, name: string)
    ensures AttrNamed(Name(k)) == Some(k)
    ensures AttrNamed(name) == Some(k) ==> Name(k) == name
  {
    NameFound(k);
    if AttrNamed(name).Some? {
      FoundName(name);
    }
  }

  lemma NameFound(k: Key)
    ensures AttrNamed(Name(k)) == Some(k)
  {
    match k
    case VScan =>
    case Hatch =>
    case StartingPos =>
    case Heading =>
    case SpotWidth =>
    case MeltTailLength =>
    case MeltDepth =>
    case CapHeight =>
    case HazWidth =>
    case HazTail =>
    case DepthHaz =>
    case CapHaz =>
    case ExpFactor =>
  }

  lemma FoundName(name: string)
    requires AttrNamed(name).Some?
    ensures Name(AttrNamed(name).value) == name
  {
    if name == "v_scan" {
    } else if name == "hatch" {
    } else if name == "starting_pos" {
    } else if name == "heading" {
    } else if name == "spot_width" {
    } else if name == "melt_tail_length" {
    } else if name == "melt_depth" {
    } else if name == "cap_height" {
    } else if name == "HAZ_width" {
    } else if name == "HAZ_tail" {
    } else if name == "depth_HAZ" {
    } else if name == "cap_HAZ" {
    } else {
    }
  }

  /** The object's list attributes. */
  type State = map<Key, Attr>

  /** `{start, stop, step}` of a directly ranged parameter. */
  datatype RangeSpec = RangeSpec(start: int, stop: int, step: int)

  /**
   * `{base, start_offset, stop_offset, step}` of a parameter ranged from
   * another one's first value; `base` is the attribute the document's base
   * name denotes (`AttrNamed`), `None` when it names no list attribute.
   */
  datatype BasedSpec = BasedSpec(base: Option<Key>, startOffset: int, stopOffset: int, step: int)

  /** The entries of the YAML document the class reads. */
  datatype ParamFile = ParamFile(
    vScan: RangeSpec, hatch: seq<int>, startingPos: seq<string>, heading: seq<string>,
    meltTailLength: RangeSpec, meltDepth: RangeSpec, capHeight: RangeSpec, expFactor: seq<Dec>,
    spotWidth: BasedSpec, hazWidth: BasedSpec,
    hazTailOffset: int, depthHazOffset: int, capHazOffset: int)

  /** Every list attribute of the class. */
  const AllKeys: set<Key> := {VScan, Hatch, StartingPos, Heading, SpotWidth, MeltTailLength, MeltDepth,
                              CapHeight, HazWidth, HazTail, DepthHaz, CapHaz, ExpFactor}

  /** The class has no list attribute beyond these. */
  lemma EveryKey(k: Key)
    ensures k in AllKeys
  {
  }

  /** The attributes assigned after `spot_width` is computed, still empty when it is. */
  const SetAfterSpotWidth: set<Key> := {SpotWidth, HazWidth, HazTail, DepthHaz, CapHaz}

  /** The values `start, start + step, ...` strictly before `stop`, in order. */
  function Steps(start: int, stop: int, step: int): (r: seq<int>)
    requires step != 0
    ensures |r| == 0 <==> (if step > 0 then stop <= start else start <= stop)
    ensures step > 0 ==> forall i :: 0 <= i < |r| ==> r[i] < stop
    ensures step < 0 ==> forall i :: 0 <= i < |r| ==> r[i] > stop
    ensures step > 0 && |r| > 0 ==> r[|r| - 1] + step >= stop
    ensures step < 0 && |r| > 0 ==> r[|r| - 1] + step <= stop
    decreases if step > 0 then stop - start else start - stop
  {
    if (step > 0 && start < stop) || (step < 0 && start > stop) then
      var rest := Steps(start + step, stop, step);
      var r := [start] + rest;
      assert forall i :: 0 < i < |r| ==> r[i] == rest[i - 1];
      assert r[|r| - 1] == if |rest| > 0 then rest[|rest| - 1] else start;
      r
    else []
  }

  /** `np.arange(start, stop, step)` for integers. */
  function Arange(start: int, stop: int, step: int): (r: Result<seq<int>, ParamError>)
    ensures r.Failure? <==> step == 0
    ensures r.Failure? ==> r.error == ZeroStep
    ensures r.Success? ==> r.value == Steps(start, stop, step)
  {
    if step == 0 then Failure(ZeroStep) else Success(Steps(start, stop, step))
  }

  /** Element `i` of a range is `start + i * step`. */
  lemma {:induction false} StepsElements(start: int, stop: int, step: int)
    requires step != 0
    ensures forall i :: 0 <= i < |Steps(start, stop, step)| ==> Steps(start, stop, step)[i] == start + i * step
    decreases if step > 0 then stop - start else start - stop
  {
    var r := Steps(start, stop, step);
    if |r| > 0 {
      StepsElements(start + step, stop, step);
      var rest := Steps(start + step, stop, step);
      assert r == [start] + rest;
      forall i | 0 < i < |r|
        ensures r[i] == start + i * step
      {
        assert r[i] == rest[i - 1] == start + step + (i - 1) * step;
      }
    }
  }

  /** A range has `max(0, ceil((stop - start) / step))` elements, as numpy promises. */
  lemma StepsLength(start: int, stop: int, step: int)
    requires step != 0
    ensures step > 0 ==> |Steps(start, stop, step)| == if start < stop then (stop - start + step - 1) / step else 0
    ensures step < 0 ==> |Steps(start, stop, step)| == if start > stop then (start - stop - step - 1) / -step else 0
  {
    var n := |Steps(start, stop, step)|;
    if n > 0 {
      StepsSpan(start, stop, step);
      if step > 0 {
        CeilCount(n, step, stop - start);
      } else {
        CeilCount(n, -step, start - stop);
      }
    }
  }

  /** The last element lies within one step of `stop`. */
  lemma StepsSpan(start: int, stop: int, step: int)
    requires step != 0 && |Steps(start, stop, step)| > 0
    ensures var n := |Steps(start, stop, step)|;
      step > 0 ==> (n - 1) * step < stop - start <= (n - 1) * step + step
    ensures var n := |Steps(start, stop, step)|;
      step < 0 ==> (n - 1) * -step < start - stop <= (n - 1) * -step - step
  {
    var r := Steps(start, stop, step);
    var n := |r|;
    StepsElements(start, stop, step);
    assert r[n - 1] == start + (n - 1) * step;
    assert (n - 1) * -step == -((n - 1) * step);
  }

  /** `n` is the ceiling of `span / w` when `span` lies in `((n - 1) * w, n * w]`. */
  lemma CeilCount(n: int, w: int, span: int)
    requires w > 0 && (n - 1) * w < span <= (n - 1) * w + w
    ensures (span + w - 1) / w == n
  {
    assert span + w - 1 == n * w + (span - 1 - (n - 1) * w);
    DivModUnique(span + w - 1, w, n, span - 1 - (n - 1) * w);
  }

  /** `_base_value(name)[0]`: the first value of an integer attribute. */
  function BaseValue(s: State, base: Option<Key>): (r: Result<int, ParamError>)
    ensures r.Success? <==> (base.Some? && base.value in s && s[base.value].Ints?
                             && |s[base.value].ints| > 0)
    ensures r.Success? ==> r.value == s[base.value].ints[0]
    ensures base.None? || base.value !in s ==> r == Failure(NoAttribute)
    ensures base.Some? && base.value in s && s[base.value] in {Ints([]), Strs([]), Decs([])}
            ==> r == Failure(EmptyBase)
  {
    if base.None? || base.value !in s then Failure(NoAttribute)
    else
      match s[base.value]
      case Ints(xs) => if |xs| == 0 then Failure(EmptyBase) else Success(xs[0])
      case Strs(xs) => if |xs| == 0 then Failure(EmptyBase) else Failure(NotNumeric)
      case Decs(xs) => if |xs| == 0 then Failure(EmptyBase) else Failure(FloatBase)
  }

  /** `_compute_range(param_dict)`. */
  function ComputeRange(spec: RangeSpec): Result<seq<int>, ParamError>
  {
    Arange(spec.start, spec.stop, spec.step)
  }

  /**
   * `_compute_range_with_base(key)`: the range from `b + start_offset` to
   * `b + stop_offset` with the key's own step, `b` the first value of the
   * base attribute.
   */
  function ComputeRangeWithBase(s: State, spec: BasedSpec): (r: Result<seq<int>, ParamError>)
    ensures BaseValue(s, spec.base).Failure? ==> r == Failure(BaseValue(s, spec.base).error)
    ensures BaseValue(s, spec.base).Success? ==>
              var b := s[spec.base.value].ints[0];
              r == Arange(b + spec.startOffset, b + spec.stopOffset, spec.step)
  {
    var b :- BaseValue(s, spec.base);
    Arange(b + spec.startOffset, b + spec.stopOffset, spec.step)
  }

  /** `_compute_with_offset(base_key, offset)`: every value of the base attribute plus `offset`. */
  function ComputeWithOffset(s: State, baseKey: Key, offset: int): (r: Result<seq<int>, ParamError>)
    ensures baseKey !in s ==> r == Failure(NoAttribute)
    ensures baseKey in s && s[baseKey].Ints? ==> r.Success?
    ensures r.Success? ==> baseKey in s
    ensures r.Success? && s[baseKey].Ints? ==>
              |r.value| == |s[baseKey].ints| && forall i :: 0 <= i < |r.value| ==> r.value[i] == s[baseKey].ints[i] + offset
  {
    if baseKey !in s then Failure(NoAttribute)
    else
      match s[baseKey]
      case Ints(xs) => Success(seq(|xs|, i requires 0 <= i < |xs| => xs[i] + offset))
      case Strs(xs) => if |xs| == 0 then Success([]) else Failure(NotNumeric)
      case Decs(xs) => if |xs| == 0 then Success([]) else Failure(FloatBase)
  }

  /** The attributes as `__init__` sets them before loading: every list empty. */
  function InitialState(): (s: State)
    ensures s.Keys == AllKeys
    ensures forall k :: k in s ==> s[k] in {Ints([]), Strs([]), Decs([])}
  {
    map[VScan := Ints([]), Hatch := Ints([]), StartingPos := Strs([]), Heading := Strs([]),
        SpotWidth := Ints([]), MeltTailLength := Ints([]), MeltDepth := Ints([]), CapHeight := Ints([]),
        HazWidth := Ints([]), HazTail := Ints([]), DepthHaz := Ints([]), CapHaz := Ints([]),
        ExpFactor := Decs([])]
  }

  /** The state once the directly given and directly ranged parameters are in place. */
  function DirectStage(p: ParamFile, s: State): Result<State, ParamError>
  {
    var vScan :- ComputeRange(p.vScan);
    var s1 := s[VScan := Ints(vScan)][Hatch := Ints(p.hatch)][StartingPos := Strs(p.startingPos)][Heading := Strs(p.heading)];
    var meltTail :- ComputeRange(p.meltTailLength);
    var meltDepth :- ComputeRange(p.meltDepth);
    var capHeight :- ComputeRange(p.capHeight);
    Success(s1[MeltTailLength := Ints(meltTail)][MeltDepth := Ints(meltDepth)][CapHeight := Ints(capHeight)]
              [ExpFactor := Decs(p.expFactor)])
  }

  /** The derived parameters, each computed from the state as its predecessors left it. */
  function DerivedStage(p: ParamFile, s: State): Result<State, ParamError>
  {
    var spotWidth :- ComputeRangeWithBase(s, p.spotWidth);
    var s1 := s[SpotWidth := Ints(spotWidth)];
    var hazWidth :- ComputeRangeWithBase(s1, p.hazWidth);
    OffsetStage(p, s1[HazWidth := Ints(hazWidth)])
  }

  /** The attributes shifted from the melt pool sizes. */
  const OffsetKeys: set<Key> := {HazTail, DepthHaz, CapHaz}

  /** `HAZ_tail`, `depth_HAZ` and `cap_HAZ`, in that order. */
  function OffsetStage(p: ParamFile, s: State): Result<State, ParamError>
  {
    var hazTail :- ComputeWithOffset(s, MeltTailLength, p.hazTailOffset);
    var s1 := s[HazTail := Ints(hazTail)];
    var depthHaz :- ComputeWithOffset(s1, MeltDepth, p.depthHazOffset);
    var s2 := s1[DepthHaz := Ints(depthHaz)];
    var capHaz :- ComputeWithOffset(s2, CapHeight, p.capHazOffset);
    Success(s2[CapHaz := Ints(capHaz)])
  }

  /** `Potts_Param(filename)`: the attributes after `load_parameters`, or the exception it raised. */
  function LoadParameters(p: ParamFile): Result<State, ParamError>
  {
    var s :- DirectStage(p, InitialState());
    DerivedStage(p, s)
  }

  /** The attributes `load_parameters` assigns before the derived ones. */
  const DirectKeys: set<Key> := {VScan, Hatch, StartingPos, Heading, MeltTailLength, MeltDepth, CapHeight, ExpFactor}

  /** A range entry of the document as the state holds it. */
  predicate RangeIs(s: State, key: Key, spec: RangeSpec)
  {
    key in s && s[key].Ints? && Arange(spec.start, spec.stop, spec.step) == Success(s[key].ints)
  }

  /** The direct stage sets its eight attributes from the document and leaves every other one alone. */
  lemma DirectStageValues(p: ParamFile, s: State)
    requires DirectStage(p, s).Success?
    ensures var d := DirectStage(p, s).value;
      && d.Keys == s.Keys + DirectKeys
      && (forall k :: k in s && k !in DirectKeys ==> d[k] == s[k])
      && RangeIs(d, VScan, p.vScan) && RangeIs(d, MeltTailLength, p.meltTailLength)
      && RangeIs(d, MeltDepth, p.meltDepth) && RangeIs(d, CapHeight, p.capHeight)
      && d[Hatch] == Ints(p.hatch) && d[StartingPos] == Strs(p.startingPos)
      && d[Heading] == Strs(p.heading) && d[ExpFactor] == Decs(p.expFactor)
  {
  }

  /** `key` holds the range of `spec` placed at the first value of `base`. */
  predicate RangeFrom(s: State, key: Key, base: Key, spec: BasedSpec)
  {
    && key in s && s[key].Ints?
    && base in s && s[base].Ints? && |s[base].ints| > 0
    && var b := s[base].ints[0];
       Arange(b + spec.startOffset, b + spec.stopOffset, spec.step) == Success(s[key].ints)
  }

  /** A range entry of the document as the state holds it, for a derived entry. */
  predicate BasedRangeIs(s: State, key: Key, spec: BasedSpec)
  {
    spec.base.Some? && RangeFrom(s, key, spec.base.value, spec)
  }

  /** An offset entry as the state holds it: the base's values shifted by `offset`. */
  predicate OffsetIs(s: State, key: Key, baseKey: Key, offset: int)
  {
    && key in s && s[key].Ints? && baseKey in s && s[baseKey].Ints?
    && |s[key].ints| == |s[baseKey].ints|
    && forall i :: 0 <= i < |s[key].ints| ==> s[key].ints[i] == s[baseKey].ints[i] + offset
  }

  /**
   * On success every attribute holds what the document prescribes: the
   * copied lists unchanged, the ranges from their triples, the two based
   * ranges from the first value of their bases, and the three offset lists
   * shifted element by element. No other attribute exists.
   */
  lemma LoadParametersValues(p: ParamFile)
    requires LoadParameters(p).Success?
    ensures var s := LoadParameters(p).value;
      && s.Keys == AllKeys
      && s[Hatch] == Ints(p.hatch) && s[StartingPos] == Strs(p.startingPos)
      && s[Heading] == Strs(p.heading) && s[ExpFactor] == Decs(p.expFactor)
      && RangeIs(s, VScan, p.vScan) && RangeIs(s, MeltTailLength, p.meltTailLength)
      && RangeIs(s, MeltDepth, p.meltDepth) && RangeIs(s, CapHeight, p.capHeight)
      && OffsetIs(s, HazTail, MeltTailLength, p.hazTailOffset)
      && OffsetIs(s, DepthHaz, MeltDepth, p.depthHazOffset)
      && OffsetIs(s, CapHaz, CapHeight, p.capHazOffset)
  {
    var d := DirectStage(p, InitialState()).value;
    DirectStageValues(p, InitialState());
    DirectStageShape(p);
    DerivedStageKeeps(p, d);
    DerivedStageOffsets(p, d);
    var s := LoadParameters(p).value;
    forall k: Key
      ensures k in s <==> k in AllKeys
    {
      EveryKey(k);
    }
  }

  /**
   * On success `spot_width` was based on an attribute assigned before it,
   * and `HAZ_width` on one assigned before it, possibly `spot_width`: each
   * is the range placed at its base's first value.
   */
  lemma LoadParametersBases(p: ParamFile)
    requires LoadParameters(p).Success?
    ensures p.spotWidth.base.Some? && p.spotWidth.base.value !in SetAfterSpotWidth
    ensures p.hazWidth.base.Some? && p.hazWidth.base.value !in SetAfterSpotWidth - {SpotWidth}
    ensures var s := LoadParameters(p).value;
      BasedRangeIs(s, SpotWidth, p.spotWidth) && BasedRangeIs(s, HazWidth, p.hazWidth)
  {
    var d := DirectStage(p, InitialState()).value;
    DirectStageShape(p);
    DerivedStageBases(p, d);
    DerivedStageRanges(p, d);
  }

  /** The state the direct stage leaves: every attribute present, the later ones still empty. */
  predicate DirectShape(d: State)
  {
    && (forall k: Key :: k in d)
    && (forall k :: k in SetAfterSpotWidth ==> d[k] == Ints([]))
    && d[MeltTailLength].Ints? && d[MeltDepth].Ints? && d[CapHeight].Ints?
  }

  /** The direct stage run on the initial attributes leaves that state. */
  lemma DirectStageShape(p: ParamFile)
    requires DirectStage(p, InitialState()).Success?
    ensures DirectShape(DirectStage(p, InitialState()).value)
    ensures LoadParameters(p) == DerivedStage(p, DirectStage(p, InitialState()).value)
  {
    var s0 := InitialState();
    var d := DirectStage(p, s0).value;
    DirectStageValues(p, s0);
    assert forall k: Key :: k in d by {
      forall k: Key
        ensures k in d
      {
        EveryKey(k);
      }
    }
    assert forall k :: k in SetAfterSpotWidth ==> d[k] == Ints([]) by {
      InitialEmptyAfterSpotWidth();
    }
  }

  /** Every attribute assigned after `spot_width` starts as the empty list. */
  lemma InitialEmptyAfterSpotWidth()
    ensures forall k :: k in SetAfterSpotWidth ==> k in InitialState() && k !in DirectKeys && InitialState()[k] == Ints([])
  {
  }

  /** The base of `spot_width` is assigned before it, that of `HAZ_width` before it or is `spot_width`. */
  lemma DerivedStageBases(p: ParamFile, d: State)
    requires DirectShape(d) && DerivedStage(p, d).Success?
    ensures p.spotWidth.base.Some? && p.spotWidth.base.value !in SetAfterSpotWidth
    ensures p.hazWidth.base.Some? && p.hazWidth.base.value !in SetAfterSpotWidth - {SpotWidth}
  {
    var spot := ComputeRangeWithBase(d, p.spotWidth).value;
    var s1 := d[SpotWidth := Ints(spot)];
    assert ComputeRangeWithBase(s1, p.hazWidth).Success?;
  }

  /**
   * With integer melt pool sizes the offset stage succeeds, adds its three
   * attributes as shifted copies and leaves every other attribute alone.
   */
  lemma OffsetStageValues(p: ParamFile, s: State)
    requires MeltTailLength in s && MeltDepth in s && CapHeight in s
    requires s[MeltTailLength].Ints? && s[MeltDepth].Ints? && s[CapHeight].Ints?
    ensures OffsetStage(p, s).Success?
    ensures var r := OffsetStage(p, s).value;
      && r.Keys == s.Keys + OffsetKeys
      && (forall k :: k in s && k !in OffsetKeys ==> r[k] == s[k])
      && OffsetIs(r, HazTail, MeltTailLength, p.hazTailOffset)
      && OffsetIs(r, DepthHaz, MeltDepth, p.depthHazOffset)
      && OffsetIs(r, CapHaz, CapHeight, p.capHazOffset)
  {
  }

  /** The state after `spot_width` and `HAZ_width`, before the offsets. */
  function BasedStage(p: ParamFile, d: State): (r: State)
    requires DerivedStage(p, d).Success?
  {
    var s1 := d[SpotWidth := Ints(ComputeRangeWithBase(d, p.spotWidth).value)];
    s1[HazWidth := Ints(ComputeRangeWithBase(s1, p.hazWidth).value)]
  }

  /** The direct and the derived attributes are disjoint. */
  lemma DirectNotDerived(k: Key)
    ensures k in DirectKeys <==> k !in SetAfterSpotWidth
    ensures k in OffsetKeys ==> k in SetAfterSpotWidth
  {
  }

  /** The derived stage adds no attribute and keeps the direct ones. */
  lemma DerivedStageKeeps(p: ParamFile, d: State)
    requires DirectShape(d) && DerivedStage(p, d).Success?
    ensures var s := DerivedStage(p, d).value;
      && (forall k: Key :: k in s)
      && forall k :: k in DirectKeys ==> s[k] == d[k]
  {
    var s1 := d[SpotWidth := Ints(ComputeRangeWithBase(d, p.spotWidth).value)];
    var b := s1[HazWidth := Ints(ComputeRangeWithBase(s1, p.hazWidth).value)];
    assert DerivedStage(p, d) == OffsetStage(p, b) by {
      assert b == BasedStage(p, d);
    }
    OffsetStageValues(p, b);
    var s := OffsetStage(p, b).value;
    forall k | k in DirectKeys
      ensures s[k] == d[k]
    {
      DirectNotDerived(k);
      assert b[k] == d[k];
    }
  }

  /** Assigning a based range to an attribute other than its base places it there. */
  lemma PlaceRange(s: State, key: Key, spec: BasedSpec)
    requires ComputeRangeWithBase(s, spec).Success? && spec.base != Some(key)
    ensures spec.base.Some?
    ensures RangeFrom(s[key := Ints(ComputeRangeWithBase(s, spec).value)], key, spec.base.value, spec)
  {
  }

  /** A placed range survives any change that keeps both the attribute and its base. */
  lemma RangeFromAgree(s: State, r: State, key: Key, base: Key, spec: BasedSpec)
    requires RangeFrom(s, key, base, spec)
    requires key in r && base in r && r[key] == s[key] && r[base] == s[base]
    ensures RangeFrom(r, key, base, spec)
  {
  }

  /** The two based ranges as the derived stage leaves them. */
  lemma DerivedStageRanges(p: ParamFile, d: State)
    requires DirectShape(d) && DerivedStage(p, d).Success?
    ensures var s := DerivedStage(p, d).value;
      BasedRangeIs(s, SpotWidth, p.spotWidth) && BasedRangeIs(s, HazWidth, p.hazWidth)
  {
    DerivedStageBases(p, d);
    var spotBase, hazBase := p.spotWidth.base.value, p.hazWidth.base.value;
    var s1 := d[SpotWidth := Ints(ComputeRangeWithBase(d, p.spotWidth).value)];
    var b := s1[HazWidth := Ints(ComputeRangeWithBase(s1, p.hazWidth).value)];
    assert b == BasedStage(p, d);
    assert DerivedStage(p, d) == OffsetStage(p, b);
    PlaceRange(d, SpotWidth, p.spotWidth);
    RangeFromAgree(s1, b, SpotWidth, spotBase, p.spotWidth);
    PlaceRange(s1, HazWidth, p.hazWidth);
    OffsetStageValues(p, b);
    var s := OffsetStage(p, b).value;
    RangeFromAgree(b, s, SpotWidth, spotBase, p.spotWidth);
    RangeFromAgree(b, s, HazWidth, hazBase, p.hazWidth);
  }

  /** The three offset lists as the derived stage leaves them. */
  lemma DerivedStageOffsets(p: ParamFile, d: State)
    requires DirectShape(d) && DerivedStage(p, d).Success?
    ensures var s := DerivedStage(p, d).value;
      && OffsetIs(s, HazTail, MeltTailLength, p.hazTailOffset)
      && OffsetIs(s, DepthHaz, MeltDepth, p.depthHazOffset)
      && OffsetIs(s, CapHaz, CapHeight, p.capHazOffset)
  {
    var b := BasedStage(p, d);
    assert DerivedStage(p, d) == OffsetStage(p, b);
    OffsetStageValues(p, b);
  }

  /**
   * `spot_width` is computed before every other derived attribute: based
   * on any of them it finds the initial empty list and raises.
   */
  lemma LateBaseFails(p: ParamFile)
    requires DirectStage(p, InitialState()).Success?
    requires p.spotWidth.base.Some? && p.spotWidth.base.value in SetAfterSpotWidth
    ensures LoadParameters(p) == Failure(EmptyBase)
  {
    var d := DirectStage(p, InitialState()).value;
    DirectStageShape(p);
    var k := p.spotWidth.base.value;
    assert d[k] == Ints([]);
    assert BaseValue(d, p.spotWidth.base) == Failure(EmptyBase);
    assert ComputeRangeWithBase(d, p.spotWidth) == Failure(EmptyBase);
  }

  /** `HAZ_width` may be based on `spot_width`, which is computed just before it. */
  lemma HazWidthOnSpotWidth(p: ParamFile)
    requires LoadParameters(p).Success? && p.hazWidth.base == Some(SpotWidth)
    ensures RangeFrom(LoadParameters(p).value, HazWidth, SpotWidth, p.hazWidth)
  {
    LoadParametersBases(p);
  }
}
