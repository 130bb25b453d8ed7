/**
 * Preparing one simulation case from its name (`config_inpotts.py`): the
 * name is parsed back into the sweep values it was built from, an existing
 * case folder is detected by suffix, and the SPPARKS input deck is rewritten
 * line by line from a template.
 *
 * Folder creation and file copying are left to the caller; the template is
 * the text of the file, or `None` when it does not exist. Python's `str` of
 * a float is the parameter `showFloat`.
 */
module ConfigInpotts {
  import opened Wrappers
  import opened Text
  import opened Seqs
  import opened ConfigGenerator

  /** Why `create_config_map(config_str)` raised. */
  datatype NameError =
    | MissingToken   // a `values[k]` past the end: `IndexError`
    | BadNumber      // `int(...)` or `float(...)` on a token that is not a number: `ValueError`

  /**
   * The tuple `create_config_map` returns: scan velocity, hatch spacing,
   * starting corner, heading, and the HAZ list split into its leading
   * integers and its final float.
   */
  datatype Parsed = Parsed(v: Dec, hatch: int, pos: string, heading: string, haz: seq<int>, exp: Dec)

  /** The HAZ list as the deck indexes it (`ATOI`): the integers, then the float. */
  function Atoi(p: Parsed): (r: seq<Scalar>)
    ensures |r| == |p.haz| + 1
    ensures r[|p.haz|] == DecVal(p.exp)
    ensures forall i :: 0 <= i < |p.haz| ==> r[i] == IntVal(p.haz[i])
  {
    IntVals(p.haz) + [DecVal(p.exp)]
  }

  /** `str(n)` of every integer, in order. */
  function ShowInts(ns: seq<int>): (r: seq<string>)
    ensures |r| == |ns| && forall i :: 0 <= i < |ns| ==> r[i] == ShowInt(ns[i])
  {
    seq(|ns|, i requires 0 <= i < |ns| => ShowInt(ns[i]))
  }

  /** `[int(t) for t in tokens]`: `None` as soon as one token is not an integer. */
  function ParseInts(tokens: seq<string>): (r: Option<seq<int>>)
    ensures r.Some? <==> forall i :: 0 <= i < |tokens| ==> IntLiteral(tokens[i])
    ensures r.Some? ==> |r.value| == |tokens|
    ensures r.Some? ==> forall i :: 0 <= i < |tokens| ==> ParseInt(tokens[i]) == Some(r.value[i])
    decreases |tokens|
  {
    if |tokens| == 0 then Some([])
    else
      match ParseInt(tokens[0])
      case None => None
      case Some(n) =>
        match ParseInts(tokens[1..])
        case None => None
        case Some(rest) => Some([n] + rest)
  }

  lemma ParseShowInts(ns: seq<int>)
    ensures ParseInts(ShowInts(ns)) == Some(ns)
  {
    var tokens := ShowInts(ns);
    forall i | 0 <= i < |ns|
      ensures ParseInt(tokens[i]) == Some(ns[i]) && IntLiteral(tokens[i])
    {
      ParseShowInt(ns[i]);
    }
    var r := ParseInts(tokens);
    assert r.Some?;
    assert forall i :: 0 <= i < |ns| ==> Some(r.value[i]) == Some(ns[i]);
    assert r.value == ns;
  }

  /** The tokens after the prefix: `config_str.split("_")[1:]`. */
  function NameValues(s: string): seq<string>
  {
    Split(s, '_')[1..]
  }

  /**
   * `create_config_map(config_str)`, raising where Python raises, in the
   * order the statements run: the velocity from tokens 0 and 1, the hatch
   * from token 2, position and heading from tokens 3 and 4, the HAZ
   * integers from tokens 5 up to the last two, and the final float from
   * the last two.
   */
  function ParseConfigName(s: string): (r: Result<Parsed, NameError>)
    ensures |NameValues(s)| < 5 ==> r.Failure?
    ensures r == Failure(MissingToken) ==> |NameValues(s)| < 5
    ensures r.Failure? && |NameValues(s)| >= 5 ==> r.error == BadNumber
    ensures var values := NameValues(s);
      var n := |values|;
      var hazEnd := if n - 2 < 5 then 5 else n - 2;
      r.Success? <==>
        && n >= 5
        && ParseDec(values[0], values[1]).Some?
        && ParseInt(values[2]).Some?
        && ParseInts(values[5..hazEnd]).Some?
        && ParseDec(values[n - 2], values[n - 1]).Some?
    ensures r.Success? ==>
              var values := NameValues(s);
              var n := |values|;
              var hazEnd := if n - 2 < 5 then 5 else n - 2;
              && ParseDec(values[0], values[1]) == Some(r.value.v)
              && ParseInt(values[2]) == Some(r.value.hatch)
              && r.value.pos == values[3]
              && r.value.heading == values[4]
              && ParseInts(values[5..hazEnd]) == Some(r.value.haz)
              && |r.value.haz| == (if n < 7 then 0 else n - 7)
              && ParseDec(values[n - 2], values[n - 1]) == Some(r.value.exp)
  {
    var values := NameValues(s);
    if |values| < 2 then Failure(MissingToken)
    else
      match ParseDec(values[0], values[1])
      case None => Failure(BadNumber)
      case Some(v) =>
        if |values| < 3 then Failure(MissingToken)
        else
          match ParseInt(values[2])
          case None => Failure(BadNumber)
          case Some(hatch) =>
            if |values| < 5 then Failure(MissingToken)
            else
              var n := |values|;
              var hazEnd := if n - 2 < 5 then 5 else n - 2;
              match ParseInts(values[5..hazEnd])
              case None => Failure(BadNumber)
              case Some(haz) =>
                match ParseDec(values[n - 2], values[n - 1])
                case None => Failure(BadNumber)
                case Some(exp) => Success(Parsed(v, hatch, values[3], values[4], haz, exp))
  }

  /** The configuration tuple the generator builds for these values: `(v, hatch, pos, heading, haz + [exp])`. */
  function CaseConfig(p: Parsed): (c: seq<Item>)
    ensures |c| == 5 && c[4] == ListOf(Atoi(p))
  {
    [Atom(DecVal(p.v)), Atom(IntVal(p.hatch)), Atom(StrVal(p.pos)), Atom(StrVal(p.heading)), ListOf(Atoi(p))]
  }

  /** Values whose texts survive the trip through a name: one `.` per float, no `_` or `.` in the strings. */
  predicate RoundTrips(p: Parsed)
  {
    && ValidDec(p.v) && ValidDec(p.exp)
    && '_' !in p.pos && '.' !in p.pos
    && '_' !in p.heading && '.' !in p.heading
  }

  lemma FlattenCons<T>(a: seq<T>, rest: seq<seq<T>>)
    ensures Flatten([a] + rest) == a + Flatten(rest)
  {
    assert ([a] + rest)[1..] == rest;
  }

  /** The HAZ list contributes each integer's text, then the float's two digit runs. */
  lemma HazTokens(p: Parsed)
    ensures ItemTokens(ListOf(Atoi(p))) == ShowInts(p.haz) + [ShowNat(p.exp.whole), p.exp.frac]
  {
    var xs := Atoi(p);
    var g := seq(|xs|, i requires 0 <= i < |xs| => ScalarTokens(xs[i]));
    var gi := seq(|p.haz|, i requires 0 <= i < |p.haz| => [ShowInt(p.haz[i])]);
    assert ItemTokens(ListOf(xs)) == Flatten(g);
    assert g == gi + [[ShowNat(p.exp.whole), p.exp.frac]];
    FlattenAppend(gi, [[ShowNat(p.exp.whole), p.exp.frac]]);
    FlattenSingletons(gi, ShowInts(p.haz));
    assert Flatten([[ShowNat(p.exp.whole), p.exp.frac]]) == [ShowNat(p.exp.whole), p.exp.frac] + Flatten([]);
  }

  lemma CaseConfigClean(p: Parsed)
    requires RoundTrips(p)
    ensures forall i :: 0 <= i < |CaseConfig(p)| ==> CleanItem(CaseConfig(p)[i])
  {
    var c := CaseConfig(p);
    forall j | 0 <= j < |Atoi(p)|
      ensures CleanScalar(Atoi(p)[j])
    {
    }
    assert CleanItem(c[4]);
  }

  /** Splitting the name of a configuration gives the prefix and then each value's tokens. */
  lemma CaseNameTokens(p: Parsed)
    requires RoundTrips(p)
    ensures NameValues(ConfigName(CaseConfig(p)))
            == [ShowNat(p.v.whole), p.v.frac, ShowInt(p.hatch), p.pos, p.heading]
               + ShowInts(p.haz) + [ShowNat(p.exp.whole), p.exp.frac]
  {
    var c := CaseConfig(p);
    CaseConfigClean(p);
    ConfigNameTokens(c);
    CaseTokens(p);
  }

  /** The tokens of the five elements of a case configuration, in order. */
  lemma CaseTokens(p: Parsed)
    ensures var c := CaseConfig(p);
      Flatten(seq(|c|, i requires 0 <= i < |c| => ItemTokens(c[i])))
        == [ShowNat(p.v.whole), p.v.frac, ShowInt(p.hatch), p.pos, p.heading]
           + ShowInts(p.haz) + [ShowNat(p.exp.whole), p.exp.frac]
  {
    var c := CaseConfig(p);
    CaseGroups(p);
    FlattenFive([ShowNat(p.v.whole), p.v.frac], [ShowInt(p.hatch)], [p.pos], [p.heading], ItemTokens(c[4]));
    HazTokens(p);
  }

  /** The token groups of the five elements of a case configuration. */
  lemma CaseGroups(p: Parsed)
    ensures var c := CaseConfig(p);
      seq(|c|, i requires 0 <= i < |c| => ItemTokens(c[i]))
        == [[ShowNat(p.v.whole), p.v.frac], [ShowInt(p.hatch)], [p.pos], [p.heading], ItemTokens(c[4])]
  {
    var c := CaseConfig(p);
    assert ItemTokens(c[0]) == [ShowNat(p.v.whole), p.v.frac];
    assert ItemTokens(c[1]) == [ShowInt(p.hatch)];
  }

  /** Flattening five groups concatenates them. */
  lemma FlattenFive<T>(a0: seq<T>, a1: seq<T>, a2: seq<T>, a3: seq<T>, a4: seq<T>)
    ensures Flatten([a0, a1, a2, a3, a4]) == a0 + a1 + a2 + a3 + a4
  {
    FlattenCons(a0, [a1, a2, a3, a4]);
    FlattenCons(a1, [a2, a3, a4]);
    FlattenCons(a2, [a3, a4]);
    FlattenCons(a3, [a4]);
    FlattenCons(a4, []);
    assert [a0] + [a1, a2, a3, a4] == [a0, a1, a2, a3, a4];
    assert [a1] + [a2, a3, a4] == [a1, a2, a3, a4];
    assert [a2] + [a3, a4] == [a2, a3, a4];
    assert [a3] + [a4] == [a3, a4];
    assert [a4] + [] == [a4];
  }

  /**
   * Parsing a generated name gives back the values it was built from, for
   * every HAZ list of integers.
   */
  lemma ParseConfigNameRoundTrip(p: Parsed)
    requires RoundTrips(p)
    ensures ParseConfigName(ConfigName(CaseConfig(p))) == Success(p)
  {
    CaseNameTokens(p);
    ParseTokensRoundTrip(ConfigName(CaseConfig(p)), p);
  }

  /** A name whose values are the rendered tokens of `p` parses back into `p`. */
  lemma ParseTokensRoundTrip(s: string, p: Parsed)
    requires RoundTrips(p)
    requires NameValues(s) == [ShowNat(p.v.whole), p.v.frac, ShowInt(p.hatch), p.pos, p.heading]
                              + ShowInts(p.haz) + [ShowNat(p.exp.whole), p.exp.frac]
    ensures ParseConfigName(s) == Success(p)
  {
    var values := NameValues(s);
    var n := |values|;
    assert n == 7 + |p.haz|;
    ParseShowDec(p.v);
    ParseShowInt(p.hatch);
    ParseShowDec(p.exp);
    assert values[5..n - 2] == ShowInts(p.haz);
    ParseShowInts(p.haz);
    assert values[n - 2] == ShowNat(p.exp.whole) && values[n - 1] == p.exp.frac;
  }

  /** The default case of the script parses into its sweep values. */
  lemma DefaultCaseName()
    ensures ParseConfigName(ConfigName(CaseConfig(Parsed(Dec(20, "0"), 20, "LL", "x", [10, 60, 30, 7, 40, 75, 35, 12], Dec(0, "1")))))
            == Success(Parsed(Dec(20, "0"), 20, "LL", "x", [10, 60, 30, 7, 40, 75, 35, 12], Dec(0, "1")))
  {
    ParseConfigNameRoundTrip(Parsed(Dec(20, "0"), 20, "LL", "x", [10, 60, 30, 7, 40, 75, 35, 12], Dec(0, "1")));
  }

  /**
   * `folder_exists(working_dir, config_name)`: true when an immediate
   * subdirectory's name ends with `config_name`. `listing` holds those
   * names as `os.walk` yields them first, or is `None` when the directory
   * does not exist and the walk yields nothing.
   */
  method FolderExists(listing: Option<seq<string>>, configName: string) returns (found: bool)
    ensures found <==> listing.Some? && exists i :: 0 <= i < |listing.value| && EndsWith(listing.value[i], configName)
  {
    found := false;
    if listing.Some? {
      var dirs := listing.value;
      var i := 0;
      while i < |dirs| && !EndsWith(dirs[i], configName)
        invariant 0 <= i <= |dirs|
        invariant forall j :: 0 <= j < i ==> !EndsWith(dirs[j], configName)
      {
        i := i + 1;
      }
      found := i < |dirs|;
    }
  }

  /** The test is on suffixes: a folder named after a longer case counts as this case's folder. */
  lemma SuffixIsNotEquality()
    ensures EndsWith("vHpdV_120_0_20", "vHpdV_20_0_20") == false
    ensures EndsWith("xvHpdV_20_0_20", "vHpdV_20_0_20") && "xvHpdV_20_0_20" != "vHpdV_20_0_20"
  {
    assert "xvHpdV_20_0_20"[1..] == "vHpdV_20_0_20";
  }

  /** The corners `starting_pos` may name. */
  predicate IsCorner(pos: string)
  {
    pos == "LL" || pos == "UL" || pos == "LR" || pos == "UR"
  }

  /** The layer offset: 100 sites along the heading, negative from a lower corner. */
  function LayerOffset(pos: string, heading: string): string
  {
    var lower := pos == "LL" || pos == "LR";
    if heading == "x" then (if lower then "-100.0 0.0" else "100.0 0.0")
    else (if lower then "0.0 -100.0" else "0.0 100.0")
  }

  /** The `LAYER` command for a corner and an offset. */
  function LayerCommand(pos: string, offset: string): string
  {
    "am cartesian_layer 1 start " + pos + " pass_id 1 thickness 25 offset " + offset
  }

  /**
   * The `LAYER` command `amend_spparks_file` selects for a corner and a
   * heading; `None` where the variable is left unbound.
   */
  function Layer(pos: string, heading: string): Option<string>
  {
    if heading == "x" then
      if pos == "LL" then Some(LayerCommand("LL", "-100.0 0.0"))
      else if pos == "UL" then Some(LayerCommand("UL", "100.0 0.0"))
      else if pos == "LR" then Some(LayerCommand("LR", "-100.0 0.0"))
      else if pos == "UR" then Some(LayerCommand("UR", "100.0 0.0"))
      else None
    else if heading == "y" then
      if pos == "LL" then Some(LayerCommand("LL", "0.0 -100.0"))
      else if pos == "UL" then Some(LayerCommand("UL", "0.0 100.0"))
      else if pos == "LR" then Some(LayerCommand("LR", "0.0 -100.0"))
      else if pos == "UR" then Some(LayerCommand("UR", "0.0 100.0"))
      else None
    else None
  }

  /**
   * The layer is defined exactly for the four corners and the two
   * headings, and follows one rule: it starts at the corner and is offset
   * 100 sites along the heading, negatively from a lower corner.
   */
  lemma LayerRule(pos: string, heading: string)
    ensures Layer(pos, heading).Some? <==> (heading == "x" || heading == "y") && IsCorner(pos)
    ensures Layer(pos, heading).Some? ==>
              Layer(pos, heading).value == LayerCommand(pos, LayerOffset(pos, heading))
  {
  }

  /** Why the deck rewrite stopped. */
  datatype DeckError =
    | AtoiMissing    // `ATOI[k]` past the end of the HAZ list: `IndexError`
    | LayerUnbound   // line 94 reached with `LAYER` never assigned: `UnboundLocalError`

  /** `str(x)` of one HAZ entry. */
  function AtoiText(x: Scalar, showFloat: Dec -> string): string
  {
    match x
    case IntVal(i) => ShowInt(i)
    case DecVal(d) => showFloat(d)
    case StrVal(s) => s
  }

  /** The line numbers (counted from 0) whose template text is replaced. */
  predicate Rewritten(num: nat)
  {
    num == 11 || num == 12 || num == 15 || num == 16 || num == 25 || 31 <= num <= 39 || num == 94
  }

  /** What `amend_spparks_file` writes for template line `num`. */
  function DeckLine(num: nat, line: string, caseName: string, p: Parsed, showFloat: Dec -> string)
    : Result<string, DeckError>
  {
    if num <= 10 then Success(line)
    else if num == 11 then Success("variable V_x equal " + showFloat(p.v) + "\n")
    else if num == 12 then Success("variable V_y equal " + showFloat(p.v) + "\n")
    else if num <= 14 then Success(line)
    else if num == 15 then Success("variable HATCH_x equal " + ShowInt(p.hatch) + "\n")
    else if num == 16 then Success("variable HATCH_y equal " + ShowInt(p.hatch) + "\n")
    else if num <= 24 then Success(line)
    else if num == 25 then Success("variable case_name universe " + caseName + "\n")
    else if num <= 30 then Success(line)
    else if num <= 39 then
      var k := num - 30;
      var atoi := Atoi(p);
      if k - 1 < |atoi| then Success("variable ATOI_" + ShowNat(k) + " equal " + AtoiText(atoi[k - 1], showFloat) + "\n")
      else Failure(AtoiMissing)
    else if num <= 93 then Success(line)
    else if num == 94 then
      match Layer(p.pos, p.heading)
      case None => Failure(LayerUnbound)
      case Some(layer) => Success(layer + "\n")
    else Success(line)
  }

  /**
   * Every line outside the rewritten ones is copied as it is; what is
   * written for a rewritten line does not depend on the template's text.
   */
  lemma DeckVerbatim(num: nat, line: string, other: string, caseName: string, p: Parsed, showFloat: Dec -> string)
    ensures !Rewritten(num) ==> DeckLine(num, line, caseName, p, showFloat) == Success(line)
    ensures Rewritten(num) ==> DeckLine(num, line, caseName, p, showFloat) == DeckLine(num, other, caseName, p, showFloat)
  {
  }

  /**
   * For a case named by the generator, the deck sets both scan velocities
   * to the configuration's velocity and both hatch spacings to its hatch
   * spacing, whatever the template holds on those lines.
   */
  lemma DeckVelocityAndHatch(c: Parsed, line: string, showFloat: Dec -> string)
    requires RoundTrips(c)
    ensures var caseName := ConfigName(CaseConfig(c));
      && ParseConfigName(caseName).Success?
      && var p := ParseConfigName(caseName).value;
      && DeckLine(11, line, caseName, p, showFloat) == Success("variable V_x equal " + showFloat(c.v) + "\n")
      && DeckLine(12, line, caseName, p, showFloat) == Success("variable V_y equal " + showFloat(c.v) + "\n")
      && DeckLine(15, line, caseName, p, showFloat) == Success("variable HATCH_x equal " + ShowInt(c.hatch) + "\n")
      && DeckLine(16, line, caseName, p, showFloat) == Success("variable HATCH_y equal " + ShowInt(c.hatch) + "\n")
  {
    ParseConfigNameRoundTrip(c);
  }

  /** Line 25 names the case; line `30 + k` sets `ATOI_k` to the `k`-th HAZ entry, or raises past the list's end. */
  lemma DeckCaseNameAndAtoi(num: nat, line: string, caseName: string, p: Parsed, showFloat: Dec -> string)
    ensures num == 25 ==> DeckLine(num, line, caseName, p, showFloat) == Success("variable case_name universe " + caseName + "\n")
    ensures 31 <= num <= 39 && num - 30 <= |p.haz| + 1 ==>
              DeckLine(num, line, caseName, p, showFloat)
                == Success("variable ATOI_" + [('0' as int + num - 30) as char] + " equal " + AtoiText(Atoi(p)[num - 31], showFloat) + "\n")
    ensures 31 <= num <= 39 && num - 30 > |p.haz| + 1 ==> DeckLine(num, line, caseName, p, showFloat) == Failure(AtoiMissing)
  {
  }

  /** Line 94 is the layer command for the case's corner and heading, and fails when there is none. */
  lemma DeckLayer(line: string, caseName: string, p: Parsed, showFloat: Dec -> string)
    ensures DeckLine(94, line, caseName, p, showFloat).Success? <==> (p.heading == "x" || p.heading == "y") && IsCorner(p.pos)
    ensures DeckLine(94, line, caseName, p, showFloat).Success? ==>
              DeckLine(94, line, caseName, p, showFloat).value
                == LayerCommand(p.pos, LayerOffset(p.pos, p.heading)) + "\n"
  {
    LayerRule(p.pos, p.heading);
  }

  /** With the full HAZ list of eight integers and a float, and a known corner and heading, no line fails. */
  lemma DeckNeverFails(num: nat, line: string, caseName: string, p: Parsed, showFloat: Dec -> string)
    requires |p.haz| >= 8
    requires (p.heading == "x" || p.heading == "y") && IsCorner(p.pos)
    ensures DeckLine(num, line, caseName, p, showFloat).Success?
  {
    LayerRule(p.pos, p.heading);
  }

  /** What `amend_spparks_file` does. */
  datatype DeckOutcome =
    | NameRejected(nameError: NameError)                   // `create_config_map` raised
    | TemplateMissing                                      // `FileNotFoundError` for the template
    | CaseDirMissing                                       // `FileNotFoundError` opening the deck for appending
    | Written(lines: seq<string>, error: Option<DeckError>)  // lines appended, then possibly an exception

  /**
   * `amend_spparks_file(case_name, ...)`: parse the name, check the
   * template exists, open the deck in the case directory (`caseDirExists`
   * says whether that directory is there), then append one rewritten line
   * per template line, stopping at the first line that raises. The lines
   * already appended stay in the file.
   */
  method AmendSpparksFile(caseName: string, template: Option<string>, caseDirExists: bool, showFloat: Dec -> string)
    returns (outcome: DeckOutcome)
    ensures ParseConfigName(caseName).Failure? ==> outcome == NameRejected(ParseConfigName(caseName).error)
    ensures ParseConfigName(caseName).Success? && template.None? ==> outcome == TemplateMissing
    ensures ParseConfigName(caseName).Success? && template.Some? && !caseDirExists ==> outcome == CaseDirMissing
    ensures ParseConfigName(caseName).Success? && template.Some? && caseDirExists ==>
              var p := ParseConfigName(caseName).value;
              var t := Lines(template.value);
              && outcome.Written?
              && |outcome.lines| <= |t|
              && (forall i :: 0 <= i < |outcome.lines| ==> DeckLine(i, t[i], caseName, p, showFloat) == Success(outcome.lines[i]))
              && (outcome.error.None? <==> |outcome.lines| == |t|)
              && (outcome.error.Some? ==>
                    DeckLine(|outcome.lines|, t[|outcome.lines|], caseName, p, showFloat) == Failure(outcome.error.value))
  {
    var parsed := ParseConfigName(caseName);
    if parsed.Failure? {
      return NameRejected(parsed.error);
    }
    if template.None? {
      return TemplateMissing;
    }
    if !caseDirExists {
      return CaseDirMissing;
    }
    var p := parsed.value;
    var t := Lines(template.value);
    var written: seq<string> := [];
    var num := 0;
    while num < |t|
      invariant 0 <= num <= |t| && |written| == num
      invariant forall i :: 0 <= i < num ==> DeckLine(i, t[i], caseName, p, showFloat) == Success(written[i])
    {
      var line := DeckLine(num, t[num], caseName, p, showFloat);
      if line.Failure? {
        return Written(written, Some(line.error));
      }
      written := written + [line.value];
      num := num + 1;
    }
    return Written(written, None);
  }
}
