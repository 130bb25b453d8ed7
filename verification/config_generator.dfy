/**
 * The parameter sweep of `config/config_file_generator.py`: every
 * combination of the sweep lists becomes one configuration, each
 * configuration one underscore-separated name, and the names are written,
 * one tab-terminated line each, into one file or split over several.
 *
 * Floats are `Dec` tokens; the `x 100` of `_trans_coord` is not modelled, so
 * scan velocities enter already scaled.
 */
module ConfigGenerator {
  import opened Wrappers
  import opened Text
  import opened Seqs

  /** The prefix of every configuration name. */
  const NamePrefix: string := "vHpdV"

  /** One value of a sweep list. */
  datatype Scalar = IntVal(i: int) | DecVal(d: Dec) | StrVal(s: string)

  /** One position of a configuration tuple: a single value, or a HAZ parameter list. */
  datatype Item = Atom(x: Scalar) | ListOf(xs: seq<Scalar>)

  /** Python's `str(x)`. */
  function ShowScalar(x: Scalar): string
  {
    match x
    case IntVal(i) => ShowInt(i)
    case DecVal(d) => ShowDec(d)
    case StrVal(s) => s
  }

  /** `str(x).replace(".", "_")`. */
  function ScalarText(x: Scalar): string
  {
    ReplaceChar(ShowScalar(x), '.', '_')
  }

  /** One element of a configuration name: a value's text, or a list's texts joined by `_`. */
  function ElementText(item: Item): string
  {
    match item
    case Atom(x) => ScalarText(x)
    case ListOf(xs) => Join(seq(|xs|, i requires 0 <= i < |xs| => ScalarText(xs[i])), '_')
  }

  /** `_create_config_name` for one configuration: `vHpdV_` and the elements joined by `_`. */
  function ConfigName(config: seq<Item>): string
  {
    NamePrefix + "_" + Join(seq(|config|, i requires 0 <= i < |config| => ElementText(config[i])), '_')
  }

  /** `_create_config_name(config_map)`: one name per configuration, in order. */
  function ConfigNames(configs: seq<seq<Item>>): (names: seq<string>)
    ensures |names| == |configs|
    ensures forall i :: 0 <= i < |configs| ==> names[i] == ConfigName(configs[i])
  {
    seq(|configs|, i requires 0 <= i < |configs| => ConfigName(configs[i]))
  }

  function Atoms(xs: seq<Scalar>): (r: seq<Item>)
    ensures |r| == |xs| && forall i :: 0 <= i < |xs| ==> r[i] == Atom(xs[i])
  {
    seq(|xs|, i requires 0 <= i < |xs| => Atom(xs[i]))
  }

  function IntVals(ns: seq<int>): (r: seq<Scalar>)
    ensures |r| == |ns| && forall i :: 0 <= i < |ns| ==> r[i] == IntVal(ns[i])
  {
    seq(|ns|, i requires 0 <= i < |ns| => IntVal(ns[i]))
  }

  function DecVals(ds: seq<Dec>): (r: seq<Scalar>)
    ensures |r| == |ds| && forall i :: 0 <= i < |ds| ==> r[i] == DecVal(ds[i])
  {
    seq(|ds|, i requires 0 <= i < |ds| => DecVal(ds[i]))
  }

  function StrVals(ss: seq<string>): (r: seq<Scalar>)
    ensures |r| == |ss| && forall i :: 0 <= i < |ss| ==> r[i] == StrVal(ss[i])
  {
    seq(|ss|, i requires 0 <= i < |ss| => StrVal(ss[i]))
  }

  function Lists(ls: seq<seq<Scalar>>): (r: seq<Item>)
    ensures |r| == |ls| && forall i :: 0 <= i < |ls| ==> r[i] == ListOf(ls[i])
  {
    seq(|ls|, i requires 0 <= i < |ls| => ListOf(ls[i]))
  }

  /** A configuration map and its names, as `create_config_map` returns them. */
  datatype ConfigMap = ConfigMap(configs: seq<seq<Item>>, names: seq<string>)

  /** The five sweep lists, in the order the product runs over them. */
  function SweepLists(vMcs: seq<Dec>, hatch: seq<int>, startingPos: seq<string>, heading: seq<string>,
                      vLaser: seq<seq<Scalar>>): seq<seq<Item>>
  {
    [Atoms(DecVals(vMcs)), Atoms(IntVals(hatch)), Atoms(StrVals(startingPos)), Atoms(StrVals(heading)), Lists(vLaser)]
  }

  /** `create_config_map`: the product of the sweep lists, and the name of every configuration. */
  function CreateConfigMap(vMcs: seq<Dec>, hatch: seq<int>, startingPos: seq<string>, heading: seq<string>,
                           vLaser: seq<seq<Scalar>>): (r: ConfigMap)
    ensures |r.names| == |r.configs|
    ensures forall i :: 0 <= i < |r.configs| ==> r.names[i] == ConfigName(r.configs[i])
  {
    var configs := Product(SweepLists(vMcs, hatch, startingPos, heading, vLaser));
    ConfigMap(configs, ConfigNames(configs))
  }

  /** The map holds one configuration per combination of the five lists. */
  lemma ConfigMapSize(vMcs: seq<Dec>, hatch: seq<int>, startingPos: seq<string>, heading: seq<string>,
                      vLaser: seq<seq<Scalar>>)
    ensures |CreateConfigMap(vMcs, hatch, startingPos, heading, vLaser).configs|
         == |vMcs| * (|hatch| * (|startingPos| * (|heading| * |vLaser|)))
  {
    var ls := SweepLists(vMcs, hatch, startingPos, heading, vLaser);
    ProductLength(ls);
    var lens := Lengths(ls);
    assert lens == [|vMcs|, |hatch|, |startingPos|, |heading|, |vLaser|];
    assert Prod(lens[4..]) == |vLaser| by { assert lens[4..][1..] == []; }
    assert Prod(lens[3..]) == |heading| * |vLaser| by { assert lens[3..][1..] == lens[4..]; }
    assert Prod(lens[2..]) == |startingPos| * (|heading| * |vLaser|) by { assert lens[2..][1..] == lens[3..]; }
    assert Prod(lens[1..]) == |hatch| * (|startingPos| * (|heading| * |vLaser|)) by { assert lens[1..][1..] == lens[2..]; }
  }

  /** A configuration is in the map exactly when it takes one value from each list, in list order. */
  lemma ConfigMapMember(vMcs: seq<Dec>, hatch: seq<int>, startingPos: seq<string>, heading: seq<string>,
                        vLaser: seq<seq<Scalar>>, c: seq<Item>)
    ensures c in CreateConfigMap(vMcs, hatch, startingPos, heading, vLaser).configs
        <==> |c| == 5
             && c[0].Atom? && c[0].x.DecVal? && c[0].x.d in vMcs
             && c[1].Atom? && c[1].x.IntVal? && c[1].x.i in hatch
             && c[2].Atom? && c[2].x.StrVal? && c[2].x.s in startingPos
             && c[3].Atom? && c[3].x.StrVal? && c[3].x.s in heading
             && c[4].ListOf? && c[4].xs in vLaser
  {
    var ls := SweepLists(vMcs, hatch, startingPos, heading, vLaser);
    ProductMember(ls, c);
    if |c| == 5 {
      AtomsMember(DecVals(vMcs), c[0]);
      if c[0].Atom? { DecValsMember(vMcs, c[0].x); }
      AtomsMember(IntVals(hatch), c[1]);
      if c[1].Atom? { IntValsMember(hatch, c[1].x); }
      AtomsMember(StrVals(startingPos), c[2]);
      if c[2].Atom? { StrValsMember(startingPos, c[2].x); }
      AtomsMember(StrVals(heading), c[3]);
      if c[3].Atom? { StrValsMember(heading, c[3].x); }
      ListsMember(vLaser, c[4]);
    }
  }

  lemma AtomsMember(xs: seq<Scalar>, it: Item)
    ensures it in Atoms(xs) <==> it.Atom? && it.x in xs
  {
    if it.Atom? && it.x in xs {
      var k :| 0 <= k < |xs| && xs[k] == it.x;
      assert Atoms(xs)[k] == it;
    }
  }

  lemma DecValsMember(ds: seq<Dec>, x: Scalar)
    ensures x in DecVals(ds) <==> x.DecVal? && x.d in ds
  {
    if x.DecVal? && x.d in ds {
      var k :| 0 <= k < |ds| && ds[k] == x.d;
      assert DecVals(ds)[k] == x;
    }
  }

  lemma IntValsMember(ns: seq<int>, x: Scalar)
    ensures x in IntVals(ns) <==> x.IntVal? && x.i in ns
  {
    if x.IntVal? && x.i in ns {
      var k :| 0 <= k < |ns| && ns[k] == x.i;
      assert IntVals(ns)[k] == x;
    }
  }

  lemma StrValsMember(ss: seq<string>, x: Scalar)
    ensures x in StrVals(ss) <==> x.StrVal? && x.s in ss
  {
    if x.StrVal? && x.s in ss {
      var k :| 0 <= k < |ss| && ss[k] == x.s;
      assert StrVals(ss)[k] == x;
    }
  }

  lemma ListsMember(ls: seq<seq<Scalar>>, it: Item)
    ensures it in Lists(ls) <==> it.ListOf? && it.xs in ls
  {
    if it.ListOf? && it.xs in ls {
      var k :| 0 <= k < |ls| && ls[k] == it.xs;
      assert Lists(ls)[k] == it;
    }
  }

  /** `a < b` between two integers of a combination. */
  predicate IntLess(a: Scalar, b: Scalar)
  {
    a.IntVal? && b.IntVal? && a.i < b.i
  }

  /**
   * `_valid_combination`: each HAZ dimension exceeds its melt-pool
   * counterpart (spot width, tail length, depth, cap height).
   */
  predicate ValidCombination(c: seq<Scalar>)
  {
    |c| >= 8 && IntLess(c[0], c[4]) && IntLess(c[1], c[5]) && IntLess(c[2], c[6]) && IntLess(c[3], c[7])
  }

  /**
   * The nine HAZ sweep lists in the order `create_HAZ_permutations` takes
   * them: spot width, melt tail length, melt depth, cap height, HAZ width,
   * HAZ tail, depth HAZ, cap HAZ, expansion factor.
   */
  function HazLists(spotWidth: seq<int>, meltTailLength: seq<int>, meltDepth: seq<int>, capHeight: seq<int>,
                    hazWidth: seq<int>, hazTail: seq<int>, depthHaz: seq<int>, capHaz: seq<int>,
                    expFactor: seq<Dec>): (r: seq<seq<Scalar>>)
    ensures |r| == 9
  {
    [IntVals(spotWidth), IntVals(meltTailLength), IntVals(meltDepth), IntVals(capHeight),
     IntVals(hazWidth), IntVals(hazTail), IntVals(depthHaz), IntVals(capHaz), DecVals(expFactor)]
  }

  /** `create_HAZ_permutations`: the valid combinations of the HAZ lists, in product order. */
  function CreateHazPermutations(hazLists: seq<seq<Scalar>>): (r: seq<seq<Scalar>>)
    ensures |r| <= |Product(hazLists)|
  {
    Filter(ValidCombination, Product(hazLists))
  }

  /** A combination is kept exactly when it is in the product and passes all four strict inequalities. */
  lemma HazPermutationsMember(hazLists: seq<seq<Scalar>>, c: seq<Scalar>)
    ensures c in CreateHazPermutations(hazLists)
        <==> |c| == |hazLists| && (forall j :: 0 <= j < |hazLists| ==> c[j] in hazLists[j]) && ValidCombination(c)
  {
    FilterMember(ValidCombination, Product(hazLists), c);
    ProductMember(hazLists, c);
  }

  /** On the nine lists, validity is the four integer comparisons of the source. */
  lemma HazPermutationsOfLists(spotWidth: seq<int>, meltTailLength: seq<int>, meltDepth: seq<int>,
                               capHeight: seq<int>, hazWidth: seq<int>, hazTail: seq<int>, depthHaz: seq<int>,
                               capHaz: seq<int>, expFactor: seq<Dec>, c: seq<Scalar>)
    requires c in CreateHazPermutations(HazLists(spotWidth, meltTailLength, meltDepth, capHeight, hazWidth,
                                                 hazTail, depthHaz, capHaz, expFactor))
    ensures |c| == 9 && (forall j :: 0 <= j < 8 ==> c[j].IntVal?) && c[8].DecVal?
    ensures c[0].i < c[4].i && c[1].i < c[5].i && c[2].i < c[6].i && c[3].i < c[7].i
    ensures c[0].i in spotWidth && c[1].i in meltTailLength && c[2].i in meltDepth && c[3].i in capHeight
    ensures c[4].i in hazWidth && c[5].i in hazTail && c[6].i in depthHaz && c[7].i in capHaz
    ensures c[8].d in expFactor
  {
    var ls := HazLists(spotWidth, meltTailLength, meltDepth, capHeight, hazWidth, hazTail, depthHaz, capHaz, expFactor);
    HazPermutationsMember(ls, c);
    forall j | 0 <= j < 8
      ensures c[j].IntVal?
    {
      assert c[j] in ls[j];
    }
    assert c[8] in ls[8];
    assert c[0] in ls[0] && c[1] in ls[1] && c[2] in ls[2] && c[3] in ls[3];
    assert c[4] in ls[4] && c[5] in ls[5] && c[6] in ls[6] && c[7] in ls[7];
    var k0 :| 0 <= k0 < |spotWidth| && ls[0][k0] == c[0];
    var k1 :| 0 <= k1 < |meltTailLength| && ls[1][k1] == c[1];
    var k2 :| 0 <= k2 < |meltDepth| && ls[2][k2] == c[2];
    var k3 :| 0 <= k3 < |capHeight| && ls[3][k3] == c[3];
    var k4 :| 0 <= k4 < |hazWidth| && ls[4][k4] == c[4];
    var k5 :| 0 <= k5 < |hazTail| && ls[5][k5] == c[5];
    var k6 :| 0 <= k6 < |depthHaz| && ls[6][k6] == c[6];
    var k7 :| 0 <= k7 < |capHaz| && ls[7][k7] == c[7];
    var k8 :| 0 <= k8 < |expFactor| && ls[8][k8] == c[8];
  }

  /** The `_`-free tokens a value contributes to a name. */
  function ScalarTokens(x: Scalar): seq<string>
  {
    match x
    case IntVal(i) => [ShowInt(i)]
    case DecVal(d) => [ShowNat(d.whole), d.frac]
    case StrVal(s) => [s]
  }

  /** A value whose text holds no `_` and no `.` besides a float's own point. */
  predicate CleanScalar(x: Scalar)
  {
    match x
    case IntVal(_) => true
    case DecVal(d) => ValidDec(d)
    case StrVal(s) => '.' !in s && '_' !in s
  }

  predicate CleanItem(item: Item)
  {
    match item
    case Atom(x) => CleanScalar(x)
    case ListOf(xs) => forall i :: 0 <= i < |xs| ==> CleanScalar(xs[i])
  }

  /** The `_`-free tokens an element contributes to a name. */
  function ItemTokens(item: Item): seq<string>
  {
    match item
    case Atom(x) => ScalarTokens(x)
    case ListOf(xs) =>
      if |xs| == 0 then [""] else Flatten(seq(|xs|, i requires 0 <= i < |xs| => ScalarTokens(xs[i])))
  }

  predicate NoUnderscore(tokens: seq<string>)
  {
    forall i :: 0 <= i < |tokens| ==> '_' !in tokens[i]
  }

  lemma DigitsHaveNoMarks(s: string)
    requires AllDigits(s)
    ensures '_' !in s && '.' !in s
  {
    assert forall i :: 0 <= i < |s| ==> IsDigit(s[i]);
  }

  lemma ReplaceAbsent(s: string, a: char, b: char)
    requires a !in s
    ensures ReplaceChar(s, a, b) == s
  {
    var r := ReplaceChar(s, a, b);
    assert forall i :: 0 <= i < |s| ==> r[i] == s[i];
  }

  lemma ShowIntHasNoMarks(i: int)
    ensures '_' !in ShowInt(i) && '.' !in ShowInt(i)
  {
    if i < 0 {
      DigitsHaveNoMarks(ShowNat(-i));
      assert ShowInt(i) == "-" + ShowNat(-i);
    } else {
      DigitsHaveNoMarks(ShowNat(i));
    }
  }

  lemma ScalarTextTokens(x: Scalar)
    requires CleanScalar(x)
    ensures ScalarText(x) == Join(ScalarTokens(x), '_')
    ensures |ScalarTokens(x)| > 0 && NoUnderscore(ScalarTokens(x))
  {
    match x
    case IntVal(i) =>
      ShowIntHasNoMarks(i);
      ReplaceAbsent(ShowInt(i), '.', '_');
    case StrVal(s) =>
      ReplaceAbsent(s, '.', '_');
    case DecVal(d) =>
      var w := ShowNat(d.whole);
      DigitsHaveNoMarks(w);
      DigitsHaveNoMarks(d.frac);
      var shown := w + "." + d.frac;
      var r := ReplaceChar(shown, '.', '_');
      assert r == w + "_" + d.frac by {
        forall i | 0 <= i < |r|
          ensures r[i] == (w + "_" + d.frac)[i]
        {
          if i < |w| {
            assert shown[i] == w[i];
          } else if i > |w| {
            assert shown[i] == d.frac[i - |w| - 1];
          }
        }
      }
      assert Join([w, d.frac], '_') == w + "_" + d.frac by {
        assert [w, d.frac][1..] == [d.frac];
      }
  }

  lemma {:induction false} FlattenNonEmpty<T>(groups: seq<seq<T>>)
    requires |groups| > 0 && |groups[0]| > 0
    ensures |Flatten(groups)| > 0
  {
  }

  lemma {:induction false} FlattenNoUnderscore(groups: seq<seq<string>>)
    requires forall i :: 0 <= i < |groups| ==> NoUnderscore(groups[i])
    ensures NoUnderscore(Flatten(groups))
    decreases |groups|
  {
    if |groups| > 0 {
      FlattenNoUnderscore(groups[1..]);
      var f := Flatten(groups);
      assert f == groups[0] + Flatten(groups[1..]);
      forall i | 0 <= i < |f|
        ensures '_' !in f[i]
      {
        if i >= |groups[0]| {
          assert f[i] == Flatten(groups[1..])[i - |groups[0]|];
        }
      }
    }
  }

  /** Joining each group, then the results, joins the groups' concatenation. */
  lemma {:induction false} JoinFlatten(groups: seq<seq<string>>, sep: char)
    requires forall i :: 0 <= i < |groups| ==> |groups[i]| > 0
    ensures Join(seq(|groups|, i requires 0 <= i < |groups| => Join(groups[i], sep)), sep) == Join(Flatten(groups), sep)
    decreases |groups|
  {
    var joined := seq(|groups|, i requires 0 <= i < |groups| => Join(groups[i], sep));
    if |groups| == 1 {
      assert Flatten(groups) == groups[0] + Flatten(groups[1..]);
      assert Flatten(groups[1..]) == [];
      assert Flatten(groups) == groups[0];
    } else if |groups| > 1 {
      var rest := groups[1..];
      JoinFlatten(rest, sep);
      var joinedRest := seq(|rest|, i requires 0 <= i < |rest| => Join(rest[i], sep));
      assert joined[1..] == joinedRest;
      FlattenNonEmpty(rest);
      assert Flatten(groups) == groups[0] + Flatten(rest);
      JoinAppend(groups[0], Flatten(rest), sep);
    }
  }

  lemma ElementTextTokens(item: Item)
    requires CleanItem(item)
    ensures ElementText(item) == Join(ItemTokens(item), '_')
    ensures |ItemTokens(item)| > 0 && NoUnderscore(ItemTokens(item))
  {
    match item
    case Atom(x) =>
      ScalarTextTokens(x);
    case ListOf(xs) =>
      if |xs| > 0 {
        var groups := seq(|xs|, i requires 0 <= i < |xs| => ScalarTokens(xs[i]));
        forall i | 0 <= i < |xs|
          ensures |groups[i]| > 0 && NoUnderscore(groups[i]) && Join(groups[i], '_') == ScalarText(xs[i])
        {
          ScalarTextTokens(xs[i]);
        }
        JoinFlatten(groups, '_');
        var texts := seq(|xs|, i requires 0 <= i < |xs| => ScalarText(xs[i]));
        assert texts == seq(|groups|, i requires 0 <= i < |groups| => Join(groups[i], '_'));
        FlattenNonEmpty(groups);
        FlattenNoUnderscore(groups);
      }
  }

  /**
   * For values free of stray `_` and `.`, a configuration name is the
   * `_`-join of its tokens, none of which holds a `_`: splitting the name at
   * `_` recovers the prefix and every value's tokens.
   */
  lemma ConfigNameTokens(config: seq<Item>)
    requires |config| > 0
    requires forall i :: 0 <= i < |config| ==> CleanItem(config[i])
    ensures var tokens := [NamePrefix] + Flatten(seq(|config|, i requires 0 <= i < |config| => ItemTokens(config[i])));
      && ConfigName(config) == Join(tokens, '_')
      && Split(ConfigName(config), '_') == tokens
  {
    var groups := seq(|config|, i requires 0 <= i < |config| => ItemTokens(config[i]));
    forall i | 0 <= i < |config|
      ensures |groups[i]| > 0 && NoUnderscore(groups[i]) && Join(groups[i], '_') == ElementText(config[i])
    {
      ElementTextTokens(config[i]);
    }
    JoinFlatten(groups, '_');
    var elements := seq(|config|, i requires 0 <= i < |config| => ElementText(config[i]));
    assert elements == seq(|groups|, i requires 0 <= i < |groups| => Join(groups[i], '_'));
    FlattenNonEmpty(groups);
    FlattenNoUnderscore(groups);
    var flat := Flatten(groups);
    JoinAppend([NamePrefix], flat, '_');
    var tokens := [NamePrefix] + flat;
    forall i | 0 <= i < |tokens|
      ensures '_' !in tokens[i]
    {
      if i > 0 { assert tokens[i] == flat[i - 1]; }
    }
    SplitJoin(tokens, '_');
  }

  /** The file `amend_config_file` writes, and what it returns. */
  datatype NameFile = NameFile(path: string, content: string, result: Option<string>)

  /**
   * `amend_config_file`: every name on its own tab-terminated line in
   * `<outputDir>/config_file`, which is overwritten; the path is returned
   * unless the write fails (`writeOk` is false).
   */
  function AmendConfigFile(names: seq<string>, outputDir: string, writeOk: bool): (r: NameFile)
    ensures r.path == JoinPath(outputDir, "config_file")
    ensures r.result.Some? <==> writeOk
    ensures r.result.Some? ==> r.result.value == r.path
    ensures r.content == Flatten(seq(|names|, i requires 0 <= i < |names| => names[i] + "\t\n"))
    ensures |r.content| == |names| * 2 + |Flatten(names)|
  {
    TabLinesLength(names);
    TabLinesFlatten(names);
    var path := JoinPath(outputDir, "config_file");
    NameFile(path, TabLines(names), if writeOk then Some(path) else None)
  }

  lemma {:induction false} TabLinesLength(names: seq<string>)
    ensures |TabLines(names)| == |names| * 2 + |Flatten(names)|
    decreases |names|
  {
    if |names| > 0 {
      TabLinesLength(names[1..]);
    }
  }

  /** Read back line by line and stripped, the name file gives the names again. */
  lemma AmendConfigFileReadsBack(names: seq<string>, outputDir: string, writeOk: bool)
    requires forall i :: 0 <= i < |names| ==> Trimmed(names[i]) && '\n' !in names[i]
    ensures var lines := Lines(AmendConfigFile(names, outputDir, writeOk).content);
      |lines| == |names| && forall i :: 0 <= i < |names| ==> Strip(lines[i]) == names[i]
  {
    TabLinesRoundTrip(names);
  }

  /** Python's `n // k`: the quotient rounded toward negative infinity. */
  function FloorDiv(n: int, k: int): int
    requires k != 0
  {
    if k > 0 then n / k
    else if n % -k == 0 then -(n / -k)
    else -(n / -k) - 1
  }

  /** `FloorDiv` is Python's floor division: the remainder takes the divisor's sign. */
  lemma FloorDivIsFloor(n: int, k: int)
    requires k != 0
    ensures k > 0 ==> FloorDiv(n, k) * k <= n < FloorDiv(n, k) * k + k
    ensures k < 0 ==> FloorDiv(n, k) * k + k < n <= FloorDiv(n, k) * k
  {
    if k < 0 {
      var m := -k;
      var q, r := n / m, n % m;
      assert n == q * m + r;
      if r == 0 {
        assert FloorDiv(n, k) * k == q * m;
      } else {
        assert FloorDiv(n, k) * k == q * m + m;
      }
    }
  }

  /** The sign of a length's floor quotient, which decides how the chunk loop fails. */
  lemma FloorDivOfLength(n: nat, k: int)
    requires k != 0
    ensures k > 0 ==> FloorDiv(n, k) == n / k && (FloorDiv(n, k) > 0 <==> n >= k)
    ensures k < 0 && n == 0 ==> FloorDiv(n, k) == 0
    ensures k < 0 && n > 0 ==> FloorDiv(n, k) < 0
  {
    if k > 0 {
      if n >= k { DivModStep(n, k); }
    }
  }

  /**
   * `[s[i:i + size] for i in range(0, len(s), size)]`: consecutive slices of
   * `size` elements, the last one possibly shorter.
   */
  function ChunksOf<T>(s: seq<T>, size: nat): (r: seq<seq<T>>)
    requires size > 0
    ensures forall i :: 0 <= i < |r| ==> 0 < |r[i]| <= size
    ensures forall i :: 0 <= i < |r| - 1 ==> |r[i]| == size
    decreases |s|
  {
    if |s| == 0 then []
    else if |s| <= size then [s]
    else [s[..size]] + ChunksOf(s[size..], size)
  }

  /** The slices concatenate back to the whole sequence. */
  lemma {:induction false} ChunksOfFlatten<T>(s: seq<T>, size: nat)
    requires size > 0
    ensures Flatten(ChunksOf(s, size)) == s
    decreases |s|
  {
    if |s| > 0 {
      ChunksOfStep(s, size);
      if |s| <= size {
        assert Flatten([s]) == s + Flatten([]);
      } else {
        var rest := ChunksOf(s[size..], size);
        ChunksOfFlatten(s[size..], size);
        assert Flatten([s[..size]] + rest) == s[..size] + Flatten(rest);
        assert s[..size] + s[size..] == s;
      }
    }
  }

  /** One step of the chunking: the first slice, then the chunks of the rest. */
  lemma ChunksOfStep<T>(s: seq<T>, size: nat)
    requires size > 0 && |s| > 0
    ensures |s| <= size ==> ChunksOf(s, size) == [s]
    ensures |s| > size ==> ChunksOf(s, size) == [s[..size]] + ChunksOf(s[size..], size)
  {
  }

  /** When chunk `i` lies wholly inside `s`, it is the slice `[i * size, i * size + size)`. */
  lemma {:induction false} ChunkAt<T>(s: seq<T>, size: nat, i: nat)
    requires size > 0 && Stride(i, size) + size <= |s|
    ensures i < |ChunksOf(s, size)|
    ensures ChunksOf(s, size)[i] == s[Stride(i, size)..Stride(i, size) + size]
    decreases i
  {
    StrideGrows(i, size);
    if i == 0 {
      ChunksOfStep(s, size);
      assert Stride(0, size) == 0;
      if |s| == size {
        assert s[0..size] == s;
      } else {
        assert ChunksOf(s, size)[0] == s[..size];
      }
    } else {
      var a := Stride(i - 1, size);
      assert Stride(i, size) == size + a;
      var t := s[size..];
      ChunkAt(t, size, i - 1);
      ChunksOfShift(s, size, i);
      SliceOfSlice(s, size, a, a + size);
    }
  }

  /** A slice of a suffix is a slice of the whole. */
  lemma SliceOfSlice<T>(s: seq<T>, p: nat, lo: nat, hi: nat)
    requires p <= |s| && lo <= hi <= |s| - p
    ensures s[p..][lo..hi] == s[p + lo..p + hi]
  {
  }

  /** Past the first slice, the chunks of `s` are those of the rest of `s`. */
  lemma ChunksOfShift<T>(s: seq<T>, size: nat, i: nat)
    requires size > 0 && 0 < i && size < |s|
    requires i - 1 < |ChunksOf(s[size..], size)|
    ensures i < |ChunksOf(s, size)|
    ensures ChunksOf(s, size)[i] == ChunksOf(s[size..], size)[i - 1]
  {
    ChunksOfStep(s, size);
  }

  lemma StrideGrows(i: nat, w: nat)
    ensures Stride(i, w) + w >= w
    ensures i > 0 ==> Stride(i, w) + w >= w + w
  {
    if i > 0 {
      assert Stride(i, w) == w + Stride(i - 1, w);
    }
  }

  /** `Stride(i, w)` never exceeds `Stride(k, w)` for `i <= k`. */
  lemma {:induction false} StrideMonotone(i: nat, k: nat, w: nat)
    requires i <= k
    ensures Stride(i, w) <= Stride(k, w)
    decreases k
  {
    if i < k {
      StrideMonotone(i, k - 1, w);
    }
  }

  /** The first `k` of `chunks` are the consecutive slices `[i * size, i * size + size)` of `s`. */
  ghost predicate SlicedAt<T>(chunks: seq<seq<T>>, s: seq<T>, size: nat, k: nat)
  {
    && k <= |chunks|
    && forall i :: 0 <= i < k ==>
         Stride(i, size) + size <= |s| && chunks[i] == s[Stride(i, size)..Stride(i, size) + size]
  }

  /** When `k` whole chunks fit, the first `k` chunks are the slices `[i * size, i * size + size)`. */
  lemma ChunksOfPrefix<T>(s: seq<T>, size: nat, k: nat)
    requires size > 0 && Stride(k, size) <= |s|
    ensures SlicedAt(ChunksOf(s, size), s, size, k)
  {
    if k > 0 {
      assert Stride(k, size) == Stride(k - 1, size) + size;
      ChunkAt(s, size, k - 1);
    }
    forall i | 0 <= i < k
      ensures Stride(i, size) + size <= |s| && ChunksOf(s, size)[i] == s[Stride(i, size)..Stride(i, size) + size]
    {
      assert Stride(i + 1, size) == Stride(i, size) + size;
      StrideMonotone(i + 1, k, size);
      ChunkAt(s, size, i);
    }
  }

  /** Why `amend_config_file_chunks` raised. */
  datatype ChunkError =
    | ZeroChunks   // `len // 0`: `ZeroDivisionError`
    | StepZero     // `range(0, n, 0)`: `ValueError`
    | NoChunks     // a negative step gives no chunk, and `chunks[0]` raises `IndexError`

  /** What `amend_config_file_chunks` hands to the writers, and the list it returns. */
  datatype ChunkOutcome = ChunkOutcome(files: seq<string>, chunks: seq<seq<string>>, contents: seq<string>,
                                        results: seq<Option<string>>)

  /** `f"config_file_{i}"`. */
  function ConfigFileName(i: nat): string
  {
    "config_file_" + ShowNat(i)
  }

  /** `os.path.join(outputDir, f"config_file_{i}")` for `i` in `1 .. k`. */
  function OutputFiles(outputDir: string, k: nat): (r: seq<string>)
    ensures |r| == k
    ensures forall i :: 0 <= i < k ==> r[i] == JoinPath(outputDir, ConfigFileName(i + 1))
  {
    seq(k, i requires 0 <= i < k => JoinPath(outputDir, ConfigFileName(i + 1)))
  }

  /** The numbered names differ from each other. */
  lemma ConfigFileNameInjective(i: nat, j: nat)
    requires ConfigFileName(i) == ConfigFileName(j)
    ensures i == j
  {
    PrefixCancel("config_file_", ShowNat(i), ShowNat(j));
    ShowNatInjective(i, j);
  }

  /** No two chunks are written to the same file. */
  lemma OutputFilesDistinct(outputDir: string, k: nat)
    ensures forall i, j :: 0 <= i < k && 0 <= j < k && OutputFiles(outputDir, k)[i] == OutputFiles(outputDir, k)[j]
              ==> i == j
  {
    var r := OutputFiles(outputDir, k);
    forall i, j | 0 <= i < k && 0 <= j < k && r[i] == r[j]
      ensures i == j
    {
      JoinPathInjective(outputDir, ConfigFileName(i + 1), ConfigFileName(j + 1));
      ConfigFileNameInjective(i + 1, j + 1);
    }
  }

  /**
   * Pairing chunks with files as `map` does, stopping at the shorter list:
   * `_write_chunk` puts each chunk's names on tab-terminated lines in its
   * file and reports the file, or `None` when `canWrite` says it fails.
   */
  function WriteChunks(chunks: seq<seq<string>>, files: seq<string>, canWrite: string -> bool): (r: ChunkOutcome)
    ensures |r.files| == |r.chunks| == |r.contents| == |r.results|
    ensures |r.files| == if |chunks| < |files| then |chunks| else |files|
    ensures r.files == files[..|r.files|] && r.chunks == chunks[..|r.chunks|]
    ensures forall i :: 0 <= i < |r.contents| ==> r.contents[i] == TabLines(r.chunks[i])
    ensures forall i :: 0 <= i < |r.results| ==>
              r.results[i] == if canWrite(files[i]) then Some(files[i]) else None
  {
    var m := if |chunks| < |files| then |chunks| else |files|;
    ChunkOutcome(files[..m], chunks[..m], seq(m, i requires 0 <= i < m => TabLines(chunks[i])),
                 seq(m, i requires 0 <= i < m => if canWrite(files[i]) then Some(files[i]) else None))
  }

  /**
   * `amend_config_file_chunks(names, outputDir, numChunks)` as written: the
   * chunk size is `len(names) // numChunks` and the chunks are paired with
   * the `numChunks` output files.
   */
  function AmendConfigFileChunks(names: seq<string>, outputDir: string, numChunks: int, canWrite: string -> bool)
    : (r: Result<ChunkOutcome, ChunkError>)
    ensures numChunks == 0 ==> r == Failure(ZeroChunks)
    ensures numChunks != 0 && FloorDiv(|names|, numChunks) == 0 ==> r == Failure(StepZero)
    ensures numChunks != 0 && FloorDiv(|names|, numChunks) < 0 ==> r == Failure(NoChunks)
    ensures numChunks != 0 && FloorDiv(|names|, numChunks) > 0 ==> r.Success?
  {
    if numChunks == 0 then Failure(ZeroChunks)
    else
      var chunkSize := FloorDiv(|names|, numChunks);
      if chunkSize == 0 then Failure(StepZero)
      else if chunkSize < 0 then Failure(NoChunks)
      else
        var chunks := ChunksOf(names, chunkSize);
        Success(WriteChunks(chunks, OutputFiles(outputDir, if numChunks < 0 then 0 else numChunks), canWrite))
  }

  /** The chunked writer fails exactly when there are no chunks or fewer names than chunks. */
  lemma ChunkErrors(names: seq<string>, outputDir: string, numChunks: int, canWrite: string -> bool)
    ensures AmendConfigFileChunks(names, outputDir, numChunks, canWrite).Success? <==> 0 < numChunks <= |names|
    ensures numChunks > |names| ==> AmendConfigFileChunks(names, outputDir, numChunks, canWrite) == Failure(StepZero)
    ensures numChunks < 0 && |names| > 0 ==> AmendConfigFileChunks(names, outputDir, numChunks, canWrite) == Failure(NoChunks)
  {
    if numChunks != 0 {
      FloorDivOfLength(|names|, numChunks);
    }
  }

  /** `k` slices of `n / k` fit in `n`. */
  lemma ChunksFit(n: nat, k: nat)
    requires k > 0
    ensures Stride(k, n / k) <= n
  {
    StrideIsProduct(k, n / k);
    assert n == (n / k) * k + n % k;
  }

  /**
   * On success exactly `numChunks` files are written, file `i` holding the
   * `i`-th slice of `len(names) // numChunks` names, so together they hold
   * the names up to `numChunks * (len(names) // numChunks)` and no further.
   */
  lemma ChunkedFiles(names: seq<string>, outputDir: string, numChunks: int, canWrite: string -> bool)
    requires AmendConfigFileChunks(names, outputDir, numChunks, canWrite).Success?
    ensures numChunks > 0
    ensures var out := AmendConfigFileChunks(names, outputDir, numChunks, canWrite).value;
      var size := |names| / numChunks;
      && out.files == OutputFiles(outputDir, numChunks)
      && |out.chunks| == numChunks
      && SlicedAt(out.chunks, names, size, numChunks)
      && Stride(numChunks, size) <= |names|
      && Flatten(out.chunks) == names[..Stride(numChunks, size)]
  {
    var k: nat, size: nat := ChunkedShape(names, outputDir, numChunks, canWrite);
    var out := AmendConfigFileChunks(names, outputDir, numChunks, canWrite).value;
    ChunksFit(|names|, k);
    ChunksOfPrefix(names, size, k);
    assert SlicedAt(out.chunks, names, size, k);
    FlattenChunkPrefix(names, size, k, out.chunks);
  }

  /** A successful chunked write pairs the first `numChunks` chunks of size `len // numChunks` with all its files. */
  lemma ChunkedShape(names: seq<string>, outputDir: string, numChunks: int, canWrite: string -> bool)
    returns (k: nat, size: nat)
    requires AmendConfigFileChunks(names, outputDir, numChunks, canWrite).Success?
    ensures k == numChunks && 0 < k && size == |names| / k && 0 < size
    ensures |ChunksOf(names, size)| >= k
    ensures AmendConfigFileChunks(names, outputDir, numChunks, canWrite).value.files == OutputFiles(outputDir, k)
    ensures AmendConfigFileChunks(names, outputDir, numChunks, canWrite).value.chunks == ChunksOf(names, size)[..k]
  {
    ChunkErrors(names, outputDir, numChunks, canWrite);
    k := numChunks;
    FloorDivOfLength(|names|, k);
    size := |names| / k;
    ChunksFit(|names|, k);
    ChunksOfPrefix(names, size, k);
    assert SlicedAt(ChunksOf(names, size), names, size, k);
  }

  lemma {:induction false} FlattenChunkPrefix(s: seq<string>, size: nat, k: nat, chunks: seq<seq<string>>)
    requires Stride(k, size) <= |s| && |chunks| == k
    requires SlicedAt(chunks, s, size, k)
    ensures Flatten(chunks) == s[..Stride(k, size)]
    decreases k
  {
    if k > 0 {
      var init := chunks[..k - 1];
      assert chunks == init + [chunks[k - 1]];
      FlattenChunkPrefix(s, size, k - 1, init);
      FlattenAppend(init, [chunks[k - 1]]);
      assert Flatten([chunks[k - 1]]) == chunks[k - 1] + Flatten([]);
      assert s[..Stride(k, size)] == s[..Stride(k - 1, size)] + s[Stride(k - 1, size)..Stride(k, size)];
    }
  }

  /** Three names in two chunks: chunks of one name each, and the third name is never written. */
  lemma ChunkLossExample(canWrite: string -> bool)
    ensures AmendConfigFileChunks(["a", "b", "c"], "out", 2, canWrite).Success?
    ensures var out := AmendConfigFileChunks(["a", "b", "c"], "out", 2, canWrite).value;
      out.chunks == [["a"], ["b"]] && "c" !in Flatten(out.chunks)
  {
    var names := ["a", "b", "c"];
    ChunkErrors(names, "out", 2, canWrite);
    ChunkedFiles(names, "out", 2, canWrite);
    assert |names| / 2 == 1;
    var out := AmendConfigFileChunks(names, "out", 2, canWrite).value;
    assert Stride(0, 1) == 0 && Stride(1, 1) == 1 && Stride(2, 1) == 2;
    assert out.chunks[0] == names[0..1] == ["a"];
    assert out.chunks[1] == names[1..2] == ["b"];
    assert out.chunks == [["a"], ["b"]];
    assert Flatten(out.chunks) == ["a", "b"];
  }

  /** One name in two chunks: the chunk size is 0 and `range` raises. */
  lemma StepZeroExample(canWrite: string -> bool)
    ensures AmendConfigFileChunks(["a"], "out", 2, canWrite) == Failure(StepZero)
  {
    ChunkErrors(["a"], "out", 2, canWrite);
  }

  /** The share of `n` names the next of `k` files takes: `ceil(n / k)`. */
  function ChunkShare(n: nat, k: nat): (r: nat)
    requires k > 0
    ensures r <= n
    ensures k == 1 ==> r == n
  {
    CeilDivFits(n, k);
    if n % k == 0 then n / k else n / k + 1
  }

  lemma CeilDivFits(n: nat, k: nat)
    requires k > 0
    ensures (if n % k == 0 then n / k else n / k + 1) <= n
    ensures k == 1 ==> n / k == n && n % k == 0
  {
    var q, m := n / k, n % k;
    assert n == q * k + m && 0 <= m < k;
    MulGeSelf(q, k);
  }

  lemma MulGeSelf(q: nat, k: nat)
    requires k > 0
    ensures q * k >= q
  {
    assert q * k == q * (k - 1) + q;
  }

  /** `k` consecutive slices of `s`, each taking its share of what is left, together holding all of `s`. */
  function EvenChunks<T>(s: seq<T>, k: nat): (r: seq<seq<T>>)
    requires k > 0
    ensures |r| == k
    ensures Flatten(r) == s
    decreases k
  {
    var size := ChunkShare(|s|, k);
    if k == 1 then
      assert Flatten([s]) == s + Flatten([]);
      [s]
    else
      var rest := EvenChunks(s[size..], k - 1);
      assert Flatten([s[..size]] + rest) == s[..size] + Flatten(rest);
      assert s[..size] + s[size..] == s;
      [s[..size]] + rest
  }

  /**
   * The chunked writer as its documentation describes it: `numChunks`
   * files `config_file_1 .. config_file_k` that together hold every name,
   * in order, whatever the number of names.
   */
  function AmendConfigFileChunksEven(names: seq<string>, outputDir: string, numChunks: int,
                                     canWrite: string -> bool): (r: Result<ChunkOutcome, ChunkError>)
    ensures r.Success? <==> numChunks > 0
    ensures r.Success? ==> |r.value.files| == |r.value.chunks| == |r.value.results| == numChunks
    ensures r.Success? ==> r.value.files == OutputFiles(outputDir, numChunks)
    ensures r.Success? ==> Flatten(r.value.chunks) == names
  {
    if numChunks <= 0 then Failure(ZeroChunks)
    else
      var chunks := EvenChunks(names, numChunks);
      var out := WriteChunks(chunks, OutputFiles(outputDir, numChunks), canWrite);
      assert out.chunks == chunks;
      Success(out)
  }
}
