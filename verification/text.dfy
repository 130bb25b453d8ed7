/**
 * String primitives the repository relies on: Python's `int`/`str` on
 * integers, `str.split`/`str.join`, `str.strip`, line iteration over a text
 * file, `os.path.join`, and `re.search` for a literal followed by `(\d+)`.
 * Strings are `seq<char>`; digits are the ASCII digits.
 */
module Text {
  import opened Wrappers
  import opened Seqs

  predicate IsDigit(c: char) { '0' <= c <= '9' }

  predicate AllDigits(s: string) { forall i :: 0 <= i < |s| ==> IsDigit(s[i]) }

  /** Value of a run of decimal digits, most significant digit first. */
  function DigitsValue(s: string): nat
    requires AllDigits(s)
  {
    if |s| == 0 then 0 else DigitsValue(s[..|s| - 1]) * 10 + ((s[|s| - 1] as int) - ('0' as int))
  }

  /** Python's `str(n)` for a non-negative integer. */
  function ShowNat(n: nat): (r: string)
    ensures |r| > 0 && AllDigits(r)
    ensures DigitsValue(r) == n
    ensures r[0] == '0' ==> n == 0
  {
    if n < 10 then [(('0' as int) + n) as char]
    else
      var head := ShowNat(n / 10);
      var r := head + [(('0' as int) + n % 10) as char];
      assert r[..|r| - 1] == head;
      r
  }

  lemma ShowNatInjective(m: nat, n: nat)
    requires ShowNat(m) == ShowNat(n)
    ensures m == n
  {
  }

  /** Python's `str(i)` for an integer. */
  function ShowInt(i: int): string
  {
    if i < 0 then "-" + ShowNat(-i) else ShowNat(i)
  }

  /**
   * A non-negative float, kept as the two digit runs of its `str()`
   * rendering (`20.0` is `Dec(20, "0")`): its value is never computed with.
   */
  datatype Dec = Dec(whole: nat, frac: string)

  /** A token Python renders as written: a non-empty run of fraction digits. */
  predicate ValidDec(d: Dec)
  {
    |d.frac| > 0 && AllDigits(d.frac)
  }

  /** Python's `str(x)` for a float `x`. */
  function ShowDec(d: Dec): string
  {
    ShowNat(d.whole) + "." + d.frac
  }

  /** Python's `float(whole + "." + frac)` on two tokens: both must be non-empty digit runs. */
  function ParseDec(whole: string, frac: string): (r: Option<Dec>)
    ensures r.Some? <==> |whole| > 0 && AllDigits(whole) && |frac| > 0 && AllDigits(frac)
    ensures r.Some? ==> ValidDec(r.value) && r.value.frac == frac
  {
    if |whole| > 0 && AllDigits(whole) && |frac| > 0 && AllDigits(frac) then Some(Dec(DigitsValue(whole), frac))
    else None
  }

  lemma ParseShowDec(d: Dec)
    requires ValidDec(d)
    ensures ParseDec(ShowNat(d.whole), d.frac) == Some(d)
  {
  }

  /** The texts Python's `int()` accepts (without surrounding blanks or `_` separators). */
  predicate IntLiteral(s: string)
  {
    || (|s| > 0 && AllDigits(s))
    || (|s| > 1 && (s[0] == '-' || s[0] == '+') && AllDigits(s[1..]))
  }

  /** Python's `int(s)`; `None` where Python raises `ValueError`. */
  function ParseInt(s: string): (r: Option<int>)
    ensures r.Some? <==> IntLiteral(s)
  {
    if |s| > 1 && (s[0] == '-' || s[0] == '+') && AllDigits(s[1..]) then
      var magnitude: int := DigitsValue(s[1..]);
      Some(if s[0] == '-' then -magnitude else magnitude)
    else if |s| > 0 && AllDigits(s) then Some(DigitsValue(s))
    else None
  }

  lemma ParseShowInt(i: int)
    ensures ParseInt(ShowInt(i)) == Some(i)
  {
    if i < 0 {
      assert ShowInt(i)[1..] == ShowNat(-i);
    }
  }

  /** The number of occurrences of `c` in `s`. */
  function Count(s: string, c: char): nat
  {
    if |s| == 0 then 0 else (if s[0] == c then 1 else 0) + Count(s[1..], c)
  }

  /** Python's `s.split(sep)` for a one-character separator. */
  function Split(s: string, sep: char): (parts: seq<string>)
    ensures |parts| == Count(s, sep) + 1
    ensures forall i :: 0 <= i < |parts| ==> sep !in parts[i]
    decreases |s|
  {
    if |s| == 0 then [""]
    else
      var rest := Split(s[1..], sep);
      if s[0] == sep then [""] + rest
      else [[s[0]] + rest[0]] + rest[1..]
  }

  /** Python's `sep.join(parts)` for a one-character separator. */
  function Join(parts: seq<string>, sep: char): string
  {
    if |parts| == 0 then ""
    else if |parts| == 1 then parts[0]
    else parts[0] + [sep] + Join(parts[1..], sep)
  }

  lemma {:induction false} JoinSplit(s: string, sep: char)
    ensures Join(Split(s, sep), sep) == s
    decreases |s|
  {
    if |s| > 0 {
      var rest := Split(s[1..], sep);
      JoinSplit(s[1..], sep);
      if s[0] == sep {
        assert s == [sep] + s[1..];
      } else if |rest| == 1 {
        assert s == [s[0]] + s[1..];
      } else {
        assert Join(rest, sep) == rest[0] + [sep] + Join(rest[1..], sep);
        assert s == [s[0]] + s[1..];
      }
    }
  }

  /** Splitting at the first separator: a separator-free head is one part. */
  lemma {:induction false} SplitAfterHead(head: string, sep: char, tail: string)
    requires sep !in head
    ensures Split(head + [sep] + tail, sep) == [head] + Split(tail, sep)
    decreases |head|
  {
    var s := head + [sep] + tail;
    if |head| == 0 {
      assert s[1..] == tail;
    } else {
      assert s[1..] == head[1..] + [sep] + tail;
      SplitAfterHead(head[1..], sep, tail);
      assert [head[0]] + head[1..] == head;
    }
  }

  lemma {:induction false} SplitNoSeparator(s: string, sep: char)
    requires sep !in s
    ensures Split(s, sep) == [s]
    decreases |s|
  {
    if |s| > 0 {
      assert sep !in s[1..];
      SplitNoSeparator(s[1..], sep);
      assert [s[0]] + s[1..] == s;
    }
  }

  lemma {:induction false} SplitJoin(parts: seq<string>, sep: char)
    requires |parts| > 0
    requires forall i :: 0 <= i < |parts| ==> sep !in parts[i]
    ensures Split(Join(parts, sep), sep) == parts
    decreases |parts|
  {
    if |parts| == 1 {
      SplitNoSeparator(parts[0], sep);
    } else {
      SplitJoin(parts[1..], sep);
      SplitAfterHead(parts[0], sep, Join(parts[1..], sep));
    }
  }

  lemma {:induction false} JoinAppend(a: seq<string>, b: seq<string>, sep: char)
    requires |a| > 0 && |b| > 0
    ensures Join(a + b, sep) == Join(a, sep) + [sep] + Join(b, sep)
    decreases |a|
  {
    if |a| == 1 {
      assert (a + b)[1..] == b;
    } else {
      assert (a + b)[1..] == a[1..] + b;
      JoinAppend(a[1..], b, sep);
    }
  }

  /** Python's `s.replace(a, b)` for single characters. */
  function ReplaceChar(s: string, a: char, b: char): (r: string)
    ensures |r| == |s|
    ensures forall i :: 0 <= i < |s| ==> r[i] == (if s[i] == a then b else s[i])
  {
    if |s| == 0 then "" else [if s[0] == a then b else s[0]] + ReplaceChar(s[1..], a, b)
  }

  /** Python's `s.split(sep)[-1]`: the text after the last separator. */
  function LastPart(s: string, sep: char): (r: string)
    ensures sep !in r
  {
    var parts := Split(s, sep);
    parts[|parts| - 1]
  }

  lemma {:induction false} PresentMeansCount(s: string, c: char)
    requires c in s
    ensures Count(s, c) > 0
    decreases |s|
  {
    if s[0] != c {
      assert c in s[1..] by {
        var j :| 0 <= j < |s| && s[j] == c;
        assert s[1..][j - 1] == c;
      }
      PresentMeansCount(s[1..], c);
    }
  }

  /** `s.split(sep)[-1]` is the whole text when no separator occurs, else the last part of `s[1..]`. */
  lemma LastPartStep(s: string, sep: char)
    requires |s| > 0
    ensures sep !in s ==> LastPart(s, sep) == s
    ensures sep in s ==> LastPart(s, sep) == LastPart(s[1..], sep)
  {
    var rest := Split(s[1..], sep);
    if sep !in s {
      SplitNoSeparator(s, sep);
    } else if s[0] == sep {
      assert Split(s, sep) == [""] + rest;
    } else {
      InTail(s, sep);
      PresentMeansCount(s[1..], sep);
      assert Split(s, sep) == [[s[0]] + rest[0]] + rest[1..];
    }
  }

  /** `s.split(sep)[-1]` is a suffix of `s`, preceded by a separator unless it is all of `s`. */
  lemma {:induction false} LastPartIsSuffix(s: string, sep: char)
    ensures |LastPart(s, sep)| <= |s|
    ensures s[|s| - |LastPart(s, sep)|..] == LastPart(s, sep)
    ensures |LastPart(s, sep)| == |s| || s[|s| - |LastPart(s, sep)| - 1] == sep
    decreases |s|
  {
    if |s| == 0 {
      assert Split(s, sep) == [""];
    } else {
      LastPartStep(s, sep);
      if sep in s {
        var last := LastPart(s, sep);
        LastPartIsSuffix(s[1..], sep);
        assert s[1..][|s| - 1 - |last|..] == s[|s| - |last|..];
        if |last| == |s| - 1 {
          assert s[1..] == last;
          InTail(s, sep);
        } else {
          assert s[1..][|s| - 1 - |last| - 1] == s[|s| - |last| - 1];
        }
      }
    }
  }

  predicate EndsWith(s: string, suffix: string)
  {
    |suffix| <= |s| && s[|s| - |suffix|..] == suffix
  }

  /** Python's `str.isspace()` for one character. */
  predicate IsSpace(c: char)
  {
    var k := c as int;
    || k == 0x20 || 0x09 <= k <= 0x0D || 0x1C <= k <= 0x1F
    || k == 0x85 || k == 0xA0 || k == 0x1680 || 0x2000 <= k <= 0x200A
    || k == 0x2028 || k == 0x2029 || k == 0x202F || k == 0x205F || k == 0x3000
  }

  /** The end of the run of blanks that starts at `j`. */
  function SpacesFrom(s: string, j: nat): (n: nat)
    requires j <= |s|
    ensures j <= n <= |s|
    ensures forall i :: j <= i < n ==> IsSpace(s[i])
    ensures n == |s| || !IsSpace(s[n])
    decreases |s| - j
  {
    if j < |s| && IsSpace(s[j]) then SpacesFrom(s, j + 1) else j
  }

  function TrimLeft(s: string): (r: string)
    ensures |r| <= |s| && r == s[|s| - |r|..]
    ensures forall i :: 0 <= i < |s| - |r| ==> IsSpace(s[i])
    ensures |r| == 0 || !IsSpace(r[0])
  {
    s[SpacesFrom(s, 0)..]
  }

  function TrimRight(s: string): (r: string)
    ensures |r| <= |s| && r == s[..|r|]
    ensures forall i :: |r| <= i < |s| ==> IsSpace(s[i])
    ensures |r| == 0 || !IsSpace(r[|r| - 1])
  {
    if |s| > 0 && IsSpace(s[|s| - 1]) then TrimRight(s[..|s| - 1]) else s
  }

  /** Python's `s.strip()`. */
  function Strip(s: string): string
  {
    TrimRight(TrimLeft(s))
  }

  /** A text `strip()` leaves unchanged. */
  predicate Trimmed(s: string)
  {
    |s| == 0 || (!IsSpace(s[0]) && !IsSpace(s[|s| - 1]))
  }

  /** One line as the repository writes it to a name list: the name, a tab, a newline. */
  function TabLine(name: string): string
  {
    name + "\t\n"
  }

  /** The contents of a file written by `file.write(name + "\t\n")` for each name in turn. */
  function TabLines(names: seq<string>): string
  {
    if |names| == 0 then "" else TabLine(names[0]) + TabLines(names[1..])
  }

  /** The written text is the names' lines one after the other. */
  lemma {:induction false} TabLinesFlatten(names: seq<string>)
    ensures TabLines(names) == Flatten(seq(|names|, i requires 0 <= i < |names| => names[i] + "\t\n"))
    decreases |names|
  {
    var g := seq(|names|, i requires 0 <= i < |names| => names[i] + "\t\n");
    if |names| > 0 {
      TabLinesFlatten(names[1..]);
      assert g[1..] == seq(|names[1..]|, i requires 0 <= i < |names[1..]| => names[1..][i] + "\t\n");
    }
  }

  /** Length of the first line of `t`, its newline included. */
  function LineLength(t: string): (k: nat)
    requires |t| > 0
    ensures 0 < k <= |t|
    ensures forall i :: 0 <= i < k - 1 ==> t[i] != '\n'
    ensures k == |t| || t[k - 1] == '\n'
  {
    if t[0] == '\n' || |t| == 1 then 1 else 1 + LineLength(t[1..])
  }

  /** Iterating over a text file: each line keeps its newline; a final line may lack one. */
  function Lines(t: string): seq<string>
    decreases |t|
  {
    if |t| == 0 then []
    else
      var k := LineLength(t);
      [t[..k]] + Lines(t[k..])
  }

  /**
   * A file of tab-terminated name lines reads back, line by line and
   * stripped, as the names, provided no name has surrounding whitespace or
   * a newline.
   */
  lemma {:induction false} TabLinesRoundTrip(names: seq<string>)
    requires forall i :: 0 <= i < |names| ==> Trimmed(names[i]) && '\n' !in names[i]
    ensures |Lines(TabLines(names))| == |names|
    ensures forall i :: 0 <= i < |names| ==> Strip(Lines(TabLines(names))[i]) == names[i]
    decreases |names|
  {
    if |names| > 0 {
      var n, tail := names[0], names[1..];
      assert forall i :: 0 <= i < |tail| ==> tail[i] == names[i + 1];
      TabLinesRoundTrip(tail);
      LinesOfTabLine(n, TabLines(tail));
      StripTabLine(n);
      var ls, rest := Lines(TabLines(names)), Lines(TabLines(tail));
      assert ls == [TabLine(n)] + rest;
      forall i | 0 <= i < |names|
        ensures Strip(ls[i]) == names[i]
      {
        if i > 0 {
          assert ls[i] == rest[i - 1];
        }
      }
    }
  }

  /** The first line of a text that starts with a tab line is that line. */
  lemma LinesOfTabLine(n: string, rest: string)
    requires '\n' !in n
    ensures Lines(TabLine(n) + rest) == [TabLine(n)] + Lines(rest)
  {
    FirstLineOfTabLine(n, rest);
  }

  lemma FirstLineOfTabLine(n: string, rest: string)
    requires '\n' !in n
    ensures LineLength(TabLine(n) + rest) == |n| + 2
    ensures (TabLine(n) + rest)[..|n| + 2] == TabLine(n)
    ensures (TabLine(n) + rest)[|n| + 2..] == rest
  {
    var t := TabLine(n) + rest;
    var k := LineLength(t);
    assert t[|n| + 1] == '\n';
    assert forall i :: 0 <= i < |n| ==> t[i] == n[i];
    assert forall i :: 0 <= i <= |n| ==> t[i] != '\n';
  }

  lemma StripTabLine(n: string)
    requires Trimmed(n)
    ensures Strip(TabLine(n)) == n
  {
    var t := TabLine(n);
    if |n| > 0 {
      assert TrimLeft(t) == t;
      assert t[..|n| + 1] == n + "\t";
      assert t[..|n|] == n;
      assert TrimRight(t[..|n| + 1]) == TrimRight(t[..|n|]);
    } else {
      assert SpacesFrom(t, 0) == 2;
    }
  }

  /** Python's `os.path.join(dir, name)` for two POSIX path components. */
  function JoinPath(dir: string, name: string): string
  {
    if |name| > 0 && name[0] == '/' then name
    else if |dir| == 0 || dir[|dir| - 1] == '/' then dir + name
    else dir + "/" + name
  }

  /** The separator `JoinPath` puts between a directory and a relative name. */
  function PathSeparator(dir: string): string
  {
    if |dir| == 0 || dir[|dir| - 1] == '/' then "" else "/"
  }

  lemma JoinPathRelative(dir: string, name: string)
    requires |name| > 0 && name[0] != '/'
    ensures JoinPath(dir, name) == dir + PathSeparator(dir) + name
  {
  }

  /** Under one directory, different relative names give different paths. */
  lemma JoinPathInjective(dir: string, a: string, b: string)
    requires |a| > 0 && a[0] != '/' && |b| > 0 && b[0] != '/'
    requires JoinPath(dir, a) == JoinPath(dir, b)
    ensures a == b
  {
    JoinPathRelative(dir, a);
    JoinPathRelative(dir, b);
    PrefixCancel(dir + PathSeparator(dir), a, b);
  }

  /**
   * `lit` occurs at `i` and is followed by at least one digit: the places where
   * `re.search(lit + r"(\d+)", s)` can match.
   */
  predicate MatchAt(s: string, lit: string, i: int)
  {
    0 <= i && i + |lit| < |s| && s[i..i + |lit|] == lit && IsDigit(s[i + |lit|])
  }

  /** The end of the run of digits that starts at `j`. */
  function DigitsFrom(s: string, j: nat): (n: nat)
    requires j <= |s|
    ensures j <= n <= |s|
    ensures forall i :: j <= i < n ==> IsDigit(s[i])
    ensures n == |s| || !IsDigit(s[n])
    decreases |s| - j
  {
    if j < |s| && IsDigit(s[j]) then DigitsFrom(s, j + 1) else j
  }

  /** The longest run of digits starting at `j` (what a greedy `\d+` takes). */
  function DigitRun(s: string, j: nat): (r: string)
    requires j <= |s|
    ensures j + |r| <= |s| && s[j..j + |r|] == r && AllDigits(r)
    ensures j + |r| == |s| || !IsDigit(s[j + |r|])
  {
    s[j..DigitsFrom(s, j)]
  }

  /** The leftmost match position at or after `from`. */
  function FirstMatch(s: string, lit: string, from: nat): (r: Option<nat>)
    ensures r.Some? ==> from <= r.value && r.value + |lit| < |s| && MatchAt(s, lit, r.value)
    ensures r.Some? ==> forall j :: from <= j < r.value ==> !MatchAt(s, lit, j)
    ensures r.None? ==> forall j :: from <= j ==> !MatchAt(s, lit, j)
    decreases |s| - from
  {
    if from + |lit| >= |s| then None
    else if MatchAt(s, lit, from) then Some(from)
    else FirstMatch(s, lit, from + 1)
  }

  /** `re.search(lit + r"(\d+)", s).group(1)`, or `None` when there is no match. */
  function SearchGroup(s: string, lit: string): (r: Option<string>)
    ensures r.Some? ==> |r.value| > 0 && AllDigits(r.value)
  {
    match FirstMatch(s, lit, 0)
    case None => None
    case Some(i) => Some(DigitRun(s, i + |lit|))
  }

  /** `int(re.search(lit + r"(\d+)", s).group(1))`, or `None` when there is no match. */
  function SearchInt(s: string, lit: string): Option<nat>
  {
    match SearchGroup(s, lit)
    case None => None
    case Some(g) => Some(DigitsValue(g))
  }

  lemma {:induction false} FirstMatchIs(s: string, lit: string, from: nat, i: nat)
    requires from <= i && MatchAt(s, lit, i)
    requires forall j :: from <= j < i ==> !MatchAt(s, lit, j)
    ensures FirstMatch(s, lit, from) == Some(i)
    decreases i - from
  {
    if from < i {
      FirstMatchIs(s, lit, from + 1, i);
    }
  }

  lemma DigitRunIs(s: string, j: nat, digits: string)
    requires j + |digits| <= |s| && s[j..j + |digits|] == digits && AllDigits(digits)
    requires j + |digits| == |s| || !IsDigit(s[j + |digits|])
    ensures DigitRun(s, j) == digits
  {
    forall i | j <= i < j + |digits|
      ensures IsDigit(s[i])
    {
      assert s[i] == digits[i - j];
    }
    DigitsFromIs(s, j, j + |digits|);
  }

  /** A digit run ends at the first non-digit, which is `e` when the digits go up to `e`. */
  lemma {:induction false} DigitsFromIs(s: string, j: nat, e: nat)
    requires j <= e <= |s|
    requires forall i :: j <= i < e ==> IsDigit(s[i])
    requires e == |s| || !IsDigit(s[e])
    ensures DigitsFrom(s, j) == e
    decreases e - j
  {
    if j < e {
      DigitsFromIs(s, j + 1, e);
    }
  }

  /** No match can start before the first occurrence of the literal's first character. */
  lemma {:induction false} NoMatchBefore(s: string, lit: string, i: nat)
    requires |lit| > 0 && i <= |s|
    requires lit[0] !in s[..i]
    ensures forall j :: 0 <= j < i ==> !MatchAt(s, lit, j)
  {
    forall j | 0 <= j < i
      ensures !MatchAt(s, lit, j)
    {
      assert s[..i][j] == s[j];
      if j + |lit| <= |s| {
        assert s[j..j + |lit|][0] == s[j];
      }
    }
  }

  /**
   * What `SearchInt` returns, stated without the search: the digits after the
   * leftmost `lit` that is followed by a digit, taken as far as they go.
   */
  lemma {:induction false} SearchIntSpec(s: string, lit: string, i: nat, digits: string)
    requires MatchAt(s, lit, i)
    requires forall j :: 0 <= j < i ==> !MatchAt(s, lit, j)
    requires i + |lit| + |digits| <= |s| && s[i + |lit|..i + |lit| + |digits|] == digits
    requires AllDigits(digits)
    requires i + |lit| + |digits| == |s| || !IsDigit(s[i + |lit| + |digits|])
    ensures SearchGroup(s, lit) == Some(digits)
    ensures SearchInt(s, lit) == Some(DigitsValue(digits))
  {
    FirstMatchIs(s, lit, 0, i);
    DigitRunIs(s, i + |lit|, digits);
    SearchGroupAt(s, lit, i);
  }

  /** The search finds a group exactly when the literal occurs somewhere followed by a digit. */
  lemma SearchGroupFound(s: string, lit: string)
    ensures SearchGroup(s, lit).Some? <==> exists i :: MatchAt(s, lit, i)
  {
    var m := FirstMatch(s, lit, 0);
    if m.Some? {
      assert MatchAt(s, lit, m.value);
    }
  }

  lemma SearchGroupAt(s: string, lit: string, i: nat)
    requires FirstMatch(s, lit, 0) == Some(i)
    ensures i + |lit| <= |s| && SearchGroup(s, lit) == Some(DigitRun(s, i + |lit|))
  {
  }

  /** `FirstMatch` finds nothing when no position matches. */
  lemma {:induction false} NoMatchFrom(s: string, lit: string, from: nat)
    requires forall j :: from <= j < |s| ==> !MatchAt(s, lit, j)
    ensures FirstMatch(s, lit, from) == None
    decreases |s| - from
  {
    if from < |s| {
      NoMatchFrom(s, lit, from + 1);
    }
  }
}
