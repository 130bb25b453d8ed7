/** Generic sequence operations: flattening, `itertools.product`, and `filter`. */
module Seqs {

  /** Concatenation of a list of lists, in order. */
  function Flatten<T>(ss: seq<seq<T>>): seq<T>
  {
    if |ss| == 0 then [] else ss[0] + Flatten(ss[1..])
  }

  lemma {:induction false} FlattenAppend<T>(a: seq<seq<T>>, b: seq<seq<T>>)
    ensures Flatten(a + b) == Flatten(a) + Flatten(b)
    decreases |a|
  {
    if |a| > 0 {
      assert (a + b)[0] == a[0];
      assert (a + b)[1..] == a[1..] + b;
      FlattenAppend(a[1..], b);
      assert Flatten(a + b) == a[0] + (Flatten(a[1..]) + Flatten(b));
    } else {
      assert a + b == b;
    }
  }

  /** Flattening one-element lists lists their elements. */
  lemma {:induction false} FlattenSingletons<T>(g: seq<seq<T>>, xs: seq<T>)
    requires |g| == |xs| && forall i :: 0 <= i < |xs| ==> g[i] == [xs[i]]
    ensures Flatten(g) == xs
    decreases |xs|
  {
    if |xs| > 0 {
      forall i | 0 <= i < |xs| - 1
        ensures g[1..][i] == [xs[1..][i]]
      {
        assert g[1..][i] == g[i + 1];
      }
      FlattenSingletons(g[1..], xs[1..]);
      assert xs == [xs[0]] + xs[1..];
    }
  }

  /** A common prefix can be cancelled. */
  lemma PrefixCancel<T>(p: seq<T>, a: seq<T>, b: seq<T>)
    requires p + a == p + b
    ensures a == b
  {
    assert a == (p + a)[|p|..];
    assert b == (p + b)[|p|..];
  }

  /** Product of a list of natural numbers (1 for the empty list). */
  function Prod(ns: seq<nat>): nat
  {
    if |ns| == 0 then 1 else ns[0] * Prod(ns[1..])
  }

  /** The lengths of a list of lists. */
  function Lengths<T>(ls: seq<seq<T>>): (r: seq<nat>)
    ensures |r| == |ls|
    ensures forall i :: 0 <= i < |ls| ==> r[i] == |ls[i]|
  {
    if |ls| == 0 then [] else [|ls[0]|] + Lengths(ls[1..])
  }

  /** `[[x] + t for t in tails]`. */
  function Prepend<T>(x: T, tails: seq<seq<T>>): (r: seq<seq<T>>)
    ensures |r| == |tails|
    ensures forall j :: 0 <= j < |tails| ==> r[j] == [x] + tails[j]
  {
    seq(|tails|, j requires 0 <= j < |tails| => [x] + tails[j])
  }

  /** `[[x] + t for x in heads for t in tails]`: the first position varies slowest. */
  function ProductWith<T>(heads: seq<T>, tails: seq<seq<T>>): seq<seq<T>>
  {
    if |heads| == 0 then [] else Prepend(heads[0], tails) + ProductWith(heads[1..], tails)
  }

  /** `list(itertools.product(*ls))`, each tuple as a list. */
  function Product<T>(ls: seq<seq<T>>): seq<seq<T>>
  {
    if |ls| == 0 then [[]] else ProductWith(ls[0], Product(ls[1..]))
  }

  lemma {:induction false} MulAtLeast(k: int, w: int)
    requires k >= 1 && w > 0
    ensures k * w >= w
  {
  }

  /** Quotient and remainder are determined by any decomposition `n == q * w + r`. */
  lemma {:induction false} DivModUnique(n: int, w: int, q: int, r: int)
    requires w > 0 && 0 <= r < w && n == q * w + r
    ensures n / w == q && n % w == r
  {
    var q0, r0 := n / w, n % w;
    assert n == q0 * w + r0;
    if q > q0 {
      MulAtLeast(q - q0, w);
      assert false;
    } else if q < q0 {
      MulAtLeast(q0 - q, w);
      assert false;
    }
  }

  lemma {:induction false} DivModStep(i: int, w: int)
    requires w > 0 && i >= w
    ensures (i - w) / w == i / w - 1 && (i - w) % w == i % w
  {
    var q := i / w;
    assert i == q * w + i % w;
    assert (q - 1) * w == q * w - w;
    DivModUnique(i - w, w, q - 1, i % w);
  }

  lemma {:induction false} MulPeel(n: nat, w: nat)
    requires n > 0
    ensures n * w == w + (n - 1) * w
  {
  }

  lemma {:induction false} MulPositive(n: nat, w: nat)
    requires n * w > 0
    ensures n > 0 && w > 0
  {
  }

  lemma {:induction false} ProductWithLength<T>(heads: seq<T>, tails: seq<seq<T>>)
    ensures |ProductWith(heads, tails)| == |heads| * |tails|
    decreases |heads|
  {
    if |heads| > 0 {
      ProductWithLength(heads[1..], tails);
      MulPeel(|heads|, |tails|);
    }
  }

  /** `h * w`, written as repeated addition so that the index proofs stay linear. */
  function Stride(h: nat, w: nat): nat
  {
    if h == 0 then 0 else w + Stride(h - 1, w)
  }

  lemma {:induction false} StrideIsProduct(h: nat, w: nat)
    ensures Stride(h, w) == h * w
  {
    if h > 0 {
      StrideIsProduct(h - 1, w);
      MulPeel(h, w);
    }
  }

  /** `ProductWith` lists head `h` against every tail: position `h * |tails| + j` pairs head `h` with tail `j`. */
  lemma {:induction false} ProductWithAt<T>(heads: seq<T>, tails: seq<seq<T>>, h: nat, j: nat)
    requires h < |heads| && j < |tails|
    ensures Stride(h, |tails|) + j < |ProductWith(heads, tails)|
    ensures ProductWith(heads, tails)[Stride(h, |tails|) + j] == [heads[h]] + tails[j]
    decreases h, 1
  {
    if h == 0 {
      ProductWithFirst(heads, tails, j);
    } else {
      ProductWithAtLater(heads, tails, h, j);
    }
  }

  /** The inductive step of `ProductWithAt`: a later head is found one block further on. */
  lemma {:induction false} ProductWithAtLater<T>(heads: seq<T>, tails: seq<seq<T>>, h: nat, j: nat)
    requires 0 < h < |heads| && j < |tails|
    ensures Stride(h, |tails|) + j < |ProductWith(heads, tails)|
    ensures ProductWith(heads, tails)[Stride(h, |tails|) + j] == [heads[h]] + tails[j]
    decreases h, 0
  {
    var w, rest := |tails|, heads[1..];
    assert rest[h - 1] == heads[h];
    var k := Stride(h - 1, w) + j;
    assert Stride(h, w) + j == w + k;
    ProductWithAt(rest, tails, h - 1, j);
    ProductWithShift(heads, tails, k);
  }

  /** The first `|tails|` entries pair the first head with each tail. */
  lemma ProductWithFirst<T>(heads: seq<T>, tails: seq<seq<T>>, j: nat)
    requires 0 < |heads| && j < |tails|
    ensures j < |ProductWith(heads, tails)| && ProductWith(heads, tails)[j] == [heads[0]] + tails[j]
  {
    var pre := Prepend(heads[0], tails);
    assert ProductWith(heads, tails) == pre + ProductWith(heads[1..], tails);
    assert (pre + ProductWith(heads[1..], tails))[j] == pre[j];
  }

  /** After the first `|tails|` entries come the entries for the remaining heads. */
  lemma ProductWithShift<T>(heads: seq<T>, tails: seq<seq<T>>, k: nat)
    requires 0 < |heads| && k < |ProductWith(heads[1..], tails)|
    ensures |tails| + k < |ProductWith(heads, tails)|
    ensures ProductWith(heads, tails)[|tails| + k] == ProductWith(heads[1..], tails)[k]
  {
    var pre := Prepend(heads[0], tails);
    var rest := ProductWith(heads[1..], tails);
    assert ProductWith(heads, tails) == pre + rest;
    AppendAt(pre, rest, k);
  }

  /** Indexing past the first part of a concatenation lands in the second. */
  lemma AppendAt<T>(a: seq<T>, b: seq<T>, k: nat)
    requires k < |b|
    ensures |a| + k < |a + b| && (a + b)[|a| + k] == b[k]
  {
  }

  /** The size of a Cartesian product is the product of the sizes. */
  lemma {:induction false} ProductLength<T>(ls: seq<seq<T>>)
    ensures |Product(ls)| == Prod(Lengths(ls))
    decreases |ls|
  {
    if |ls| > 0 {
      ProductLength(ls[1..]);
      ProductWithLength(ls[0], Product(ls[1..]));
      assert Lengths(ls)[1..] == Lengths(ls[1..]);
    }
  }

  lemma PrependMember<T>(x: T, tails: seq<seq<T>>, t: seq<T>)
    ensures t in Prepend(x, tails) <==> |t| > 0 && t[0] == x && t[1..] in tails
  {
    var pre := Prepend(x, tails);
    if t in pre {
      var j :| 0 <= j < |pre| && pre[j] == t;
      assert t[1..] == tails[j];
    }
    if |t| > 0 && t[0] == x && t[1..] in tails {
      var j :| 0 <= j < |tails| && tails[j] == t[1..];
      assert pre[j] == [t[0]] + t[1..] == t;
    }
  }

  lemma InTail<T>(s: seq<T>, x: T)
    requires |s| > 0
    ensures x in s <==> x == s[0] || x in s[1..]
  {
    if x in s && x != s[0] {
      var k :| 0 <= k < |s| && s[k] == x;
      assert s[1..][k - 1] == x;
    }
  }

  lemma {:induction false} ProductWithMember<T>(heads: seq<T>, tails: seq<seq<T>>, t: seq<T>)
    ensures t in ProductWith(heads, tails) <==> |t| > 0 && t[0] in heads && t[1..] in tails
    decreases |heads|
  {
    if |heads| > 0 {
      ProductWithMember(heads[1..], tails, t);
      PrependMember(heads[0], tails, t);
      if |t| > 0 {
        InTail(heads, t[0]);
      }
    }
  }

  /** A tuple is in the product exactly when each position draws from its own list. */
  lemma {:induction false} ProductMember<T>(ls: seq<seq<T>>, t: seq<T>)
    ensures t in Product(ls) <==> |t| == |ls| && forall j :: 0 <= j < |ls| ==> t[j] in ls[j]
    decreases |ls|
  {
    if |ls| == 0 {
      assert t in Product(ls) <==> t == [];
    } else {
      ProductWithMember(ls[0], Product(ls[1..]), t);
      if |t| > 0 {
        ProductMember(ls[1..], t[1..]);
        if |t| == |ls| && forall j :: 0 <= j < |ls| ==> t[j] in ls[j] {
          assert forall j :: 0 <= j < |ls| - 1 ==> t[1..][j] == t[j + 1] && ls[1..][j] == ls[j + 1];
        }
        if t in Product(ls) {
          forall j | 0 <= j < |ls|
            ensures t[j] in ls[j]
          {
            if j > 0 { assert t[1..][j - 1] == t[j]; }
          }
        }
      }
    }
  }

  /** `[x for x in s if p(x)]`. */
  function Filter<T>(p: T -> bool, s: seq<T>): (r: seq<T>)
    ensures |r| <= |s|
  {
    if |s| == 0 then [] else (if p(s[0]) then [s[0]] else []) + Filter(p, s[1..])
  }

  /** Filtering commutes with concatenation, so the kept elements stay in their order. */
  lemma {:induction false} FilterAppend<T>(p: T -> bool, a: seq<T>, b: seq<T>)
    ensures Filter(p, a + b) == Filter(p, a) + Filter(p, b)
    decreases |a|
  {
    if |a| > 0 {
      assert (a + b)[0] == a[0];
      assert (a + b)[1..] == a[1..] + b;
      FilterAppend(p, a[1..], b);
    } else {
      assert a + b == b;
    }
  }

  lemma {:induction false} FilterMember<T>(p: T -> bool, s: seq<T>, x: T)
    ensures x in Filter(p, s) <==> x in s && p(x)
    decreases |s|
  {
    if |s| > 0 {
      FilterMember(p, s[1..], x);
      assert x in s <==> x == s[0] || x in s[1..];
    }
  }
}
