/**
 * The archive walk of `vtk_utils/vtk_tar_utils.py`: counting experiment
 * directories, recovering a snapshot's time index from its member name, and
 * flushing one directory's snapshots into the length-bucketed dataset.
 *
 * The gzip/tar decoding is not modelled: an archive is the finite list of
 * members the sequential walk yields, plus how the walk ended.
 */
module TarUtils {
  import opened Wrappers
  import opened Text

  /** One archive member as `tar.next()` yields it. */
  datatype Member = Member(name: string, isDir: bool, content: seq<bv8>)

  /** How the walk over the compressed stream ended. */
  datatype StreamEnd =
    | Completed   // `tar.next()` returned `None`
    | Truncated   // `EOFError`: the stream ends in the middle of a member
    | Unreadable  // `tarfile.ReadError`, raised by `tarfile.open` or by a later header

  /** The members read before the walk ended, in stream order. */
  datatype Archive = Archive(members: seq<Member>, end: StreamEnd)

  /** What `count_folders_in_tar` returns, and the manifest it writes, if any. */
  datatype ScanResult = ScanResult(count: nat, manifest: Option<string>)

  /** The literal that introduces a snapshot's time index in a member name. */
  const SnapshotMarker: string := ".vti."

  /** The final path component of every directory member, in encounter order. */
  function DirectoryNames(members: seq<Member>): seq<string>
  {
    if |members| == 0 then []
    else (if members[0].isDir then [LastPart(members[0].name, '/')] else []) + DirectoryNames(members[1..])
  }

  lemma {:induction false} DirectoryNamesAppend(members: seq<Member>, m: Member)
    ensures DirectoryNames(members + [m])
         == DirectoryNames(members) + (if m.isDir then [LastPart(m.name, '/')] else [])
    decreases |members|
  {
    if |members| == 0 {
      assert members + [m] == [m];
    } else {
      assert (members + [m])[0] == members[0];
      assert (members + [m])[1..] == members[1..] + [m];
      DirectoryNamesAppend(members[1..], m);
    }
  }

  /** The number of directory members. */
  function CountDirectories(members: seq<Member>): nat
  {
    if |members| == 0 then 0 else (if members[0].isDir then 1 else 0) + CountDirectories(members[1..])
  }

  /** One recorded name per directory member, each free of `/` and a suffix of the member name. */
  lemma {:induction false} DirectoryNamesShape(members: seq<Member>)
    ensures |DirectoryNames(members)| == CountDirectories(members)
    ensures forall k :: 0 <= k < |DirectoryNames(members)| ==> '/' !in DirectoryNames(members)[k]
    decreases |members|
  {
    if |members| > 0 {
      DirectoryNamesShape(members[1..]);
    }
  }

  /**
   * `count_folders_in_tar`: walks the members once, counting directories and
   * recording their last path component; the manifest (each name followed by a
   * tab and a newline) is written only when the walk completes. A truncated or
   * unreadable stream returns the count reached so far and writes nothing.
   */
  method CountFoldersInTar(archive: Archive) returns (r: ScanResult)
    ensures r.count == CountDirectories(archive.members)
    ensures r.manifest.Some? <==> archive.end == Completed
    ensures r.manifest.Some? ==> r.manifest.value == TabLines(DirectoryNames(archive.members))
  {
    var names: seq<string> := [];
    var n: nat := 0;
    var i := 0;
    while i < |archive.members|
      invariant 0 <= i <= |archive.members|
      invariant names == DirectoryNames(archive.members[..i])
      invariant n == |names|
    {
      var member := archive.members[i];
      DirectoryNamesAppend(archive.members[..i], member);
      assert archive.members[..i + 1] == archive.members[..i] + [member];
      if member.isDir {
        var caseName := LastPart(member.name, '/');
        names := names + [caseName];
        n := n + 1;
      }
      i := i + 1;
    }
    assert archive.members[..i] == archive.members;
    DirectoryNamesShape(archive.members);
    if archive.end == Completed {
      r := ScanResult(n, Some(TabLines(names)));
    } else {
      r := ScanResult(n, None);
    }
  }

  /** The time index `process_file` reads from a member name: `int` of the group in `\.vti\.(\d+)`. */
  function TimeIndex(name: string): Option<nat>
  {
    SearchInt(name, SnapshotMarker)
  }

  lemma TimeIndexExamples()
    ensures TimeIndex("case1/IN1003d.vti.7") == Some(7)
    ensures TimeIndex("case1/notes.txt") == None
  {
    SnapshotNameExample();
    OtherNameExample();
  }

  lemma SnapshotNameExample()
    ensures TimeIndex("case1/IN1003d.vti.7") == Some(7)
  {
    var s := "case1/IN1003d.vti.7";
    assert s[..13] == "case1/IN1003d";
    NoMatchBefore(s, SnapshotMarker, 13);
    assert s[13..18] == SnapshotMarker;
    assert s[18..19] == "7";
    SearchIntSpec(s, SnapshotMarker, 13, "7");
    assert "7"[..0] == "";
    assert DigitsValue("7") == 7;
    assert TimeIndex(s) == SearchInt(s, SnapshotMarker);
  }

  lemma OtherNameExample()
    ensures TimeIndex("case1/notes.txt") == None
  {
    var s := "case1/notes.txt";
    assert s[..10] == "case1/note";
    NoMatchBefore(s, SnapshotMarker, 10);
    NoMatchFrom(s, SnapshotMarker, 0);
  }

  /** What `process_file` produces: the snapshot (or `None`), and the temporary files it leaves behind. */
  datatype Extraction<G> = Extraction(outcome: Result<Option<(nat, G)>, string>, tempFiles: seq<seq<bv8>>)

  /**
   * `process_file`: a member whose name carries `.vti.<digits>` is copied to a
   * temporary file (never deleted) and decoded by `read`; decode errors
   * propagate. Any other member yields `None` without extracting or reading.
   */
  function ProcessFile<G>(member: Member, read: seq<bv8> -> Result<G, string>): (r: Extraction<G>)
    ensures TimeIndex(member.name).None? ==> r.outcome == Success(None) && r.tempFiles == []
    ensures TimeIndex(member.name).Some? ==> r.tempFiles == [member.content]
    ensures TimeIndex(member.name).Some? && read(member.content).Success? ==>
      r.outcome == Success(Some((TimeIndex(member.name).value, read(member.content).value)))
    ensures TimeIndex(member.name).Some? && read(member.content).Failure? ==>
      r.outcome == Failure(read(member.content).error)
  {
    match TimeIndex(member.name)
    case None => Extraction(Success(None), [])
    case Some(n) =>
      var tempFile := member.content;
      match read(tempFile)
      case Success(instance) => Extraction(Success(Some((n, instance))), [tempFile])
      case Failure(e) => Extraction(Failure(e), [tempFile])
  }

  // ----- process_directory: stable sort by time index, then bucket by length -----

  predicate SortedByIndex<G>(s: seq<(nat, G)>)
  {
    forall i, j :: 0 <= i < j < |s| ==> s[i].0 <= s[j].0
  }

  /** The snapshots of `s` whose index is `k`, in their order in `s`. */
  function WithIndex<G>(s: seq<(nat, G)>, k: nat): seq<(nat, G)>
  {
    if |s| == 0 then [] else (if s[0].0 == k then [s[0]] else []) + WithIndex(s[1..], k)
  }

  /** Places `x` before the first element whose index is not smaller. */
  function InsertByIndex<G>(x: (nat, G), s: seq<(nat, G)>): seq<(nat, G)>
  {
    if |s| == 0 || x.0 <= s[0].0 then [x] + s else [s[0]] + InsertByIndex(x, s[1..])
  }

  /** `sorted(s, key=lambda x: x[0])`, a stable sort. */
  function SortByIndex<G>(s: seq<(nat, G)>): seq<(nat, G)>
  {
    if |s| == 0 then [] else InsertByIndex(s[0], SortByIndex(s[1..]))
  }

  /** The instances of a sorted buffer, indices dropped. */
  function Instances<G>(s: seq<(nat, G)>): (r: seq<G>)
    ensures |r| == |s|
    ensures forall i :: 0 <= i < |s| ==> r[i] == s[i].1
  {
    if |s| == 0 then [] else [s[0].1] + Instances(s[1..])
  }

  lemma {:induction false} InsertSorted<G>(x: (nat, G), s: seq<(nat, G)>)
    requires SortedByIndex(s)
    ensures SortedByIndex(InsertByIndex(x, s))
    ensures |InsertByIndex(x, s)| == |s| + 1
    ensures forall i :: 0 <= i < |InsertByIndex(x, s)| ==>
      InsertByIndex(x, s)[i] == x || InsertByIndex(x, s)[i] in s
    decreases |s|
  {
    if |s| > 0 && x.0 > s[0].0 {
      InsertSorted(x, s[1..]);
      var rest := InsertByIndex(x, s[1..]);
      forall i | 0 <= i < |rest|
        ensures s[0].0 <= rest[i].0
      {
        if rest[i] != x {
          var k :| 0 <= k < |s[1..]| && s[1..][k] == rest[i];
          assert s[k + 1] == rest[i];
        }
      }
      forall i | 0 <= i < |rest|
        ensures rest[i] == x || rest[i] in s
      {
        if rest[i] != x {
          var k :| 0 <= k < |s[1..]| && s[1..][k] == rest[i];
          assert s[k + 1] == rest[i];
        }
      }
    }
  }

  lemma {:induction false} InsertWithIndex<G>(x: (nat, G), s: seq<(nat, G)>, k: nat)
    ensures WithIndex(InsertByIndex(x, s), k)
         == (if x.0 == k then [x] else []) + WithIndex(s, k)
    decreases |s|
  {
    if |s| == 0 || x.0 <= s[0].0 {
      WithIndexCons(x, s, k);
    } else {
      var t := InsertByIndex(x, s[1..]);
      InsertWithIndex(x, s[1..], k);
      WithIndexCons(s[0], t, k);
      WithIndexCons(s[0], s[1..], k);
      assert [s[0]] + s[1..] == s;
    }
  }

  lemma WithIndexCons<G>(y: (nat, G), t: seq<(nat, G)>, k: nat)
    ensures WithIndex([y] + t, k) == (if y.0 == k then [y] else []) + WithIndex(t, k)
  {
    assert ([y] + t)[1..] == t;
  }

  lemma {:induction false} InsertMultiset<G>(x: (nat, G), s: seq<(nat, G)>)
    ensures multiset(InsertByIndex(x, s)) == multiset([x] + s)
    decreases |s|
  {
    if |s| > 0 && x.0 > s[0].0 {
      InsertMultiset(x, s[1..]);
      assert s == [s[0]] + s[1..];
    }
  }

  /** The sort returns an ascending permutation of the buffer. */
  lemma {:induction false} SortIsSortedPermutation<G>(s: seq<(nat, G)>)
    ensures SortedByIndex(SortByIndex(s))
    ensures multiset(SortByIndex(s)) == multiset(s)
    ensures |SortByIndex(s)| == |s|
    decreases |s|
  {
    if |s| > 0 {
      SortIsSortedPermutation(s[1..]);
      InsertSorted(s[0], SortByIndex(s[1..]));
      InsertMultiset(s[0], SortByIndex(s[1..]));
      assert s == [s[0]] + s[1..];
    }
  }

  /** Stability: snapshots sharing an index keep their buffer order. */
  lemma {:induction false} SortIsStable<G>(s: seq<(nat, G)>, k: nat)
    ensures WithIndex(SortByIndex(s), k) == WithIndex(s, k)
    decreases |s|
  {
    if |s| > 0 {
      SortIsStable(s[1..], k);
      InsertWithIndex(s[0], SortByIndex(s[1..]), k);
    }
  }

  lemma {:induction false} WithIndexEmpty<G>(s: seq<(nat, G)>, k: nat)
    requires WithIndex(s, k) == []
    ensures forall i :: 0 <= i < |s| ==> s[i].0 != k
    decreases |s|
  {
    if |s| > 0 {
      WithIndexEmpty(s[1..], k);
      assert forall i :: 1 <= i < |s| ==> s[i] == s[1..][i - 1];
    }
  }

  lemma {:induction false} WithIndexOfHead<G>(s: seq<(nat, G)>)
    requires |s| > 0
    ensures WithIndex(s, s[0].0) != []
  {
  }

  /**
   * A sorted sequence is determined by its per-index subsequences: two sorted
   * sequences that agree on `WithIndex` for every index are equal.
   */
  /** Under equal index groups, a sorted `b` cannot start above the first index of `a`. */
  lemma {:induction false} HeadIndexBound<G>(a: seq<(nat, G)>, b: seq<(nat, G)>)
    requires SortedByIndex(b) && |a| > 0
    requires forall k :: WithIndex(a, k) == WithIndex(b, k)
    ensures |b| > 0 && b[0].0 <= a[0].0
  {
    WithIndexOfHead(a);
    WithIndexNonEmpty(b, a[0].0);
  }

  lemma {:induction false} SortedDeterminedByIndexGroups<G>(a: seq<(nat, G)>, b: seq<(nat, G)>)
    requires SortedByIndex(a) && SortedByIndex(b)
    requires forall k :: WithIndex(a, k) == WithIndex(b, k)
    ensures a == b
    decreases |a| + |b|
  {
    if |a| > 0 || |b| > 0 {
      if |a| > 0 {
        HeadIndexBound(a, b);
        HeadIndexBound(b, a);
      } else {
        HeadIndexBound(b, a);
        HeadIndexBound(a, b);
      }
      var k0 := a[0].0;
      assert WithIndex(a, k0)[0] == a[0];
      assert WithIndex(b, k0)[0] == b[0];
      forall k
        ensures WithIndex(a[1..], k) == WithIndex(b[1..], k)
      {
        var h := if a[0].0 == k then [a[0]] else [];
        assert WithIndex(a, k) == h + WithIndex(a[1..], k);
        assert WithIndex(b, k) == h + WithIndex(b[1..], k);
        assert WithIndex(a[1..], k) == WithIndex(a, k)[|h|..];
        assert WithIndex(b[1..], k) == WithIndex(b, k)[|h|..];
      }
      SortedDeterminedByIndexGroups(a[1..], b[1..]);
      assert a == [a[0]] + a[1..] && b == [b[0]] + b[1..];
    }
  }

  lemma {:induction false} WithIndexNonEmpty<G>(s: seq<(nat, G)>, k: nat)
    requires WithIndex(s, k) != []
    ensures exists i :: 0 <= i < |s| && s[i].0 == k
    decreases |s|
  {
    if s[0].0 != k {
      WithIndexNonEmpty(s[1..], k);
      var i :| 0 <= i < |s[1..]| && s[1..][i].0 == k;
      assert s[i + 1].0 == k;
    }
  }

  /** Every snapshot carries a different index. */
  predicate DistinctIndices<G>(s: seq<(nat, G)>)
  {
    forall i, j :: 0 <= i < j < |s| ==> s[i].0 != s[j].0
  }

  lemma {:induction false} WithIndexMultiset<G>(s: seq<(nat, G)>, k: nat, x: (nat, G))
    ensures multiset(WithIndex(s, k))[x] == if x.0 == k then multiset(s)[x] else 0
    decreases |s|
  {
    if |s| > 0 {
      WithIndexMultiset(s[1..], k, x);
      assert s == [s[0]] + s[1..];
    }
  }

  lemma {:induction false} WithIndexAbsent<G>(s: seq<(nat, G)>, k: nat)
    requires forall i :: 0 <= i < |s| ==> s[i].0 != k
    ensures WithIndex(s, k) == []
    decreases |s|
  {
    if |s| > 0 {
      WithIndexAbsent(s[1..], k);
    }
  }

  lemma {:induction false} WithIndexAtMostOne<G>(s: seq<(nat, G)>, k: nat)
    requires DistinctIndices(s)
    ensures |WithIndex(s, k)| <= 1
    decreases |s|
  {
    if |s| > 0 {
      assert DistinctIndices(s[1..]);
      WithIndexAtMostOne(s[1..], k);
      if s[0].0 == k {
        forall i | 0 <= i < |s[1..]|
          ensures s[1..][i].0 != k
        {
          assert s[1..][i] == s[i + 1];
        }
        WithIndexAbsent(s[1..], k);
      }
    }
  }

  lemma MultisetExtensional<T>(a: seq<T>, b: seq<T>)
    requires forall x :: multiset(a)[x] == multiset(b)[x]
    ensures multiset(a) == multiset(b)
  {
  }

  lemma {:induction false} DistinctIndicesOfPermutation<G>(a: seq<(nat, G)>, b: seq<(nat, G)>)
    requires multiset(a) == multiset(b) && DistinctIndices(a)
    ensures forall k :: WithIndex(a, k) == WithIndex(b, k)
  {
    forall k
      ensures WithIndex(a, k) == WithIndex(b, k)
    {
      WithIndexAtMostOne(a, k);
      var wa, wb := WithIndex(a, k), WithIndex(b, k);
      forall x
        ensures multiset(wa)[x] == multiset(wb)[x]
      {
        WithIndexMultiset(a, k, x);
        WithIndexMultiset(b, k, x);
      }
      MultisetExtensional(wa, wb);
      assert |wb| == |multiset(wb)| == |multiset(wa)| == |wa|;
      if |wa| == 1 {
        assert wa[0] in multiset(wb);
        assert wb == [wb[0]];
        assert wa[0] == wb[0];
      }
    }
  }

  /**
   * The reconstructed order does not depend on the archive's listing order:
   * when a directory's snapshots carry distinct indices, any permutation of
   * the buffer sorts to the same sequence.
   */
  lemma {:induction false} SortIgnoresEncounterOrder<G>(a: seq<(nat, G)>, b: seq<(nat, G)>)
    requires multiset(a) == multiset(b)
    requires DistinctIndices(a)
    ensures SortByIndex(a) == SortByIndex(b)
  {
    SortIsSortedPermutation(a);
    SortIsSortedPermutation(b);
    DistinctIndicesOfPermutation(a, b);
    forall k
      ensures WithIndex(SortByIndex(a), k) == WithIndex(SortByIndex(b), k)
    {
      SortIsStable(a, k);
      SortIsStable(b, k);
    }
    SortedDeterminedByIndexGroups(SortByIndex(a), SortByIndex(b));
  }

  /** A dataset: sequence length to the sequences of that length, in encounter order. */
  type Dataset<G> = map<nat, seq<seq<G>>>

  /** Every sequence stored under key `L` has length `L`. */
  predicate WellBucketed<G>(d: Dataset<G>)
  {
    forall L :: L in d ==> forall k :: 0 <= k < |d[L]| ==> |d[L][k]| == L
  }

  /** The reset buffer and the updated dataset `process_directory` returns. */
  datatype Flushed<G> = Flushed(buffer: seq<(nat, G)>, dataset: Dataset<G>)

  /**
   * `process_directory`: sorts the buffer by time index, drops the indices,
   * appends the sequence to the bucket keyed by the buffer's length (creating
   * the bucket if absent), and returns an empty buffer.
   */
  function ProcessDirectory<G>(buffer: seq<(nat, G)>, dataset: Dataset<G>): (r: Flushed<G>)
    ensures r.buffer == []
    ensures r.dataset.Keys == dataset.Keys + {|buffer|}
    ensures |buffer| in dataset ==> r.dataset[|buffer|] == dataset[|buffer|] + [Instances(SortByIndex(buffer))]
    ensures |buffer| !in dataset ==> r.dataset[|buffer|] == [Instances(SortByIndex(buffer))]
    ensures forall L :: L in dataset && L != |buffer| ==> r.dataset[L] == dataset[L]
  {
    var sampleCount := |buffer|;
    var sortedInstances := Instances(SortByIndex(buffer));
    var updated :=
      if sampleCount in dataset then dataset[sampleCount := dataset[sampleCount] + [sortedInstances]]
      else dataset[sampleCount := [sortedInstances]];
    Flushed([], updated)
  }

  /** Flushing a directory keeps every bucket's sequences at the bucket's length. */
  lemma ProcessDirectoryKeepsBuckets<G>(buffer: seq<(nat, G)>, dataset: Dataset<G>)
    requires WellBucketed(dataset)
    ensures WellBucketed(ProcessDirectory(buffer, dataset).dataset)
  {
    SortIsSortedPermutation(buffer);
  }

  /** The flushed sequence holds the buffer's instances, sorted by time index. */
  lemma ProcessDirectoryEmitsSorted<G>(buffer: seq<(nat, G)>, dataset: Dataset<G>)
    ensures var d := ProcessDirectory(buffer, dataset).dataset;
      var emitted := d[|buffer|][|d[|buffer|]| - 1];
      && |emitted| == |buffer|
      && exists sorted: seq<(nat, G)> ::
           && SortedByIndex(sorted) && multiset(sorted) == multiset(buffer)
           && (forall k :: WithIndex(sorted, k) == WithIndex(buffer, k))
           && emitted == Instances(sorted)
  {
    var sorted := SortByIndex(buffer);
    SortIsSortedPermutation(buffer);
    forall k
      ensures WithIndex(sorted, k) == WithIndex(buffer, k)
    {
      SortIsStable(buffer, k);
    }
  }

  /**
   * A directory listed as `f.vti.2`, `f.vti.0`, `f.vti.1` followed by one
   * holding only `g.vti.0` gives `{3: [[g0, g1, g2]], 1: [[h0]]}`.
   */
  lemma TwoDirectoryScenario(g0: int, g1: int, g2: int, h0: int)
    ensures var first := ProcessDirectory([(2, g2), (0, g0), (1, g1)], map[]);
      var second := ProcessDirectory([(0, h0)], first.dataset);
      second.dataset == map[3 := [[g0, g1, g2]], 1 := [[h0]]] && second.buffer == []
  {
    var buffer := [(2, g2), (0, g0), (1, g1)];
    assert buffer[1..][1..] == [(1, g1)];
    assert SortByIndex([(1, g1)]) == [(1, g1)];
    assert SortByIndex(buffer[1..]) == InsertByIndex((0, g0), [(1, g1)]) == [(0, g0), (1, g1)];
    assert InsertByIndex((2, g2), [(1, g1)]) == [(1, g1), (2, g2)];
    assert InsertByIndex((2, g2), [(0, g0), (1, g1)]) == [(0, g0), (1, g1), (2, g2)];
    assert SortByIndex(buffer) == [(0, g0), (1, g1), (2, g2)];
    assert Instances(SortByIndex(buffer)) == [g0, g1, g2];
    assert SortByIndex([(0, h0)]) == [(0, h0)];
    var first := ProcessDirectory(buffer, map[]);
    assert first.dataset == map[3 := [[g0, g1, g2]]];
    assert Instances(SortByIndex([(0, h0)])) == [h0];
    var second := ProcessDirectory([(0, h0)], first.dataset);
    assert second.dataset.Keys == {3, 1};
    assert second.dataset == map[3 := [[g0, g1, g2]], 1 := [[h0]]];
  }
}
