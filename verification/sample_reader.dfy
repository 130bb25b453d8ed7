/**
 * Reading experiments back from a directory tree (`read_vtk_sample` and
 * `read_vtk_from_path` in `vtk_utils/vtk_data_utils.py`).
 *
 * The file system is the finite set of paths that are regular files, and
 * reading one snapshot file is an opaque function of its path.
 */
module SampleReader {
  import opened Text

  /** The file name prefix of every snapshot in an experiment directory. */
  const SnapshotPrefix: string := "IN1003d.vti."

  /** The path of snapshot `n` of the experiment in `dir`. */
  function SnapshotPath(dir: string, n: nat): string
  {
    JoinPath(dir, SnapshotPrefix + ShowNat(n))
  }

  /** Different time indices give different paths. */
  lemma SnapshotPathInjective(dir: string, m: nat, n: nat)
    requires SnapshotPath(dir, m) == SnapshotPath(dir, n)
    ensures m == n
  {
    var a, b := SnapshotPrefix + ShowNat(m), SnapshotPrefix + ShowNat(n);
    JoinPathRelative(dir, a);
    JoinPathRelative(dir, b);
    var k := |dir + PathSeparator(dir)|;
    assert a == SnapshotPath(dir, m)[k..];
    assert b == SnapshotPath(dir, n)[k..];
    assert ShowNat(m) == a[|SnapshotPrefix|..];
    assert ShowNat(n) == b[|SnapshotPrefix|..];
    ShowNatInjective(m, n);
  }

  /** The paths of snapshots `0 .. n-1`. */
  function PathsBelow(dir: string, n: nat): (r: set<string>)
    ensures forall i :: 0 <= i < n ==> SnapshotPath(dir, i) in r
  {
    if n == 0 then {} else PathsBelow(dir, n - 1) + {SnapshotPath(dir, n - 1)}
  }

  lemma {:induction false} PathsBelowSize(dir: string, n: nat)
    ensures |PathsBelow(dir, n)| == n
  {
    if n > 0 {
      PathsBelowSize(dir, n - 1);
      if SnapshotPath(dir, n - 1) in PathsBelow(dir, n - 1) {
        var i := PathsBelowWitness(dir, n - 1, SnapshotPath(dir, n - 1));
        SnapshotPathInjective(dir, i, n - 1);
      }
    }
  }

  lemma {:induction false} PathsBelowWitness(dir: string, n: nat, p: string) returns (i: nat)
    requires p in PathsBelow(dir, n)
    ensures i < n && p == SnapshotPath(dir, i)
  {
    if p == SnapshotPath(dir, n - 1) {
      i := n - 1;
    } else {
      i := PathsBelowWitness(dir, n - 1, p);
    }
  }

  /**
   * `sample` is what `read_vtk_sample(dir)` returns: the snapshots
   * `0 .. k-1` read in index order, where `k` is the first index with no file.
   */
  ghost predicate IsSample<G>(files: set<string>, read: string -> G, dir: string, sample: seq<G>)
  {
    && (forall i :: 0 <= i < |sample| ==> SnapshotPath(dir, i) in files && sample[i] == read(SnapshotPath(dir, i)))
    && SnapshotPath(dir, |sample|) !in files
  }

  /** `read_vtk_sample(dir)`: probes consecutive indices from 0 and stops at the first missing file. */
  method ReadVtkSample<G>(files: set<string>, read: string -> G, dir: string) returns (sample: seq<G>)
    ensures |sample| <= |files|
    ensures forall i :: 0 <= i < |sample| ==> SnapshotPath(dir, i) in files && sample[i] == read(SnapshotPath(dir, i))
    ensures SnapshotPath(dir, |sample|) !in files
    ensures forall g: nat :: SnapshotPath(dir, g) !in files ==> |sample| <= g
  {
    sample := [];
    var n := 0;
    while SnapshotPath(dir, n) in files
      invariant n == |sample|
      invariant PathsBelow(dir, n) <= files
      invariant forall i :: 0 <= i < n ==> sample[i] == read(SnapshotPath(dir, i))
      decreases |files| - n
    {
      PathsBelowSize(dir, n);
      PathsBelowSize(dir, n + 1);
      assert PathsBelow(dir, n + 1) <= files;
      SubsetSize(PathsBelow(dir, n + 1), files);
      sample := sample + [read(SnapshotPath(dir, n))];
      n := n + 1;
    }
    PathsBelowSize(dir, n);
    SubsetSize(PathsBelow(dir, n), files);
  }

  lemma SubsetSize<T>(a: set<T>, b: set<T>)
    requires a <= b
    ensures |a| <= |b|
  {
    assert b == a + (b - a);
  }

  /** Any two samples of the same directory agree: the probe result is determined by the files present. */
  lemma SampleIsUnique<G>(files: set<string>, read: string -> G, dir: string, s: seq<G>, t: seq<G>)
    requires IsSample(files, read, dir, s) && IsSample(files, read, dir, t)
    ensures s == t
  {
    var m := if |s| < |t| then |s| else |t|;
    assert SnapshotPath(dir, m) !in files;
  }

  /** The experiment directories a manifest names: each line stripped and joined to `dataPath`, in file order. */
  function ManifestDirs(dataPath: string, configText: string): (dirs: seq<string>)
    ensures |dirs| == |Lines(configText)|
    ensures forall i :: 0 <= i < |dirs| ==> dirs[i] == JoinPath(dataPath, Strip(Lines(configText)[i]))
  {
    var lines := Lines(configText);
    seq(|lines|, i requires 0 <= i < |lines| => JoinPath(dataPath, Strip(lines[i])))
  }

  /** One sample per directory, in order. */
  method ReadSamples<G>(files: set<string>, read: string -> G, dirs: seq<string>) returns (samples: seq<seq<G>>)
    ensures |samples| == |dirs|
    ensures forall i :: 0 <= i < |samples| ==> IsSample(files, read, dirs[i], samples[i])
  {
    samples := [];
    for i := 0 to |dirs|
      invariant |samples| == i
      invariant forall j :: 0 <= j < i ==> IsSample(files, read, dirs[j], samples[j])
    {
      var sample := ReadVtkSample(files, read, dirs[i]);
      assert IsSample(files, read, dirs[i], sample);
      samples := samples + [sample];
    }
  }

  /**
   * `read_vtk_from_path(dataPath, configText)`: one sample per line of the
   * manifest, in file order, each from the directory named by the stripped line.
   */
  method ReadVtkFromPath<G>(files: set<string>, read: string -> G, dataPath: string, configText: string)
    returns (samples: seq<seq<G>>)
    ensures |samples| == |Lines(configText)|
    ensures forall i :: 0 <= i < |samples| ==>
              IsSample(files, read, JoinPath(dataPath, Strip(Lines(configText)[i])), samples[i])
  {
    var dirs := ManifestDirs(dataPath, configText);
    samples := ReadSamples(files, read, dirs);
  }
}
