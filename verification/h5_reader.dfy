/**
 * Frame-range arithmetic of `H5_Handler` in `vtk_utils/h5_reader.py`: an
 * HDF5 file stores the frames of consecutive experiments back to back, each
 * experiment `L` frames long, with `L` taken from the file name.
 *
 * The `images` dataset is the sequence of frames; h5py is not modelled.
 */
module H5Reader {
  import opened Wrappers
  import opened Text
  import opened Seqs

  /** The literal that introduces the experiment length in a file name. */
  const LengthMarker: string := "len_"

  /** An `H5_Handler`: the file path and the experiment length parsed from it at construction. */
  datatype Handler = Handler(filePath: string, experimentsLength: Option<nat>)

  /** Why a handler method raised. */
  datatype H5Error =
    | NoLength     // `experiments_length` is `None`: `TypeError` on `*` or `//`
    | ZeroLength   // `experiments_length` is 0: `ZeroDivisionError` on `//`

  /** `H5_Handler.extract_length(filename)`: the argument is ignored, the handler's own path is searched. */
  function ExtractLength(h: Handler, filename: string): Option<nat>
  {
    SearchInt(h.filePath, LengthMarker)
  }

  /** `H5_Handler(filePath)`. */
  function NewHandler(filePath: string): (h: Handler)
    ensures h.filePath == filePath
    ensures h.experimentsLength == ExtractLength(h, filePath)
  {
    Handler(filePath, SearchInt(filePath, LengthMarker))
  }

  /** Whatever file name is passed, the length comes from the handler's path. */
  lemma ExtractLengthIgnoresArgument(h: Handler, f: string, g: string)
    ensures ExtractLength(h, f) == ExtractLength(h, g)
  {
  }

  /** The default experiment file gives length 28; a name without `len_<digits>` gives none. */
  lemma ExtractLengthExamples()
    ensures NewHandler("exp_6_len_28_2D.h5").experimentsLength == Some(28)
    ensures NewHandler("exp_6_2D.h5").experimentsLength == None
  {
    DefaultFileLength();
    NoLengthInName();
  }

  lemma DefaultFileLength()
    ensures NewHandler("exp_6_len_28_2D.h5").experimentsLength == Some(28)
  {
    var s := "exp_6_len_28_2D.h5";
    LengthMarkerInDefault();
    DigitsOf28();
    SearchIntSpec(s, LengthMarker, 6, "28");
  }

  /** In the default file name the first `len_` followed by a digit is at 6, and `28_` follows it. */
  lemma LengthMarkerInDefault()
    ensures var s := "exp_6_len_28_2D.h5";
      && MatchAt(s, LengthMarker, 6) && (forall j :: 0 <= j < 6 ==> !MatchAt(s, LengthMarker, j))
      && s[10..12] == "28" && s[12] == '_'
  {
    var s := "exp_6_len_28_2D.h5";
    assert s[..6] == "exp_6_";
    NoMatchBefore(s, LengthMarker, 6);
    assert s[6..10] == LengthMarker;
    assert s[10..12] == "28";
  }

  lemma DigitsOf28()
    ensures AllDigits("28") && DigitsValue("28") == 28
  {
    assert "28"[..1] == "2" && "2"[..0] == "";
  }

  lemma NoLengthInName()
    ensures NewHandler("exp_6_2D.h5").experimentsLength == None
  {
    var u := "exp_6_2D.h5";
    assert u[..|u|] == u;
    NoMatchBefore(u, LengthMarker, |u|);
    NoMatchFrom(u, LengthMarker, 0);
  }

  /** `dataset[start:end]` for `0 <= start <= end`: bounds past the end are clamped. */
  function Slice<F>(frames: seq<F>, start: nat, end: nat): (r: seq<F>)
    requires start <= end
    ensures |r| <= end - start
    ensures end <= |frames| ==> r == frames[start..end]
    ensures start < |frames| <= end ==> r == frames[start..]
    ensures start >= |frames| ==> r == []
  {
    var lo := if start < |frames| then start else |frames|;
    var hi := if end < |frames| then end else |frames|;
    frames[lo..hi]
  }

  /** `H5_Handler.load_experiment(videoIdx)`: frames `[videoIdx * L, videoIdx * L + L)`. */
  function LoadExperiment<F>(h: Handler, frames: seq<F>, videoIdx: nat): (r: Result<seq<F>, H5Error>)
    ensures r.Failure? <==> h.experimentsLength.None?
    ensures r.Failure? ==> r.error == NoLength
    ensures r.Success? ==> |r.value| <= h.experimentsLength.value
  {
    match h.experimentsLength
    case None => Failure(NoLength)
    case Some(len) =>
      var startIdx := videoIdx * len;
      var endIdx := startIdx + len;
      Success(Slice(frames, startIdx, endIdx))
  }

  /**
   * The frames an experiment reads, clamped as h5py clamps a slice: all `L`
   * when they fit, the tail of the file when it ends inside them, and
   * nothing when the experiment starts past the end.
   */
  lemma LoadExperimentFrames<F>(h: Handler, frames: seq<F>, videoIdx: nat, start: nat)
    requires h.experimentsLength.Some?
    requires start == videoIdx * h.experimentsLength.value
    ensures var end := start + h.experimentsLength.value;
      && (end <= |frames| ==> LoadExperiment(h, frames, videoIdx) == Success(frames[start..end]))
      && (start < |frames| < end ==> LoadExperiment(h, frames, videoIdx) == Success(frames[start..]))
      && (|frames| <= start ==> LoadExperiment(h, frames, videoIdx) == Success([]))
  {
  }

  /** `H5_Handler.get_total_experiments()` on a file of `frameCount` frames. */
  function GetTotalExperiments(h: Handler, frameCount: nat): (r: Result<nat, H5Error>)
    ensures r.Failure? <==> h.experimentsLength.None? || h.experimentsLength == Some(0)
    ensures h.experimentsLength.None? ==> r == Failure(NoLength)
    ensures h.experimentsLength == Some(0) ==> r == Failure(ZeroLength)
    ensures r.Success? ==> r.value * h.experimentsLength.value <= frameCount
                           < (r.value + 1) * h.experimentsLength.value
  {
    match h.experimentsLength
    case None => Failure(NoLength)
    case Some(len) => if len == 0 then Failure(ZeroLength) else Success(frameCount / len)
  }

  /** Consecutive experiments occupy adjacent, disjoint frame ranges. */
  lemma ExperimentsAdjacent<F>(h: Handler, frames: seq<F>, i: nat)
    requires h.experimentsLength.Some?
    requires i * h.experimentsLength.value + 2 * h.experimentsLength.value <= |frames|
    ensures var len := h.experimentsLength.value;
      LoadExperiment(h, frames, i).value + LoadExperiment(h, frames, i + 1).value
        == frames[i * len..i * len + 2 * len]
  {
    var len := h.experimentsLength.value;
    assert (i + 1) * len == i * len + len;
    LoadExperimentFrames(h, frames, i, i * len);
    LoadExperimentFrames(h, frames, i + 1, i * len + len);
  }

  /** Every experiment index below the total lies wholly inside the file and reads exactly `L` frames. */
  lemma ExperimentInRange<F>(h: Handler, frames: seq<F>, i: nat)
    requires GetTotalExperiments(h, |frames|).Success?
    requires i < GetTotalExperiments(h, |frames|).value
    ensures var len := h.experimentsLength.value;
      && (i + 1) * len <= |frames|
      && LoadExperiment(h, frames, i) == Success(frames[i * len..i * len + len])
      && |LoadExperiment(h, frames, i).value| == len
  {
    var len := h.experimentsLength.value;
    var total := GetTotalExperiments(h, |frames|).value;
    MulMonotone(i + 1, total, len);
    assert (i + 1) * len == i * len + len;
  }

  /**
   * Past the last whole experiment, index `total` reads the leftover
   * frames, fewer than `L` of them, and every later index reads nothing.
   */
  lemma ExperimentsPastTotal<F>(h: Handler, frames: seq<F>, i: nat)
    requires GetTotalExperiments(h, |frames|).Success?
    requires i >= GetTotalExperiments(h, |frames|).value
    ensures var len := h.experimentsLength.value;
      var total := GetTotalExperiments(h, |frames|).value;
      && (i == total ==> LoadExperiment(h, frames, i) == Success(frames[total * len..])
                         && |LoadExperiment(h, frames, i).value| < len)
      && (i > total ==> LoadExperiment(h, frames, i) == Success([]))
  {
    var len := h.experimentsLength.value;
    var total := GetTotalExperiments(h, |frames|).value;
    assert (total + 1) * len == total * len + len;
    LoadExperimentFrames(h, frames, i, i * len);
    if i > total {
      MulMonotone(total + 1, i, len);
    }
  }

  /** With 30 frames and experiments of 28, experiment 1 is the two leftover frames. */
  lemma PartialExperimentExample()
    ensures LoadExperiment(Handler("exp_len_28.h5", Some(28)), seq(30, i => i), 1) == Success([28, 29])
  {
    var frames := seq(30, i => i);
    assert frames[28..] == [28, 29];
  }

  lemma MulMonotone(a: nat, b: nat, c: nat)
    requires a <= b
    ensures a * c <= b * c
  {
  }

  /** The first `n` experiments, in index order. */
  function Experiments<F>(h: Handler, frames: seq<F>, n: nat): (r: seq<seq<F>>)
    requires h.experimentsLength.Some?
    ensures |r| == n
  {
    if n == 0 then [] else Experiments(h, frames, n - 1) + [LoadExperiment(h, frames, n - 1).value]
  }

  /** Loading every experiment in turn reads the frames back in order, up to the last whole experiment. */
  lemma {:induction false} ExperimentsCoverFrames<F>(h: Handler, frames: seq<F>)
    requires GetTotalExperiments(h, |frames|).Success?
    ensures var len := h.experimentsLength.value;
      var total := GetTotalExperiments(h, |frames|).value;
      Flatten(Experiments(h, frames, total)) == frames[..total * len]
  {
    var total := GetTotalExperiments(h, |frames|).value;
    ExperimentsPrefix(h, frames, total);
  }

  lemma {:induction false} ExperimentsPrefix<F>(h: Handler, frames: seq<F>, n: nat)
    requires h.experimentsLength.Some?
    requires n * h.experimentsLength.value <= |frames|
    ensures Flatten(Experiments(h, frames, n)) == frames[..n * h.experimentsLength.value]
  {
    if n > 0 {
      var len := h.experimentsLength.value;
      ExperimentsStep(h, frames, n);
      ExperimentsPrefix(h, frames, n - 1);
      PrefixConcat(frames, (n - 1) * len, n * len);
    }
  }

  lemma PrefixConcat<F>(s: seq<F>, a: nat, b: nat)
    requires a <= b <= |s|
    ensures s[..a] + s[a..b] == s[..b]
  {
  }

  /** The `n`-th experiment extends the flattened first `n - 1` by the next `L` frames. */
  lemma ExperimentsStep<F>(h: Handler, frames: seq<F>, n: nat)
    requires h.experimentsLength.Some? && n > 0
    requires n * h.experimentsLength.value <= |frames|
    ensures 0 <= (n - 1) * h.experimentsLength.value <= n * h.experimentsLength.value
    ensures var len := h.experimentsLength.value;
      Flatten(Experiments(h, frames, n)) == Flatten(Experiments(h, frames, n - 1)) + frames[(n - 1) * len..n * len]
  {
    var len := h.experimentsLength.value;
    MulPeel(n, len);
    var prev := Experiments(h, frames, n - 1);
    var last := LoadExperiment(h, frames, n - 1).value;
    assert last == frames[(n - 1) * len..n * len];
    FlattenAppend(prev, [last]);
    assert Flatten([last]) == last by {
      assert [last][1..] == [];
      assert Flatten([last]) == last + Flatten([]);
    }
  }
}
