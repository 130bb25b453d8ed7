/**
 * The shape arithmetic of the volumetric codec in `vtk_utils/`: how
 * `numpy_to_vtk_file` and the render helpers lay a NumPy array out as a
 * `vtkImageData` grid, and how `convert_vtk_instance_to_numpy` reads one back.
 *
 * A grid is its point dimensions plus its named cell and point arrays; an
 * array is its shape plus its C-order flat buffer. Writing a grid to an
 * ASCII `.vti` file and reading it back is taken to give the same grid.
 */
module Codec {
  import opened Wrappers
  import opened Seqs

  /** The name of the cell-scalar array the encoder writes. */
  const CellDataName: string := "Spin"

  /** Grid point dimensions the 3D renderer expects: 100 x 100 x 50 cells. */
  const Extent3D: seq<int> := [101, 101, 51]

  /** Grid point dimensions the 2D renderer expects: 100 x 100 cells. */
  const Extent2D: seq<int> := [101, 101]

  /** A named single-component VTK data array. */
  datatype DataArray = DataArray(name: string, values: seq<int>)

  /** A `vtkImageData`: point dimensions, then the cell and the point attribute sets. */
  datatype ImageData = ImageData(dims: seq<int>, cellArrays: seq<DataArray>, pointArrays: seq<DataArray>)

  /** A NumPy array: its shape and its C-order flat buffer. */
  datatype NdArray = NdArray(shape: seq<int>, flat: seq<int>)

  /** Why a conversion raised. */
  datatype CodecError =
    | NoSuitableArray   // the requested array is not in the chosen attribute set
    | ReshapeMismatch   // the flat buffer does not fill the shape
    | UnsupportedRank   // the grid dimensions are not a triple
    | ShapeMismatch     // the array does not have the renderer's expected shape

  /** The number of elements an array of this shape holds. */
  function Volume(shape: seq<int>): int
  {
    if |shape| == 0 then 1 else shape[0] * Volume(shape[1..])
  }

  predicate NonNegative(shape: seq<int>)
  {
    forall i :: 0 <= i < |shape| ==> shape[i] >= 0
  }

  /** A consistent array: no negative extent, and the buffer fills the shape. */
  predicate WellFormed(a: NdArray)
  {
    NonNegative(a.shape) && |a.flat| == Volume(a.shape)
  }

  /** `ndarray.reshape(shape)` of a flat buffer: the buffer is kept, only the shape changes. */
  function Reshape(flat: seq<int>, shape: seq<int>): (r: Result<NdArray, CodecError>)
    ensures r.Success? <==> NonNegative(shape) && Volume(shape) == |flat|
    ensures r.Success? ==> r.value.shape == shape && r.value.flat == flat && WellFormed(r.value)
    ensures r.Failure? ==> r.error == ReshapeMismatch
  {
    if NonNegative(shape) && Volume(shape) == |flat| then Success(NdArray(shape, flat))
    else Failure(ReshapeMismatch)
  }

  /**
   * `vtkFieldData.GetArray(name)`: the first array carrying `name`, if any.
   */
  function FindByName(arrays: seq<DataArray>, name: string): (r: Option<DataArray>)
    ensures r.Some? <==> exists i :: 0 <= i < |arrays| && arrays[i].name == name
    ensures r.Some? ==> exists i :: 0 <= i < |arrays| && arrays[i] == r.value && r.value.name == name
                                    && forall j :: 0 <= j < i ==> arrays[j].name != name
  {
    if |arrays| == 0 then None
    else if arrays[0].name == name then Some(arrays[0])
    else
      var rest := FindByName(arrays[1..], name);
      assert forall i :: 1 <= i < |arrays| ==> arrays[i] == arrays[1..][i - 1];
      assert rest.Some? ==> exists i ::
          1 <= i < |arrays| && arrays[i] == rest.value && forall j :: 0 <= j < i ==> arrays[j].name != name
      by {
        if rest.Some? {
          var k :| 0 <= k < |arrays[1..]| && arrays[1..][k] == rest.value && rest.value.name == name
                   && forall j :: 0 <= j < k ==> arrays[1..][j].name != name;
          assert arrays[k + 1] == rest.value;
          forall j | 0 <= j < k + 1
            ensures arrays[j].name != name
          {
            if j > 0 { assert arrays[j] == arrays[1..][j - 1]; }
          }
        }
      }
      rest
  }

  /** The attribute set the decoder reads: cell data when it holds any array, else point data. */
  function ChosenSet(img: ImageData): seq<DataArray>
  {
    if |img.cellArrays| > 0 then img.cellArrays else img.pointArrays
  }

  /** The array lookup: by name for a non-empty name, else the first array of the set. */
  function SelectArray(img: ImageData, arrayName: string): (r: Option<DataArray>)
    ensures arrayName != "" ==> r == FindByName(ChosenSet(img), arrayName)
    ensures arrayName == "" ==> (r.Some? <==> |ChosenSet(img)| > 0)
    ensures arrayName == "" && r.Some? ==> r.value == ChosenSet(img)[0]
  {
    var data := ChosenSet(img);
    if arrayName != "" then FindByName(data, arrayName)
    else if |data| > 0 then Some(data[0])
    else None
  }

  /** Whether an extent survives slicing: singleton and empty axes are dropped. */
  predicate KeptBySlicing(d: int) { d > 1 }

  /**
   * The shape the decoder reshapes to: a cell count per axis (`dims - 1`)
   * for a three-axis grid read through its cell data, the point dimensions
   * otherwise; with `slicing`, only the axes of extent above one, in order.
   */
  function DecodedShape(dims: seq<int>, cellData: bool, slicing: bool): seq<int>
  {
    var d := if |dims| == 3 && cellData then [dims[0] - 1, dims[1] - 1, dims[2] - 1] else dims;
    if slicing then Filter(KeptBySlicing, d) else d
  }

  /** `convert_vtk_instance_to_numpy(img, arrayName, slicing)`. */
  function Decode(img: ImageData, arrayName: string, slicing: bool): (r: Result<NdArray, CodecError>)
    ensures SelectArray(img, arrayName).None? <==> r == Failure(NoSuitableArray)
    ensures r.Success? ==> WellFormed(r.value) && r.value.flat == SelectArray(img, arrayName).value.values
    ensures r.Success? ==> r.value.shape == DecodedShape(img.dims, |img.cellArrays| > 0, slicing)
    ensures SelectArray(img, arrayName).Some? ==>
              var shape := DecodedShape(img.dims, |img.cellArrays| > 0, slicing);
              && (r.Success? <==> NonNegative(shape) && Volume(shape) == |SelectArray(img, arrayName).value.values|)
              && (r.Failure? ==> r.error == ReshapeMismatch)
  {
    match SelectArray(img, arrayName)
    case None => Failure(NoSuitableArray)
    case Some(arr) => Reshape(arr.values, DecodedShape(img.dims, |img.cellArrays| > 0, slicing))
  }

  /** The grid point dimensions `numpy_to_vtk_file` asks for: one more than the shape per axis, a flat third axis for 2D. */
  function GridDims(shape: seq<int>): (r: seq<int>)
    ensures |shape| == 2 ==> r == [shape[0] + 1, shape[1] + 1, 1]
    ensures |shape| != 2 ==> |r| == |shape| && forall i :: 0 <= i < |shape| ==> r[i] == shape[i] + 1
  {
    if |shape| == 2 then [shape[0] + 1, shape[1] + 1, 1]
    else seq(|shape|, i requires 0 <= i < |shape| => shape[i] + 1)
  }

  /**
   * `numpy_to_vtk_file` up to the file write: the raveled buffer becomes the
   * cell scalars named `Spin` and the point data is left without arrays.
   * `SetDimensions` takes exactly three extents, so other ranks fail.
   */
  function Encode(a: NdArray): (r: Result<ImageData, CodecError>)
    ensures r.Success? <==> |a.shape| == 2 || |a.shape| == 3
    ensures r.Success? ==> r.value.cellArrays == [DataArray(CellDataName, a.flat)] && r.value.pointArrays == []
    ensures r.Success? ==> r.value.dims == GridDims(a.shape) && |r.value.dims| == 3
  {
    var dims := GridDims(a.shape);
    if |dims| != 3 then Failure(UnsupportedRank)
    else Success(ImageData(dims, [DataArray(CellDataName, a.flat)], []))
  }

  /** The shape an extent describes: one less than the extent per axis. */
  function ExpectedShape(extent: seq<int>): (r: seq<int>)
    ensures |r| == |extent| && forall i :: 0 <= i < |extent| ==> r[i] == extent[i] - 1
  {
    seq(|extent|, i requires 0 <= i < |extent| => extent[i] - 1)
  }

  /** `_check_array_dimensions`: `True` when the shape is the extent less one per axis, a `ValueError` otherwise. */
  function CheckArrayDimensions(shape: seq<int>, extent: seq<int>): (r: Result<bool, CodecError>)
    ensures r.Success? <==> |shape| == |extent| && forall i :: 0 <= i < |shape| ==> shape[i] + 1 == extent[i]
    ensures r.Success? ==> r.value
    ensures r.Failure? ==> r.error == ShapeMismatch
  {
    if shape == ExpectedShape(extent) then Success(true) else Failure(ShapeMismatch)
  }

  /** The grid `render_2D_from_numpy` builds before plotting. */
  function Render2D(a: NdArray): (r: Result<ImageData, CodecError>)
    ensures r.Success? <==> a.shape == [100, 100]
  {
    var _ :- CheckArrayDimensions(a.shape, Extent2D);
    Success(ImageData([a.shape[0] + 1, a.shape[1] + 1, 1], [DataArray(CellDataName, a.flat)], []))
  }

  /** The grid `render_3D_from_numpy` builds before plotting. */
  function Render3D(a: NdArray): (r: Result<ImageData, CodecError>)
    ensures r.Success? <==> a.shape == [100, 100, 50]
  {
    var _ :- CheckArrayDimensions(a.shape, Extent3D);
    Success(ImageData(Extent3D, [DataArray(CellDataName, a.flat)], []))
  }

  /** Both renderers lay an accepted array out exactly as the file encoder does. */
  lemma RenderMatchesEncode(a: NdArray)
    ensures Render2D(a).Success? ==> Encode(a) == Render2D(a)
    ensures Render3D(a).Success? ==> Encode(a) == Render3D(a)
  {
    if Render3D(a).Success? {
      assert GridDims(a.shape) == Extent3D;
    }
  }

  /** The extent constants accept exactly one shape each. */
  lemma ExtentConstants(shape: seq<int>)
    ensures CheckArrayDimensions(shape, Extent3D).Success? <==> shape == [100, 100, 50]
    ensures CheckArrayDimensions(shape, Extent2D).Success? <==> shape == [100, 100]
  {
  }

  /**
   * The VOI `extract_top_2D_slice_with_voi` passes to `vtkExtractVOI` as
   * (x0, x1, y0, y1, z0, z1), in point indices.
   */
  function TopSliceVoi(dims: seq<int>): (r: seq<int>)
    requires |dims| == 3
    ensures |r| == 6
  {
    [0, dims[0] - 1, 0, dims[1] - 1, dims[2] - 1, dims[2] - 1]
  }

  /** The point dimensions of the sub-grid a VOI selects. */
  function VoiDims(voi: seq<int>): (r: seq<int>)
    requires |voi| == 6
    ensures |r| == 3
  {
    [voi[1] - voi[0] + 1, voi[3] - voi[2] + 1, voi[5] - voi[4] + 1]
  }

  /** The top slice spans the whole x-y plane and is a single point layer, at the highest z index. */
  lemma TopSliceIsTopLayer(dims: seq<int>)
    requires |dims| == 3
    ensures VoiDims(TopSliceVoi(dims)) == [dims[0], dims[1], 1]
    ensures TopSliceVoi(dims)[4] == TopSliceVoi(dims)[5] == dims[2] - 1
  {
  }

  /** A lookup never falls back from the cell set to the point set. */
  lemma {:induction false} NoFallbackToPointData(img: ImageData, arrayName: string)
    requires |img.cellArrays| > 0 && arrayName != ""
    requires forall i :: 0 <= i < |img.cellArrays| ==> img.cellArrays[i].name != arrayName
    ensures Decode(img, arrayName, false) == Failure(NoSuitableArray)
    ensures Decode(img, arrayName, true) == Failure(NoSuitableArray)
  {
  }

  /** Dropping extents of exactly one keeps the element count. */
  lemma {:induction false} SlicingKeepsVolume(shape: seq<int>)
    requires forall i :: 0 <= i < |shape| ==> shape[i] >= 1
    ensures Volume(Filter(KeptBySlicing, shape)) == Volume(shape)
    ensures NonNegative(Filter(KeptBySlicing, shape))
    decreases |shape|
  {
    if |shape| > 0 {
      SlicingKeepsVolume(shape[1..]);
      var rest := Filter(KeptBySlicing, shape[1..]);
      if KeptBySlicing(shape[0]) {
        assert Filter(KeptBySlicing, shape) == [shape[0]] + rest;
        assert ([shape[0]] + rest)[1..] == rest;
        forall i | 0 <= i < |[shape[0]] + rest|
          ensures ([shape[0]] + rest)[i] >= 0
        {
          if i > 0 { assert ([shape[0]] + rest)[i] == rest[i - 1]; }
        }
      } else {
        assert shape[0] == 1;
        assert Filter(KeptBySlicing, shape) == rest;
      }
    }
  }

  /** A 3D array written and read back through its cell data comes back unchanged, by name or as the first array. */
  lemma RoundTrip3D(a: NdArray)
    requires WellFormed(a) && |a.shape| == 3
    ensures Encode(a).Success?
    ensures Decode(Encode(a).value, CellDataName, false) == Success(a)
    ensures Decode(Encode(a).value, "", false) == Success(a)
  {
    assert DecodedShape(Encode(a).value.dims, true, false) == a.shape;
  }

  /** With every extent above one, slicing changes nothing on the 3D round trip. */
  lemma RoundTrip3DSliced(a: NdArray)
    requires WellFormed(a) && |a.shape| == 3
    requires forall i :: 0 <= i < 3 ==> a.shape[i] > 1
    ensures Decode(Encode(a).value, CellDataName, true) == Success(a)
  {
    var s := a.shape;
    assert s[1..][1..] == [s[2]] && [s[2]][1..] == [];
    assert Filter(KeptBySlicing, [s[2]]) == [s[2]];
    assert Filter(KeptBySlicing, s[1..]) == [s[1], s[2]];
    assert Filter(KeptBySlicing, s) == s;
    assert DecodedShape(Encode(a).value.dims, true, true) == s;
  }

  /**
   * A 2D array written with a flat third axis reads back as itself only
   * with slicing, and only when both extents exceed one: the cell count on
   * the flat axis is zero, and slicing drops it.
   */
  lemma RoundTrip2DSliced(a: NdArray)
    requires WellFormed(a) && |a.shape| == 2
    requires a.shape[0] > 1 && a.shape[1] > 1
    ensures Encode(a).Success?
    ensures Decode(Encode(a).value, CellDataName, true) == Success(a)
  {
    var r, c := a.shape[0], a.shape[1];
    var cells := [r, c, 0];
    assert DecodedShape(Encode(a).value.dims, true, false) == cells;
    assert cells[1..] == [c, 0] && cells[1..][1..] == [0] && [0][1..] == [];
    assert Filter(KeptBySlicing, [0]) == [];
    assert Filter(KeptBySlicing, [c, 0]) == [c];
    assert Filter(KeptBySlicing, cells) == [r, c] == a.shape;
  }

  /**
   * Without slicing a 2D array never reads back as itself: the decoder
   * asks for shape (r, c, 0), which an empty buffer alone can fill.
   */
  lemma RoundTrip2DUnsliced(a: NdArray, arrayName: string)
    requires WellFormed(a) && |a.shape| == 2
    ensures Encode(a).Success?
    ensures Decode(Encode(a).value, arrayName, false) != Success(a)
    ensures Decode(Encode(a).value, arrayName, false).Success? ==>
              Decode(Encode(a).value, arrayName, false).value.shape == [a.shape[0], a.shape[1], 0]
              && a.flat == []
  {
    var cells := [a.shape[0], a.shape[1], 0];
    assert DecodedShape(Encode(a).value.dims, true, false) == cells;
    assert Volume([0]) == 0;
    assert Volume(cells[1..]) == 0 by { assert cells[1..][1..] == [0]; }
    assert Volume(cells) == 0;
  }
}
