# spparks_hpc sweep and snapshot logic in Dafny

This project models the pure logic of `spparks_hpc`, a set of Python
scripts. The scripts generate parameter sweeps for SPPARKS Potts kinetic
Monte Carlo runs of additive manufacturing (`am/ellipsoid`). They also turn
the resulting VTK snapshots into datasets. The model has two groups.

- **Parameter sweep.**
  - `PottsParam` models the sweep parameters of `Potts_Param`:
    - integer `np.arange` ranges;
    - ranges placed at the first value of another parameter;
    - offset lists.
    
    All are computed in the order of `load_parameters` over the object's attributes.
  - `ConfigPottsParam` models the second copy of the class in `config/`. Its constructor cannot succeed.
  - `ConfigGenerator` models:
    - configuration names and the configuration map (a Cartesian product);
    - the HAZ permutation filter;
    - the name file and the chunked name files.
  - `ConfigInpotts` models:
    - parsing a configuration name back into its values;
    - the folder-exists suffix test;
    - the line-by-line rewrite of the SPPARKS input deck.
- **Snapshots.**
  - `TarUtils` models:
    - the directory scan of a compressed archive;
    - reading a snapshot's time index from its member name;
    - the per-directory stable sort and bucketing by sequence length.
  - `Codec` models the NumPy/VTK conversion shape rules and their round trip.
  - `SampleReader` models reading consecutive snapshots from a directory tree.
  - `H5Reader` models the frame ranges of experiments stored back to back in an HDF5 file.

Support modules:
- `Wrappers` holds `Option` and `Result`.
- `Text` models strings: digits, `str(int)`, `split`/`join`, `strip`, line splitting, path joining and `re.search` of `lit(\d+)`.
- `Seqs` holds flattening, the Cartesian product, filtering and a little arithmetic.

Modelling conventions:
- Python exceptions are the `Failure` side of a `Result`.
- Files, archives and HDF5 datasets are values passed in.
- Readers are function parameters.
- Decimal numbers are tokens `Dec(whole, frac)`: the digits before and after the point.
- Python's `str` of a float in the deck is a function parameter.

## Model

| member | source | states |
|---|---|---|
| Text.ShowNatInjective | config_inpotts.py:74-75 | the decimal text of a natural number determines it |
| Text.ParseShowDec | config_inpotts.py:74 | `float(whole + "." + frac)` of a rendered decimal token pair gives the decimal back |
| Text.ParseShowInt | config_inpotts.py:75 | `int(str(i))` is `i` for every integer, negative ones included |
| Text.SplitJoin | config/config_file_generator.py:47 | splitting a `_`-join of `_`-free parts gives the parts back |
| Text.JoinSplit | config_inpotts.py:71 | joining the parts of a split restores the string |
| Text.TabLinesRoundTrip | config/config_file_generator.py:91-93 | tab-terminated lines read back line by line give the names, each followed by its tab |
| Text.LastPartIsSuffix | vtk_utils/vtk_tar_utils.py:39-40 | `name.split("/")[-1]` is a suffix of the name, preceded by `/` unless it is the whole name |
| Text.SearchGroupFound | vtk_utils/h5_reader.py:25-29 | `re.search(lit + r"(\d+)")` matches exactly when the literal occurs somewhere followed by a digit |
| Text.SearchIntSpec | vtk_utils/h5_reader.py:25-29 | `re.search(lit + r"(\d+)")` finds the leftmost occurrence of the literal followed by a digit and reads the maximal digit run there |
| Seqs.ProductLength | config/config_file_generator.py:65 | `itertools.product` has as many tuples as the product of the list lengths |
| Seqs.ProductMember | config/config_file_generator.py:65 | a tuple is in the product exactly when each position holds an element of its list |
| Seqs.ProductWithAt | config/config_file_generator.py:65 | in `itertools.product` order the first list varies slowest: with `w` tails, entry `h * w + j` pairs head `h` with tail `j` |
| Seqs.FilterMember | config/config_file_generator.py:232 | `filter` keeps exactly the elements that pass the predicate |
| TarUtils.CountFoldersInTar | vtk_utils/vtk_tar_utils.py:29-55 | the count is the number of directory members read; the manifest holds their last path components, tab-terminated, and is written only when the walk completes |
| TarUtils.DirectoryNamesShape | vtk_utils/vtk_tar_utils.py:38-42 | one recorded name per directory member, none containing `/` |
| TarUtils.TimeIndexExamples | vtk_utils/vtk_tar_utils.py:90-92 | `case1/IN1003d.vti.7` gives index 7; a name without `.vti.<digits>` gives none |
| TarUtils.ProcessFile | vtk_utils/vtk_tar_utils.py:90-99 | a matching member is extracted to a temporary file and read, the index paired with the instance, a read error propagated; any other member yields `None` with no extraction and no read |
| TarUtils.SortIsSortedPermutation | vtk_utils/vtk_tar_utils.py:124-126 | the sort returns an ascending permutation of the buffer |
| TarUtils.SortIsStable | vtk_utils/vtk_tar_utils.py:124-126 | snapshots sharing a time index keep their buffer order |
| TarUtils.SortIgnoresEncounterOrder | vtk_utils/vtk_tar_utils.py:124-126 | with distinct time indices, any archive order of a directory's snapshots gives the same sequence |
| TarUtils.ProcessDirectory | vtk_utils/vtk_tar_utils.py:122-134 | the sorted sequence is appended under key `len(buffer)`, creating the key if absent, every other key is unchanged, and the buffer is reset |
| TarUtils.ProcessDirectoryKeepsBuckets | vtk_utils/vtk_tar_utils.py:122-131 | every sequence stored under key `L` keeps length `L` |
| TarUtils.ProcessDirectoryEmitsSorted | vtk_utils/vtk_tar_utils.py:122-131 | the appended sequence is the buffer's instances in time order |
| TarUtils.TwoDirectoryScenario | vtk_utils/vtk_tar_utils.py:122-134 | two directories flushed in turn give `{3: [[g0, g1, g2]], 1: [[h0]]}` |
| Codec.Reshape | vtk_utils/vtk_data_utils.py:109 | the reshape succeeds exactly when the element count matches a non-negative shape, and keeps the flat buffer |
| Codec.FindByName | vtk_utils/vtk_data_utils.py:84 | a named lookup returns the first array of that name, or nothing when none carries it |
| Codec.SelectArray | vtk_utils/vtk_data_utils.py:77-86 | cell data is searched when it holds arrays, else point data; a non-empty name is looked up, an empty name takes array 0 |
| Codec.Decode | vtk_utils/vtk_data_utils.py:76-111 | no suitable array raises `ValueError`; a found array decodes exactly when the cell or point shape, sliced to axes above one when asked, is non-negative and its volume is the value count, and then the values come back with that shape; otherwise `reshape` fails |
| Codec.NoFallbackToPointData | vtk_utils/vtk_data_utils.py:77-89 | a name missing from a non-empty cell set raises, even when the point set has it |
| Codec.SlicingKeepsVolume | vtk_utils/vtk_data_utils.py:106-107 | dropping extents of one keeps the element count |
| Codec.TopSliceIsTopLayer | vtk_utils/vtk_data_utils.py:48-53 | the VOI spans the full x-y plane and the single top z index |
| Codec.GridDims | vtk_utils/visualization_utils.py:149-155 | a 2D shape `(r, c)` gives `(r + 1, c + 1, 1)`; any other shape adds one per axis |
| Codec.Encode | vtk_utils/visualization_utils.py:149-171 | the raveled buffer becomes the only cell array, named `Spin`, the point data is emptied, and the grid has the dimensions above |
| Codec.CheckArrayDimensions | vtk_utils/visualization_utils.py:38-44 | `True` exactly when the shape is the extent less one per axis, `ValueError` otherwise |
| Codec.ExtentConstants | vtk_utils/visualization_utils.py:15-16 | the module constants accept only `(100, 100, 50)` and `(100, 100)` |
| Codec.RenderMatchesEncode | vtk_utils/visualization_utils.py:88-98 | the renderers lay out an accepted array as the file encoder does |
| Codec.RoundTrip3D | vtk_utils/visualization_utils.py:149-171 | a 3D array written and decoded through its cell data comes back unchanged |
| Codec.RoundTrip3DSliced | vtk_utils/vtk_data_utils.py:106-109 | with every extent above one, slicing leaves the 3D round trip intact |
| Codec.RoundTrip2DSliced | vtk_utils/visualization_utils.py:150-152 | a 2D array with both extents above one reads back as itself with slicing |
| Codec.RoundTrip2DUnsliced | vtk_utils/vtk_data_utils.py:101-109 | without slicing a 2D array never reads back as itself: the decoded shape is `(r, c, 0)` |
| SampleReader.SnapshotPathInjective | vtk_utils/vtk_data_utils.py:121 | different time indices give different snapshot paths |
| SampleReader.ReadVtkSample | vtk_utils/vtk_data_utils.py:118-130 | the snapshots `0 .. k-1` are read in order, `k` being the first index with no file |
| SampleReader.SampleIsUnique | vtk_utils/vtk_data_utils.py:118-130 | the probe result is determined by the files present |
| SampleReader.ReadVtkFromPath | vtk_utils/vtk_data_utils.py:140-152 | one sample per manifest line, in file order, each from the directory named by the stripped line |
| H5Reader.NewHandler | vtk_utils/h5_reader.py:19-21 | the handler keeps its path and takes its experiment length from it |
| H5Reader.ExtractLengthIgnoresArgument | vtk_utils/h5_reader.py:23-25 | the file name argument is ignored |
| H5Reader.ExtractLengthExamples | vtk_utils/h5_reader.py:25-31 | `exp_6_len_28_2D.h5` gives 28; a name without `len_<digits>` gives `None` |
| H5Reader.LoadExperiment | vtk_utils/h5_reader.py:40-45 | an experiment reads at most `L` frames; a missing length raises, and only then |
| H5Reader.LoadExperimentFrames | vtk_utils/h5_reader.py:40-44 | experiment `i` reads frames `[i*L, i*L+L)` clamped to the file as h5py clamps a slice: all `L` when they fit, the leftover tail when the file ends inside them, nothing past the end |
| H5Reader.GetTotalExperiments | vtk_utils/h5_reader.py:63-66 | the count is the floor of frames over `L`; a missing or zero length raises |
| H5Reader.ExperimentsAdjacent | vtk_utils/h5_reader.py:40-44 | consecutive experiments occupy adjacent frame ranges |
| H5Reader.ExperimentInRange | vtk_utils/h5_reader.py:40-44 | every index below the total reads exactly `L` frames inside the file |
| H5Reader.ExperimentsPastTotal | vtk_utils/h5_reader.py:40-66 | the index equal to the total reads the leftover frames, fewer than `L`, and any later index reads nothing |
| H5Reader.ExperimentsCoverFrames | vtk_utils/h5_reader.py:40-66 | the experiments in order concatenate to the frames up to the last whole experiment |
| ConfigGenerator.ConfigNames | config/config_file_generator.py:32-50 | one name per configuration, in order |
| ConfigGenerator.ConfigNameTokens | config/config_file_generator.py:37-47 | splitting a name at `_` gives `vHpdV` followed by each element's tokens, when values carry no stray `_` or `.` |
| ConfigGenerator.CreateConfigMap | config/config_file_generator.py:62-68 | the names correspond index by index to the configurations |
| ConfigGenerator.ConfigMapSize | config/config_file_generator.py:63-65 | the map has one configuration per combination of the five lists |
| ConfigGenerator.ConfigMapMember | config/config_file_generator.py:63-65 | a configuration is in the map exactly when it takes one value from each list |
| ConfigGenerator.HazPermutationsMember | config/config_file_generator.py:223-233 | a combination is kept exactly when it is in the product and passes all four strict inequalities |
| ConfigGenerator.HazPermutationsOfLists | config/config_file_generator.py:211-229 | every kept combination takes its nine values from the nine lists and its HAZ dimensions exceed their counterparts |
| ConfigGenerator.AmendConfigFile | config/config_file_generator.py:166-178 | the name file is `<dir>/config_file`, the path is returned unless the write fails, and the content is the names' lines in order, each name followed by a tab and a newline |
| ConfigGenerator.AmendConfigFileReadsBack | config/config_file_generator.py:170-172 | read back and stripped, the name file gives the names again |
| ConfigGenerator.FloorDivIsFloor | config/config_file_generator.py:126 | `//` rounds toward negative infinity |
| ConfigGenerator.FloorDivOfLength | config/config_file_generator.py:126 | the chunk size is positive exactly when there are at least as many names as chunks |
| ConfigGenerator.ChunksOf | config/config_file_generator.py:127-130 | every slice is non-empty and holds at most the chunk size, all but the last exactly |
| ConfigGenerator.ChunksOfFlatten | config/config_file_generator.py:127-130 | the slices concatenate back to the names, in order |
| ConfigGenerator.ChunkAt | config/config_file_generator.py:127-130 | chunk `i` is the slice `[i * size, i * size + size)` when it fits |
| ConfigGenerator.OutputFiles | config/config_file_generator.py:134-136 | the files are `config_file_1 .. config_file_k` under the output directory |
| ConfigGenerator.OutputFilesDistinct | config/config_file_generator.py:134-136 | the numbered paths are pairwise distinct, so no chunk file overwrites another |
| ConfigGenerator.WriteChunks | config/config_file_generator.py:90-151 | chunks and files are paired up to the shorter list; each file holds its chunk's names on tab-terminated lines, and each result is the path or `None` |
| ConfigGenerator.AmendConfigFileChunks | config/config_file_generator.py:126-151 | zero chunks raises on `//`, a zero chunk size raises in `range`, a negative one yields no chunk and fails at `chunks[0]` |
| ConfigGenerator.ChunkErrors | config/config_file_generator.py:126-132 | the writer succeeds exactly when `0 < num_chunks <= len(names)` |
| ConfigGenerator.ChunkedShape | config/config_file_generator.py:126-142 | on success the first `num_chunks` slices are paired with all the files |
| ConfigGenerator.ChunkedFiles | config/config_file_generator.py:126-142 | on success the files together hold the names up to `num_chunks * (len // num_chunks)` and no further |
| ConfigGenerator.ChunkLossExample | config/config_file_generator.py:126-142 | three names in two chunks: the third name is never written |
| ConfigGenerator.StepZeroExample | config/config_file_generator.py:126-129 | one name in two chunks raises |
| ConfigGenerator.EvenChunks | config/config_file_generator.py:109-111 | `k` consecutive slices that together hold every element |
| ConfigGenerator.AmendConfigFileChunksEven | config/config_file_generator.py:109-120 | `num_chunks` files `config_file_1 .. k` that together hold every name in order |
| ConfigInpotts.ParseInts | config_inpotts.py:80 | the HAZ integers parse exactly when every token is an integer literal |
| ConfigInpotts.ParseShowInts | config_inpotts.py:80 | rendered integers parse back |
| ConfigInpotts.ParseConfigName | config_inpotts.py:69-83 | fewer than five values raises; otherwise parsing succeeds exactly when tokens 0 and 1 form a float, token 2 an integer, the tokens from the fifth up to the last two integers, and the last two a float, and then the fields are those parses and tokens 3 and 4 |
| ConfigInpotts.ParseConfigNameRoundTrip | config_inpotts.py:69-83 | parsing a generated name gives back the values it was built from |
| ConfigInpotts.DefaultCaseName | config_inpotts.py:207 | the script's default case parses into its sweep values |
| ConfigInpotts.FolderExists | config_inpotts.py:21-31 | true exactly when an immediate subdirectory's name ends with the configuration name |
| ConfigInpotts.SuffixIsNotEquality | config_inpotts.py:26 | the test is a suffix test, not equality |
| ConfigInpotts.LayerRule | config_inpotts.py:113-130 | the layer is defined exactly for the four corners and two headings, offset 100 sites along the heading, negatively from a lower corner |
| ConfigInpotts.DeckVerbatim | config_inpotts.py:135-182 | lines other than 11, 12, 15, 16, 25, 31-39 and 94 are copied verbatim; the rewritten ones ignore the template text |
| ConfigInpotts.DeckVelocityAndHatch | config_inpotts.py:105-146 | for a case named by the generator, lines 11 and 12 set `V_x` and `V_y` to the configured velocity and lines 15 and 16 set `HATCH_x` and `HATCH_y` to the configured hatch spacing |
| ConfigInpotts.DeckCaseNameAndAtoi | config_inpotts.py:151-174 | line 25 names the case, line `30 + k` sets `ATOI_k` to HAZ entry `k`, and raises past the list's end |
| ConfigInpotts.DeckLayer | config_inpotts.py:177-178 | line 94 is the layer command and raises when the layer is unbound |
| ConfigInpotts.DeckNeverFails | config_inpotts.py:135-182 | with at least eight HAZ integers and a known corner and heading, no line raises |
| ConfigInpotts.AmendSpparksFile | config_inpotts.py:86-182 | a bad name, a missing template or a missing case directory raises first, in that order; otherwise one output line per template line up to the first line that raises |
| PottsParam.AttrNamedName | potts_param.py:45-47 | `getattr` finds each list attribute by its Python name, and only by it |
| PottsParam.Steps | potts_param.py:38-43 | the range is empty exactly when `start` is already at or past `stop` in the step's direction; every value stays before `stop` and the last lies within one step of it |
| PottsParam.Arange | potts_param.py:38-43 | a zero step raises, any other gives the range |
| PottsParam.StepsElements | potts_param.py:38-43 | element `i` is `start + i * step` |
| PottsParam.StepsLength | potts_param.py:38-43 | a range has `max(0, ceil((stop - start) / step))` elements |
| PottsParam.BaseValue | potts_param.py:45-51 | the base is the first value of an integer attribute; a missing attribute or empty list raises |
| PottsParam.ComputeRangeWithBase | potts_param.py:49-58 | the range runs from `b + start_offset` to `b + stop_offset` with the key's step, `b` the base's first value |
| PottsParam.ComputeWithOffset | potts_param.py:60-62 | every value of the base plus the offset, same length |
| PottsParam.InitialState | potts_param.py:20-34 | the constructor creates all thirteen list attributes, empty |
| PottsParam.DirectStageValues | potts_param.py:66-74 | the direct stage sets its eight attributes from the document and leaves the others alone |
| PottsParam.LoadParametersValues | potts_param.py:64-87 | on success the copied lists are unchanged, the ranges and the offset lists are as the document prescribes, and no other attribute exists |
| PottsParam.LoadParametersBases | potts_param.py:77-78 | the two based ranges are placed at the first value of bases assigned before them |
| PottsParam.OffsetStageValues | potts_param.py:79-87 | the offset lists are shifted copies of the melt pool sizes and nothing else changes |
| PottsParam.LateBaseFails | potts_param.py:25-34 | a `spot_width` based on any attribute assigned after it finds the initial empty list and raises |
| PottsParam.HazWidthOnSpotWidth | potts_param.py:77-78 | `HAZ_width` may be based on `spot_width`, computed just before it |
| ConfigPottsParam.InitDirectParameters | config/potts_param.py:62-67 | sets exactly `v_scan`, `hatch`, `starting_pos` and `heading`; raises only on a zero `v_scan` step |
| ConfigPottsParam.ConstructAlwaysFails | config/potts_param.py:17-20 | construction never succeeds: a zero `v_scan` step raises first, else the missing method does |
| ConfigPottsParam.BaseValueAgree | config/potts_param.py:38-40 | reading a base from pre-initialised or lazily created attributes gives the same value, or an empty list versus a missing attribute |
| ConfigPottsParam.DerivedStageAgree | config/potts_param.py:82-94 | the derived part succeeds on both kinds of attributes together and then gives the same object |
| ConfigPottsParam.ConfigDirectStageAgree | config/potts_param.py:69-80 | this copy's direct part fails exactly when the other copy's does, with the same error |
| ConfigPottsParam.ConstructCorrectedMatches | config/potts_param.py:57-94 | the corrected constructor builds the same object as the top-level class, and fails with it |

## Findings

| source | as written | input that shows it | evidently intended | confidence | as-written member | corrected member |
|---|---|---|---|---|---|---|
| config/potts_param.py:17-20,57-60 | `initialize_parameters` calls `init_derived_parameters`, which the class does not define, so the constructor always raises `AttributeError`; `load_parameters` is never called | any document with a non-zero `v_scan` step | after the direct parameters, the derived ones are computed as `load_parameters` does | high, not executed | `ConfigPottsParam.ConstructAlwaysFails` | `ConfigPottsParam.ConstructCorrectedMatches` |
| config/config_file_generator.py:126-142 | the chunk size is `len // num_chunks`, and `map` pairs the chunks with only `num_chunks` files, so the trailing `len % num_chunks` names are never written | names `["a", "b", "c"]`, 2 chunks | every name lands in one of the `num_chunks` files, as the docstring describes | high, not executed | `ConfigGenerator.ChunkLossExample` | `ConfigGenerator.AmendConfigFileChunksEven` |
| config/config_file_generator.py:126-129 | with fewer names than chunks the chunk size is 0 and `range(0, n, 0)` raises `ValueError` | names `["a"]`, 2 chunks | fewer names than files still writes the names, leaving some files empty | medium, not executed | `ConfigGenerator.StepZeroExample` | `ConfigGenerator.AmendConfigFileChunksEven` |

The corrected chunked writer divides the names into `num_chunks` consecutive
slices, each taking the ceiling of its share of what is left.

## Where the model follows the code over its documentation

- `process_file` does not read "the digits after the first `.vti.`". `re.search` finds the leftmost `.vti.` that a digit follows. `TimeIndex` models the search that way.
- `H5_Handler.extract_length` ignores its argument and searches the handler's own path.
- The chunked writer's docstring promises that all names are written. The code loses the remainder (see Findings).
- `folder_exists` checks a suffix, not equality. It looks at the first level of the walk only.

## Left out

- VTK readers and writers, pyvista rendering, `xvfb` and screenshots: these are I/O.
  - A grid is its dimensions plus named cell and point arrays over flat integer buffers.
  - `vtk_to_numpy`, the unused range, spacing and component queries, and `vtkExtractVOI` beyond its VOI arguments are not modelled.
- tarfile and gzip decoding, and the temporary-file extraction.
  - An archive is a finite member list plus how the walk ended.
  - The temporary files are recorded as created and never deleted.
- h5py, YAML loading, `os.walk`, `os.path.isfile`, `makedirs`, `shutil.copyfile`, argparse and every `main`: these are I/O. Their results are inputs to the model.
- `ProcessPoolExecutor`: the parallel writes are modelled as a sequential `map`. The worker count from `SLURM_CPUS_PER_TASK` is not modelled. So the `ValueError`s for a value that is not an integer, or for a worker count below one, are not modelled either.
- Floating point:
  - `_trans_coord`'s `* 100` is not modelled; the sweep velocities are given already transformed.
  - Float-step `np.arange` is not modelled; ranges are integer ranges.
  - A float base list is `FloatBase`, not a float range.
  - `str(float)` in the deck is a function parameter.
- `ConfigInpotts.ParseConfigName`: `float()` and `int()` are modelled strictly. They accept only non-empty ASCII digit runs, with an optional sign for integers. Python also accepts signs on floats, surrounding blanks, underscores between digits and non-ASCII digits. `float()` further accepts an empty digit run on one side of the point (`20.` or `.5`, from a `__` in the name) and an exponent (`1.0e5`); the model rejects both.
- `Text.Lines`: only `\n` ends a line. Python's universal newlines also split at `\r`.
- `PottsParam.BaseValue`: `getattr` on a name that is not a list attribute is `NoAttribute`. In Python, `params` and the methods are attributes too, and `[0]` of them raises another exception.
- NumPy's `-1` shape inference in `reshape`: a negative extent is a reshape failure.
- NumPy's fixed-width integers: shapes, volumes and spin values are unbounded integers, so an overflow in `reshape` or `ravel` is not modelled.
- `Text.SearchGroupFound`: a digit is an ASCII digit. Python's `\d` in a `str` pattern matches every Unicode decimal digit, and `int()` reads them too.
- `Text.SearchIntSpec`: same ASCII-only digits as `Text.SearchGroupFound`. A Unicode decimal digit ends the digit run in the model.
- `TarUtils.TimeIndex`: uses the same ASCII-only search. `case1/IN1003d.vti.` followed by an Arabic-Indic three has index 3 in Python and none in the model.
- `H5Reader.ExtractLength`: uses the same ASCII-only search. A `len_` followed only by non-ASCII decimal digits gives `None` in the model.
- `Codec.RoundTrip3D`: writing a grid to a `.vti` file and reading it back is assumed to give the same grid. That holds only when every extent of the array is at least one. With a zero extent, say shape `(2, 2, 0)`, the grid's point dimensions are `(3, 3, 1)`. VTK then counts 4 cells against an empty buffer, which the model does not follow.
- `H5Reader.LoadExperiment`: negative video indices are not modelled (indices are `nat`). Neither is h5py's handling of negative slice bounds.
- `AmendSpparksFile`: the deck file is opened in append mode. The model returns the lines appended in this run, not the file's earlier content.
- `create_folder` and `copy_initial_condition` are file-system actions. They are not modelled.
- `visualize_all_sequence_from_numpy` and `render_vtk_image_data` only render, so they are not modelled.
