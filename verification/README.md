# tomo_preprocess tilt-series core, in Dafny

This project models the bookkeeping of the tomo_preprocess scripts, which
prepare cryo-electron tilt series:

- the order in which the tilts of a series were acquired (`tilt_order`,
  `tilt_order_from_tilt_scheme`);
- the `tilt.order` file and the comma-separated custom order (read, write
  and validate);
- the dose list and the per-slot output names of the MotionCor2 driver;
- the dose list, plot filters and per-image loop of the dose filter;
- the grouping of a CTF star file by folder and the version-3 IMOD defocus
  lines;
- the argument guards and the sorted micrograph star file of the CTF
  estimation script;
- the image-type classification and output name of the dose-weight/sharpen
  tool.

The modules follow the source files:

| module | source file |
|---|---|
| `TiltOrder`, `TiltOrderFile`, `Motioncor` | lib/tomo_motioncor2.py |
| `DoseFilter` | lib/tomo_dose_filter.py |
| `ImodDefocus` | lib/tomo_write_imod_defocus.py |
| `CtfEstimate` | lib/tomo_ctf_estimate.py |
| `DoseWeightSharpen` | lib/tomo_doseweight_sharpen.py |
| `PyText`, `PyList` | Python's string, path and list semantics that the scripts rely on |
| `Wrappers` | `Option` and `Result` |

Python's own semantics are stated explicitly:

- `str.split()` and `split(',')`, `int()` and `str()` of integers, `zfill`;
- `os.path.splitext`, `basename` and `dirname`;
- `in` on a string is a substring test;
- `readlines`.

How the model represents things:

- Parsing and printing a float are function parameters.
- An error path is a `Failure` value, or a constructor of an outcome
  datatype such as `WeightOutcome`. An error path is a `sys.exit`, an
  uncaught `ValueError`, `TypeError` or `IndexError`, or a message followed
  by an early return. Where the difference matters, the model says which
  error paths end the program: `DoseFilter.EndsProgram` for the dose
  filter's loop over stacks.
- A tilt order is valid when it is a permutation of 1..n, stated as
  `multiset(order) == multiset(1..n)`. This is the same test as the
  source's `sorted(order) == range(1, n+1)`.

Where the code's behaviour differs from what its messages suggest, the
model follows the code:

- `read_tilt_order` on a file where only some lines carry a dose prints
  "formatted incorrectly" but still returns the raw dose strings. The model
  returns them as `RawTokens`.
- Those raw dose strings are passed on as doses_list. With MotionCor2 dose
  weighting on, subtracting the dose per movie from one raises `TypeError`
  (`Motioncor.RawDoseStringsFailWeighting`).
- `validate_doses` fails on an over-long list (see Findings). The driver
  calls it as written (`Motioncor.PlannedDoses`); the corrected check is
  `TiltOrderFile.ValidateDoses`.
- The folder list of `write_imod_defocus`'s main keeps `''` for a top-level
  .edf file among others (see Findings). `ImodDefocus.DefocusJobs` models the
  loop as written; `ImodDefocus.DefocusJobsKeyed` is the repaired loop.

## Model

| member | source | states |
|---|---|---|
| TiltOrder.ParseScheme | lib/tomo_motioncor2.py:189-190 | a scheme name is recognised exactly when it is one of the six accepted names, and maps back to that name |
| TiltOrder.TiltOrder | lib/tomo_motioncor2.py:194-247 | for a tilt number in 1..n and a zero-tilt index inside the series, the acquisition position lies in 1..n |
| TiltOrder.TiltOrderNamed | lib/tomo_motioncor2.py:194-247 | a name outside the accepted schemes is the ValueError branch; for accepted names the position lies in 1..n |
| TiltOrder.OrderThenPosition | lib/tomo_motioncor2.py:194-243 | every scheme is injective: the explicit inverse recovers the tilt number from its acquisition position |
| TiltOrder.PositionThenOrder | lib/tomo_motioncor2.py:194-243 | every scheme is onto: each acquisition position 1..n is reached by some tilt |
| TiltOrder.OrderListIsPermutation | lib/tomo_motioncor2.py:267 | the order list of any scheme is a permutation of 1..n |
| TiltOrder.ContinuousAndBidirectionalOrders | lib/tomo_motioncor2.py:196-209 | continuous schemes run straight up or down; bidirectional schemes start at the zero tilt, run to one end, then return from the other end |
| TiltOrder.ContinuousMonotone | lib/tomo_motioncor2.py:196-199 | continuous_positive is strictly increasing in the tilt number, continuous_negative strictly decreasing |
| TiltOrder.DoseSymmetricInterleaves | lib/tomo_motioncor2.py:211-243 | dose-symmetric schemes start at the zero tilt and alternate sides, positive side first for _positive and negative side first for _negative |
| TiltOrder.DoseSymmetricTails | lib/tomo_motioncor2.py:223-226 | beyond the symmetric sub-series the remaining tilts are taken last, outward, identically for both dose-symmetric schemes |
| TiltOrder.ClosestIndex | lib/tomo_motioncor2.py:266 | the index of the angle closest to the starting angle; ties go to the first such index |
| TiltOrder.ZeroTiltIndex | lib/tomo_motioncor2.py:265-266 | the zero-tilt index lies in the series and its angle min + step*i is the first closest to the starting angle |
| TiltOrder.TiltOrderFromTiltScheme | lib/tomo_motioncor2.py:263-271 | succeeds exactly for a non-empty series and an accepted scheme, and then gives a permutation of 1..n |
| TiltOrder.ZeroTiltExample | lib/tomo_motioncor2.py:264-266 | -30..30 degrees in steps of 3 puts the zero tilt at index 10 |
| TiltOrder.DoseSymmetricExample | lib/tomo_motioncor2.py:263-267 | seven tilts from -9 degrees, dose_symmetric_positive: order [7, 5, 3, 1, 2, 4, 6] |
| PyList.PermutationIsBijection | lib/tomo_motioncor2.py:285-286 | a permutation of 1..n has distinct entries, which are exactly 1..n |
| PyList.BijectionIsPermutation | lib/tomo_motioncor2.py:285-286 | n distinct entries drawn from 1..n form a permutation |
| TiltOrderFile.ParseIntsPointwise | lib/tomo_motioncor2.py:316 | the list comprehension of int() succeeds exactly when every token parses, element by element |
| TiltOrderFile.ParseIntsFailsOn | lib/tomo_motioncor2.py:315-319 | one token that is not an integer makes the whole conversion fail |
| TiltOrderFile.DisplayCons | lib/tomo_motioncor2.py:274-275 | display_number_list joins the numbers with ", " |
| TiltOrderFile.ReadDisplayedNumberList | lib/tomo_motioncor2.py:332-338 | reading a displayed non-empty list as a custom tilt order gives the list back; the empty display is rejected |
| TiltOrderFile.ValidateTiltOrder | lib/tomo_motioncor2.py:277-289 | passes exactly when the first total_tilts entries are a permutation of 1..total_tilts, returns those entries, and reports a short list as too short |
| TiltOrderFile.ValidatedOrderIsBijection | lib/tomo_motioncor2.py:285-288 | a validated order has distinct entries, which are exactly 1..total_tilts |
| TiltOrderFile.ValidateTwice | lib/tomo_motioncor2.py:277-289 | validation is idempotent |
| TiltOrderFile.SchemeOrderValidates | lib/tomo_motioncor2.py:375-376 | an order computed from a tilt scheme always passes validation unchanged |
| TiltOrderFile.ValidateDosesAsWritten | lib/tomo_motioncor2.py:292-301 | as written, succeeds only for exactly total_tilts doses; a longer list fails on the slice (TypeError) |
| TiltOrderFile.ValidateDoses | lib/tomo_motioncor2.py:292-301 | truncates a long list to total_tilts doses and rejects a short one |
| TiltOrderFile.ValidateDosesDiscrepancy | lib/tomo_motioncor2.py:295 | the two versions agree up to total_tilts doses and differ on every longer list, e.g. [1.0, 2.0] for one tilt |
| TiltOrderFile.ParseFloats | lib/tomo_motioncor2.py:322 | on success each dose is the parse of its token |
| TiltOrderFile.ReadTiltOrder | lib/tomo_motioncor2.py:304-330 | the line loop collects first and second columns and yields what the specification function TiltOrderOfLines gives |
| TiltOrderFile.TokensAppend | lib/tomo_motioncor2.py:309-314 | the columns of concatenated line lists are the concatenated columns |
| TiltOrderFile.TokensOfLine | lib/tomo_motioncor2.py:310-314 | a line contributes its first field to the order column and its second, if any, to the dose column |
| TiltOrderFile.BlankLineIgnored | lib/tomo_motioncor2.py:311 | a blank line anywhere does not change the result |
| TiltOrderFile.ExtraColumnsIgnored | lib/tomo_motioncor2.py:310-314 | fields after the second do not change the result |
| TiltOrderFile.NoOrderTokens | lib/tomo_motioncor2.py:309-312 | the order column is empty exactly when every line is blank |
| TiltOrderFile.NoDoseTokens | lib/tomo_motioncor2.py:313-314 | the dose column is empty exactly when no line has a second field |
| TiltOrderFile.DoseTokensAtMostOrders | lib/tomo_motioncor2.py:309-314 | there are never more doses than orders |
| TiltOrderFile.DoseTokensPerOrder | lib/tomo_motioncor2.py:309-314 | doses and orders are equally many exactly when every non-blank line has a second field |
| TiltOrderFile.DoseColumnShapes | lib/tomo_motioncor2.py:320-329 | with integer orders: float doses when the columns match, None when there is no dose, raw tokens otherwise; failure only when matching doses do not parse |
| TiltOrderFile.FloatsWhenEveryLineHasADose | lib/tomo_motioncor2.py:320-325 | float doses exactly when every line has a parseable dose |
| TiltOrderFile.NoDosesWhenNoLineHasOne | lib/tomo_motioncor2.py:328-329 | no doses exactly when no line has a second field and some line is not blank |
| TiltOrderFile.RawTokensWhenSomeLinesLackADose | lib/tomo_motioncor2.py:326-327 | a partially filled dose column is returned unconverted |
| TiltOrderFile.BlankFile | lib/tomo_motioncor2.py:320-322 | a blank file gives an empty order and an empty dose list |
| TiltOrderFile.NonIntegerOrderFails | lib/tomo_motioncor2.py:315-319 | a non-integer first field on any line fails the read |
| TiltOrderFile.OrderLinesTokens | lib/tomo_motioncor2.py:345 | the order-only file has one integer per line and no dose column |
| TiltOrderFile.OrderDoseLinesTokens | lib/tomo_motioncor2.py:347 | the order-and-dose file has the orders in column one and the formatted doses in column two |
| TiltOrderFile.ReadWrittenOrder | lib/tomo_motioncor2.py:341-350 | reading back a written non-empty order gives the order and no doses |
| TiltOrderFile.ReadWrittenOrderAndDoses | lib/tomo_motioncor2.py:341-350 | reading back a written order with doses gives the zipped prefix of the order and the reparsed doses |
| TiltOrderFile.ParseIntStrings | lib/tomo_motioncor2.py:316 | int() of the printed integers gives them back |
| Motioncor.PlannedDoses | lib/tomo_motioncor2.py:379-381 | without weighting, or when the tilt.order file gave doses (floats or raw strings), doses_list is passed on unchanged; with weighting and no doses it becomes the linear doses, accepted by validate_doses as written exactly when the order has one entry per tilt, with the TypeError for a longer one and the exit for a shorter one |
| Motioncor.PlannedLinearDoses | lib/tomo_motioncor2.py:376-381 | for an order that passed validate_tilt_order, the planned doses are the linear doses, which the corrected check also accepts unchanged |
| Motioncor.LinearDosesFollowAcquisition | lib/tomo_motioncor2.py:380 | for a permutation and a non-negative dose per movie, doses lie between one and n doses above the pre-dose and grow with acquisition position |
| Motioncor.InitDose | lib/tomo_motioncor2.py:411-414 | succeeds exactly when doses_list holds floats with an entry at the movie's slot; the initial dose is that dose minus one movie's dose when this is not negative, and 0 otherwise; a dose string or None raises TypeError |
| Motioncor.InitDoseOfLinearDoses | lib/tomo_motioncor2.py:411-414 | with linear doses and non-negative settings, the movie at file position m starts at m doses past the pre-dose |
| Motioncor.FileDosesCoverEverySlot | lib/tomo_motioncor2.py:366-368 | doses read as floats from a tilt.order file give every movie of the validated order an initial dose, even when the file has more lines than movies |
| Motioncor.RawDoseStringsFailWeighting | lib/tomo_motioncor2.py:379-414 | the raw dose strings of a partly dosed tilt.order file pass planning unchanged, and the initial dose of a movie whose slot holds a string raises TypeError |
| Motioncor.DoseWeightedBesideCorrected | lib/tomo_motioncor2.py:404-406 | the dose-weighted image name is the corrected image's root plus "_DW.mrc" |
| Motioncor.PlaceNextMovie | lib/tomo_motioncor2.py:402-406 | placing the next movie at order_list.index fills exactly its own slot |
| Motioncor.MotioncorImagePaths | lib/tomo_motioncor2.py:400-406 | for a permutation every slot p is filled with the movie whose file number is order[p], named with slot number p+1 |
| Motioncor.AllSlotsFilled | lib/tomo_motioncor2.py:400-406 | after the last movie no slot is None |
| Motioncor.EveryMovieInOneSlot | lib/tomo_motioncor2.py:403-405 | every movie has a slot, and no other slot holds its file number |
| DoseFilter.AgreesWithMotioncorTiltOrder | lib/tomo_dose_filter.py:82-101 | the dose filter's own tilt_order accepts exactly its four schemes and agrees with the MotionCor2 driver's on them |
| DoseFilter.DoseSymmetricRefused | lib/tomo_dose_filter.py:78-79 | the dose-symmetric schemes are refused here though the MotionCor2 driver accepts them |
| DoseFilter.OrderListByName | lib/tomo_dose_filter.py:236 | a successful order list has one entry per image |
| DoseFilter.SchemeDosesFollowMotioncorOrder | lib/tomo_dose_filter.py:231-239 | scheme doses exist exactly for a non-empty series and an accepted scheme, and are the linear doses of the driver's order list from 0 degrees |
| DoseFilter.CustomDoses | lib/tomo_dose_filter.py:240-245 | a custom dose list succeeds with the parsed values when each entry parses and there is one per image; each of the two errors occurs exactly when its condition holds |
| DoseFilter.DoseSeries | lib/tomo_dose_filter.py:230-246 | a dose series, when there is one, has one dose per image, and the stack is not empty |
| DoseFilter.PrunePlotFilters | lib/tomo_dose_filter.py:122-123 | pruning never lengthens the list |
| DoseFilter.PruneKeepsValidIndices | lib/tomo_dose_filter.py:122-123 | an index survives exactly when it was given and lies in 0..number_of_files-1 |
| DoseFilter.PruneConcat | lib/tomo_dose_filter.py:122-123 | pruning distributes over concatenation |
| DoseFilter.PruneIdempotent | lib/tomo_dose_filter.py:122-123 | pruning twice is pruning once |
| DoseFilter.DoseWeight.constructor | lib/tomo_dose_filter.py:105-123 | stores images and doses, prunes the plot filters, and starts with no filtered image |
| DoseFilter.DoseWeight.ApplyDoseWeight | lib/tomo_dose_filter.py:127-175 | fails on no images or a non-2D first image; otherwise it filters every image of the first image's shape with its dose, over the zipped length, and leaves everything else unchanged |
| DoseFilter.SkippedImagesUnchanged | lib/tomo_dose_filter.py:148-150 | an image of another shape keeps its previous slot, and the first image is always filtered with the first dose |
| DoseFilter.TiltSeriesDoseWeight | lib/tomo_dose_filter.py:228-252 | the doses are the dose series; dose_weight runs exactly when doses exist and weighting is on, and then exits when the first image is not 2D and otherwise filters the images |
| DoseFilter.DoseWeightStacks | lib/tomo_dose_filter.py:255-260 | every stack is processed in turn until one ends the program: the stacks before it do not end it, and the stack where the loop stops does |
| DoseFilter.OutputPathKeepsExtension | lib/tomo_dose_filter.py:169-170 | the output keeps the extension and appends "_" + file_append to the root |
| ImodDefocus.FolderOf | lib/tomo_write_imod_defocus.py:76 | a folder key is never empty: an empty dirname becomes '.' |
| ImodDefocus.SplitByFolder | lib/tomo_write_imod_defocus.py:71-87 | the loop stores each maximal run of same-folder rows under its folder, later runs overwriting earlier ones |
| ImodDefocus.WalkFollowsRuns | lib/tomo_write_imod_defocus.py:75-84 | at every step the loop's current folder and group are the last open run, and the dict holds the closed runs |
| ImodDefocus.RunsCoverRows | lib/tomo_write_imod_defocus.py:75-84 | the runs, one after the other, are the rows in their original order |
| ImodDefocus.RunsAreHomogeneous | lib/tomo_write_imod_defocus.py:76-78 | every run is non-empty and all its rows have the run's folder |
| ImodDefocus.RunsAreMaximal | lib/tomo_write_imod_defocus.py:77-84 | neighbouring runs have different folders |
| ImodDefocus.LastGroupWins | lib/tomo_write_imod_defocus.py:81-86 | a folder's stored group is its last run |
| ImodDefocus.StoredFolders | lib/tomo_write_imod_defocus.py:81-86 | a folder is a key exactly when some run has it |
| ImodDefocus.StoredGroupIsAGroup | lib/tomo_write_imod_defocus.py:81-86 | every stored group is one of the runs |
| ImodDefocus.SplitByFolderGroups | lib/tomo_write_imod_defocus.py:71-87 | keys are exactly the folders of the rows' runs, and every stored group holds only rows of its folder |
| ImodDefocus.ReappearingFolderOverwrites | lib/tomo_write_imod_defocus.py:79-86 | rows in folders a, b, a: the first row is lost, and a maps to the third row only |
| ImodDefocus.RowInSomeRun | lib/tomo_write_imod_defocus.py:75-84 | every row's folder is the folder of some run |
| ImodDefocus.NoEmptyKey | lib/tomo_write_imod_defocus.py:72-76 | the empty string is never a key |
| ImodDefocus.ImodFileRootParts | lib/tomo_write_imod_defocus.py:131-136 | the root's basename is the tomogram name, by default the folder's basename; its dirname is the folder unless that is empty or ends in '/' |
| ImodDefocus.JoinedDirname | lib/tomo_write_imod_defocus.py:134-135 | dirname of folder + '/' + name is the folder |
| ImodDefocus.Version3Lines | lib/tomo_write_imod_defocus.py:166-176 | one line per zipped row, numbered from 1: the defocus values in nm, lower first, as the same pair; the angle drops by 90 exactly when U > V |
| ImodDefocus.OrderedDefocusLineUnique | lib/tomo_write_imod_defocus.py:171-175 | the ordering fixes the line: two lines satisfying it for one row are equal |
| ImodDefocus.DefocusJobs | lib/tomo_write_imod_defocus.py:222-233 | main's loop looks up each .edf folder of edf_folders, with only the list [''] replaced by ['.'], under the keys of split_by_folder and skips the missing ones |
| ImodDefocus.DefocusJobsKeyed | lib/tomo_write_imod_defocus.py:222-233 | the same loop with every empty dirname keyed '.', the repair of line 224 |
| ImodDefocus.LookUpFolders | lib/tomo_write_imod_defocus.py:228-233 | the loop gives the found (folder, name, group) jobs in order |
| ImodDefocus.FoundJobsMatchGroups | lib/tomo_write_imod_defocus.py:228-233 | every job carries its folder's stored group and comes from a listed folder; every listed folder with a group gives a job |
| ImodDefocus.TopLevelEdfSkipped | lib/tomo_write_imod_defocus.py:223-224 | as written, x.edf next to sub/y.edf keeps folder '' and is skipped whatever the star file holds |
| ImodDefocus.KeyedFoldersFound | lib/tomo_write_imod_defocus.py:223-230 | with folders keyed as split_by_folder keys them, an .edf folder is found whenever the star file has a row in that directory |
| ImodDefocus.WrittenJobFound | lib/tomo_write_imod_defocus.py:222-233 | as written, an .edf file whose directory holds a star-file micrograph gets its job exactly when its dirname is not empty or it is the only .edf file; otherwise no job names its folder |
| ImodDefocus.KeyedJobFound | lib/tomo_write_imod_defocus.py:222-233 | repaired, every .edf file whose directory holds a star-file micrograph gets its job with that directory's rows |
| ImodDefocus.EdfFoldersAgree | lib/tomo_write_imod_defocus.py:223-224 | keyed and as-written folders agree for a single .edf file or when no dirname is empty |
| CtfEstimate.CtfArgsChecked | lib/tomo_ctf_estimate.py:124-146 | arguments pass exactly when acceptable; each error is reported exactly when its check is the first to fail |
| CtfEstimate.SubstringTestsAreEqualities | lib/tomo_ctf_estimate.py:161-163 | once the program is one of the three, the substring tests against 'gctf' and 'ctffind4' are equality tests |
| CtfEstimate.SortedStarOnlySkipsChecks | lib/tomo_ctf_estimate.py:124 | only_make_sorted_mic_star skips every check |
| CtfEstimate.WriteSortedMicStar | lib/tomo_ctf_estimate.py:205-239 | row i names file_list[order[i]-1], has id mic_id + i and tilt number i + 1, and an angle only for scheme orders; the returned id follows the last row; no files give no rows |
| CtfEstimate.EveryFileOneRow | lib/tomo_ctf_estimate.py:228-236 | for a permutation every file has exactly one row, at its position in the order list |
| CtfEstimate.MicIdsConsecutive | lib/tomo_ctf_estimate.py:231-239 | the ids run consecutively from mic_id and stay below the returned id |
| DoseWeightSharpen.HeaderKindDecided | lib/tomo_doseweight_sharpen.py:136-146 | a stack or volume space group gives exactly one of the two flags, the stack flag when mz == 1; otherwise neither |
| DoseWeightSharpen.KindFlagsExclusive | lib/tomo_doseweight_sharpen.py:132-168 | the result is never both an image stack and a single volume; single-image and volume-stack flags pass through |
| DoseWeightSharpen.OverridesDecide | lib/tomo_doseweight_sharpen.py:155-164 | interpret_as_slices makes any stack or volume a single volume; interpret_as_images alone makes it an image stack; neither leaves the header's answer |
| DoseWeightSharpen.LabelPrecedence | lib/tomo_doseweight_sharpen.py:148-153 | the label names the highest set flag: volume stack, single volume, image stack, single image, else UNKNOWN |
| DoseWeightSharpen.MessagesReportOverrides | lib/tomo_doseweight_sharpen.py:147-164 | one to three messages; the first names the pre-override type; with no override message the flags are the header's |
| DoseWeightSharpen.BothOverridesOnVolume | lib/tomo_doseweight_sharpen.py:155-164 | with both options a single volume ends as a single volume after two reinterpretations |
| DoseWeightSharpen.SharpenedPathKeepsExtension | lib/tomo_doseweight_sharpen.py:181-183 | the output keeps the extension and appends file_append to the root |

## Left out

- File and terminal I/O are not modelled: glob, sorting by name or modification time, opening and writing files, printing, and `sys.exit`. Files are sequences of lines or strings; an exit is a `Failure` or an outcome constructor.
- Shell-script and batch generation is not modelled, nor running MotionCor2, bcat, relion_run_ctffind or gctf. This is command-string glue around external programs.
- Fourier filtering (frequency and filter arrays, the overlay) is numerics on numpy arrays; it is the parameter `filter` of `ApplyDoseWeight`.
- Float parsing (`float()`) and `%f` formatting are the parameters `parseFloat` and `formatFloat`. The read-back lemmas give the reparsed doses, not the original ones.
- `xfToRot` (atan2 in degrees) is not modelled: the .xf rotation of each view is an input of `Version3Lines`. The defocus-file header flag, the phase-shift column (`% 360`), the version-2 lines, the novactf and per-tomogram star writers, and reading .tlt and .xf files are left out.
- Version3Lines: divides the defocus values by 10 as real numbers; Python 2 would truncate if the star file held integers.
- The MRC header queries (`is_single_image`, `is_image_stack`, `is_volume`, `is_volume_stack`, `mz`) are fields of the input `MrcHeader`. The rest of the DoseWeightSharpen class is left out: its constructor, the sharpening loop over `out_mrc.data` and `multidim_apix_to_single_value`.
- Argument parsing and the file, folder and executable checks are left out: lib/tomo_motioncor2.py:88-151 and lib/tomo_ctf_estimate.py:149-155. So are the printed notes about `--cores` and `--gpu`.
- `parse_tilt_order_and_dose` is not part of this model. Its order list and its "custom or file order" flag are inputs of `WriteSortedMicStar`.
- WriteSortedMicStar: requires every used order entry to lie in 1..len(file_list). Python would also index from the end for 0 or negative entries, and raise IndexError above the range.
- The dose filter's stack input (one MRC file read as an array) is modelled as a list of images whose filtered results fill `filteredImages`. Writing each image or the stack to disk is left out; its file name is `DoseFilter.OutputPath`.
- Plotting the filters (matplotlib) is left out.
- `is_unfinished` and `make_executable` test and change files on disk, and are left out.
- The printed summary line of `tilt_order_from_tilt_scheme` is left out.
- DoseFilter.DoseWeight.ApplyDoseWeight: the class keeps no `is_stack` flag; images are always filtered into `filteredImages`.

## Findings

| source | as written | input that shows it | evidently intended | confidence | as-written member | corrected member |
|---|---|---|---|---|---|---|
| lib/tomo_motioncor2.py:295 | `doses_list[0:doses_list]` uses the list itself as the slice bound, a TypeError | any dose list longer than the series, e.g. [1.0, 2.0] for one tilt (TiltOrderFile.ValidateDosesDiscrepancy) | truncate to `total_tilts` doses, as `validate_tilt_order` does at line 280 | high; not executed | TiltOrderFile.ValidateDosesAsWritten | TiltOrderFile.ValidateDoses |
| lib/tomo_write_imod_defocus.py:224 | only the whole list `['']` becomes `['.']`, so an empty dirname among others stays `''` | .edf files x.edf and sub/y.edf: x.edf is looked up under `''`, which split_by_folder never uses as a key, so it is always skipped | key every empty dirname as `'.'`, the convention of split_by_folder at line 76 | medium; not executed | ImodDefocus.TopLevelEdfSkipped | ImodDefocus.DefocusJobsKeyed |
