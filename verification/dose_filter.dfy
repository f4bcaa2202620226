/** tomo_dose_filter: exposure (dose) weighting of a tilt series. Its own copy
    of tilt_order knows only the continuous and bidirectional schemes; the
    doses come from that order (zero tilt taken relative to 0 degrees) or
    from a comma-separated custom list; the DoseWeight object prunes the
    indices to plot and filters each image whose shape matches the first.
    The Fourier filter itself is passed in as a function. */
module DoseFilter {
  import opened Wrappers
  import opened PyText
  import TiltOrder
  import TiltOrderFile
  import Motioncor

  /** The module constant starting_tilt_angle. */
  const StartingTiltAngle: real := 0.0

  const AcceptedTiltSchemes: seq<string> :=
    ["continuous_positive", "continuous_negative", "bidirectional_positive", "bidirectional_negative"]

  // ------------------------------------------------------------- tilt order

  /** tilt_order of this script; any other scheme name raises ValueError. */
  function TiltOrderByName(name: string, tiltNum: int, totalTilts: int, zeroTiltIndex: int)
    : (r: Result<int, TiltOrder.SchemeError>)
  {
    var centre := zeroTiltIndex + 1;
    if name == "continuous_positive" then Success(tiltNum)
    else if name == "continuous_negative" then Success(totalTilts - tiltNum + 1)
    else if name == "bidirectional_positive" then
      Success(if tiltNum >= centre then tiltNum - centre + 1 else totalTilts - tiltNum + 1)
    else if name == "bidirectional_negative" then
      Success(if tiltNum <= centre then centre - tiltNum + 1 else tiltNum)
    else Failure(TiltOrder.UnsupportedScheme)
  }

  /** On the four schemes it knows, this copy computes what the tilt_order of
      tomo_motioncor2 computes; every other name, the two dose-symmetric ones
      included, is refused. */
  lemma AgreesWithMotioncorTiltOrder(name: string, tiltNum: int, totalTilts: int, zeroTiltIndex: int)
    ensures TiltOrderByName(name, tiltNum, totalTilts, zeroTiltIndex).Success? <==> name in AcceptedTiltSchemes
    ensures name in AcceptedTiltSchemes ==>
      TiltOrderByName(name, tiltNum, totalTilts, zeroTiltIndex)
      == TiltOrder.TiltOrderNamed(name, tiltNum, totalTilts, zeroTiltIndex)
    ensures name !in AcceptedTiltSchemes ==>
      TiltOrderByName(name, tiltNum, totalTilts, zeroTiltIndex) == Failure(TiltOrder.UnsupportedScheme)
  {
  }

  /** The dose-symmetric schemes, accepted by tomo_motioncor2, are refused here. */
  lemma DoseSymmetricRefused(tiltNum: int, totalTilts: int, zeroTiltIndex: int)
    ensures TiltOrderByName("dose_symmetric_positive", tiltNum, totalTilts, zeroTiltIndex).Failure?
    ensures TiltOrderByName("dose_symmetric_negative", tiltNum, totalTilts, zeroTiltIndex).Failure?
    ensures TiltOrder.TiltOrderNamed("dose_symmetric_positive", tiltNum, totalTilts, zeroTiltIndex).Success?
    ensures TiltOrder.TiltOrderNamed("dose_symmetric_negative", tiltNum, totalTilts, zeroTiltIndex).Success?
  {
  }

  // ------------------------------------------------------------------ doses

  datatype DoseSeriesError =
    | EmptyStack          // min() of an empty angle list raises ValueError
    | UnsupportedScheme   // tilt_order raises ValueError
    | DoseNotFloat        // float() of a custom dose raises ValueError
    | WrongDoseCount      // "Not the correct number of entries": returns, nothing weighted

  /** The order list [tilt_order(scheme, i + 1, T, z) for i in range(T)]. */
  function OrderListByName(name: string, totalTilts: nat, zeroTiltIndex: int): (r: Result<seq<int>, TiltOrder.SchemeError>)
    requires totalTilts >= 1
    ensures r.Success? ==> |r.value| == totalTilts
  {
    if name in AcceptedTiltSchemes then
      Success(seq(totalTilts, i requires 0 <= i < totalTilts =>
        TiltOrderByName(name, i + 1, totalTilts, zeroTiltIndex).value))
    else Failure(TiltOrder.UnsupportedScheme)
  }

  /** The doses derived from the tilt scheme: the zero tilt is the angle
      closest to the module constant 0 degrees, and dose = order * dose_per_tilt
      + pre_dose. */
  function SchemeDoses(name: string, minAngle: real, angleStep: real, totalTilts: nat,
                       dosePerTilt: real, preDose: real): (r: Result<seq<real>, DoseSeriesError>)
  {
    if totalTilts == 0 then Failure(EmptyStack)
    else
      var z := TiltOrder.ZeroTiltIndex(minAngle, angleStep, totalTilts, StartingTiltAngle);
      match OrderListByName(name, totalTilts, z)
      case Success(order) => Success(Motioncor.LinearDoses(order, dosePerTilt, preDose))
      case Failure(_) => Failure(UnsupportedScheme)
  }

  /** The scheme doses are the linear doses of the order list tomo_motioncor2
      would compute for a starting angle of 0, whenever this script knows the
      scheme; an empty stack or an unknown scheme is an error. */
  lemma SchemeDosesFollowMotioncorOrder(name: string, minAngle: real, angleStep: real, totalTilts: nat,
                                        dosePerTilt: real, preDose: real)
    ensures var r := SchemeDoses(name, minAngle, angleStep, totalTilts, dosePerTilt, preDose);
      && (r.Success? <==> totalTilts >= 1 && name in AcceptedTiltSchemes)
      && (r == Failure(EmptyStack) <==> totalTilts == 0)
      && (r.Success? ==>
            var order := TiltOrder.TiltOrderFromTiltScheme(name, minAngle, angleStep, totalTilts, 0.0);
            order.Success? && r.value == Motioncor.LinearDoses(order.value, dosePerTilt, preDose))
  {
    if totalTilts >= 1 && name in AcceptedTiltSchemes {
      var z := TiltOrder.ZeroTiltIndex(minAngle, angleStep, totalTilts, StartingTiltAngle);
      var mine := OrderListByName(name, totalTilts, z).value;
      var theirs := TiltOrder.TiltOrderFromTiltScheme(name, minAngle, angleStep, totalTilts, 0.0);
      var scheme := TiltOrder.ParseScheme(name).value;
      assert theirs == Success(TiltOrder.OrderList(scheme, totalTilts, z));
      forall i | 0 <= i < totalTilts ensures mine[i] == TiltOrder.OrderList(scheme, totalTilts, z)[i] {
        AgreesWithMotioncorTiltOrder(name, i + 1, totalTilts, z);
      }
      assert mine == theirs.value;
    }
  }

  /** custom_dose_series.split(','), each part through float(); a count that
      differs from the number of images means nothing is weighted. */
  function CustomDoses(text: string, numberOfFiles: nat, parseFloat: string -> Option<real>)
    : (r: Result<seq<real>, DoseSeriesError>)
    ensures r.Success? ==> |r.value| == |SplitOn(text, ',')| == numberOfFiles
    ensures r.Success? ==> forall i :: 0 <= i < numberOfFiles ==> parseFloat(SplitOn(text, ',')[i]) == Some(r.value[i])
    ensures r == Failure(WrongDoseCount) <==>
      TiltOrderFile.ParseFloats(SplitOn(text, ','), parseFloat).Some? && |SplitOn(text, ',')| != numberOfFiles
    ensures r == Failure(DoseNotFloat) <==> TiltOrderFile.ParseFloats(SplitOn(text, ','), parseFloat).None?
  {
    match TiltOrderFile.ParseFloats(SplitOn(text, ','), parseFloat)
    case None => Failure(DoseNotFloat)
    case Some(doses) => if |doses| != numberOfFiles then Failure(WrongDoseCount) else Success(doses)
  }

  /** The doses of tilt_series_dose_weight: the custom list when one is given,
      otherwise the scheme doses. */
  function DoseSeries(customDoseSeries: Option<string>, name: string, minAngle: real, angleStep: real,
                      numberOfFiles: nat, dosePerTilt: real, preDose: real, parseFloat: string -> Option<real>)
    : (r: Result<seq<real>, DoseSeriesError>)
    ensures r.Success? ==> |r.value| == numberOfFiles && numberOfFiles > 0
  {
    match customDoseSeries
    case Some(text) => CustomDoses(text, numberOfFiles, parseFloat)
    case None => SchemeDoses(name, minAngle, angleStep, numberOfFiles, dosePerTilt, preDose)
  }

  // ---------------------------------------------------------- plot filters

  /** [x for x in plot_filters if x >= 0 and x < number_of_files] */
  function PrunePlotFilters(plotFilters: seq<int>, numberOfFiles: nat): (kept: seq<int>)
    ensures |kept| <= |plotFilters|
  {
    if plotFilters == [] then []
    else
      var rest := PrunePlotFilters(plotFilters[1..], numberOfFiles);
      if 0 <= plotFilters[0] < numberOfFiles then [plotFilters[0]] + rest else rest
  }

  /** An index is kept exactly when it was asked for and names an image. */
  lemma {:induction false} PruneKeepsValidIndices(plotFilters: seq<int>, numberOfFiles: nat, x: int)
    ensures x in PrunePlotFilters(plotFilters, numberOfFiles) <==> x in plotFilters && 0 <= x < numberOfFiles
  {
    if plotFilters != [] {
      PruneKeepsValidIndices(plotFilters[1..], numberOfFiles, x);
      assert x in plotFilters <==> x == plotFilters[0] || x in plotFilters[1..];
    }
  }

  /** Pruning works piece by piece, so the kept indices stay in their
      original order. */
  lemma {:induction false} PruneConcat(a: seq<int>, b: seq<int>, numberOfFiles: nat)
    ensures PrunePlotFilters(a + b, numberOfFiles) == PrunePlotFilters(a, numberOfFiles) + PrunePlotFilters(b, numberOfFiles)
  {
    if a != [] {
      assert (a + b)[0] == a[0] && (a + b)[1..] == a[1..] + b;
      PruneConcat(a[1..], b, numberOfFiles);
      var ra, rb := PrunePlotFilters(a[1..], numberOfFiles), PrunePlotFilters(b, numberOfFiles);
      assert PrunePlotFilters(a + b, numberOfFiles) ==
        (if 0 <= a[0] < numberOfFiles then [a[0]] else []) + (ra + rb);
      assert PrunePlotFilters(a, numberOfFiles) ==
        (if 0 <= a[0] < numberOfFiles then [a[0]] else []) + ra;
      var head := if 0 <= a[0] < numberOfFiles then [a[0]] else [];
      assert head + (ra + rb) == (head + ra) + rb;
    } else {
      assert a + b == b;
    }
  }

  /** A list already in range is kept whole, so pruning twice changes nothing. */
  lemma {:induction false} PruneIdempotent(plotFilters: seq<int>, numberOfFiles: nat)
    ensures PrunePlotFilters(PrunePlotFilters(plotFilters, numberOfFiles), numberOfFiles)
      == PrunePlotFilters(plotFilters, numberOfFiles)
  {
    if plotFilters != [] {
      PruneIdempotent(plotFilters[1..], numberOfFiles);
      var rest := PrunePlotFilters(plotFilters[1..], numberOfFiles);
      if 0 <= plotFilters[0] < numberOfFiles {
        assert ([plotFilters[0]] + rest)[1..] == rest;
      }
    }
  }

  // ------------------------------------------------------------ dose weight

  /** An image as read by mrcfile: its shape and its values. */
  datatype Image = Image(shape: seq<int>, data: seq<real>)

  datatype WeightOutcome =
    | Weighted
    | NoImages            // self.images[0] raises IndexError
    | NotTwoDimensional   // "Images must be 2D. Quitting..."

  /** The outputs after dose_weight: image i is filtered with its dose when it
      has a dose and the shape of the first image, and keeps its earlier
      value when it is skipped. */
  function WeightedImages(images: seq<Image>, doses: seq<real>, filter: (Image, real) -> Image,
                          before: seq<Option<Image>>): (after: seq<Option<Image>>)
    requires |images| > 0 && |before| == |images|
    ensures |after| == |images|
  {
    seq(|images|, i requires 0 <= i < |images| =>
      if i < |doses| && images[i].shape == images[0].shape then Some(filter(images[i], doses[i]))
      else before[i])
  }

  class DoseWeight {
    var images: seq<Image>
    var numberOfFiles: nat
    var doses: seq<real>
    var plotFilters: seq<int>
    /** What has been written for each image: None until it is filtered. */
    var filteredImages: seq<Option<Image>>

    predicate Valid()
      reads this
    {
      numberOfFiles == |images| == |filteredImages| &&
      forall k :: 0 <= k < |plotFilters| ==> 0 <= plotFilters[k] < numberOfFiles
    }

    constructor(images: seq<Image>, doses: seq<real>, plotFilters: seq<int>)
      ensures Valid()
      ensures this.images == images && this.doses == doses
      ensures this.plotFilters == PrunePlotFilters(plotFilters, |images|)
      ensures filteredImages == seq(|images|, _ => None)
    {
      this.images := images;
      this.numberOfFiles := |images|;
      this.doses := doses;
      this.plotFilters := PrunePlotFilters(plotFilters, |images|);
      this.filteredImages := seq(|images|, _ => None);
      new;
      forall k | 0 <= k < |this.plotFilters| ensures 0 <= this.plotFilters[k] < numberOfFiles {
        PruneKeepsValidIndices(plotFilters, |images|, this.plotFilters[k]);
      }
    }

    /** dose_weight: refuses a first image that is not 2-D, then walks
        zip(images, doses), skipping every image whose shape differs from
        the first one's. */
    method ApplyDoseWeight(filter: (Image, real) -> Image) returns (outcome: WeightOutcome)
      requires Valid()
      modifies this
      ensures Valid()
      ensures images == old(images) && doses == old(doses) && plotFilters == old(plotFilters)
      ensures outcome == (if |images| == 0 then NoImages
                          else if |images[0].shape| != 2 then NotTwoDimensional
                          else Weighted)
      ensures outcome == Weighted ==> filteredImages == WeightedImages(images, doses, filter, old(filteredImages))
      ensures outcome != Weighted ==> filteredImages == old(filteredImages)
    {
      if |images| == 0 {
        return NoImages;
      }
      var shape := images[0].shape;
      if |shape| != 2 {
        return NotTwoDimensional;
      }
      var n := if |images| <= |doses| then |images| else |doses|;
      for i := 0 to n
        invariant numberOfFiles == |images| == |filteredImages|
        invariant images == old(images) && doses == old(doses) && plotFilters == old(plotFilters)
        invariant forall k :: 0 <= k < |images| ==>
          filteredImages[k] == if k < i && k < |doses| && images[k].shape == shape
            then Some(filter(images[k], doses[k])) else old(filteredImages)[k]
      {
        if images[i].shape != shape {
          continue;
        }
        filteredImages := filteredImages[i := Some(filter(images[i], doses[i]))];
      }
      outcome := Weighted;
    }
  }

  /** An image is written filtered only if it has the shape of the first one,
      and the first one is always filtered when it has a dose. */
  lemma SkippedImagesUnchanged(images: seq<Image>, doses: seq<real>, filter: (Image, real) -> Image,
                               before: seq<Option<Image>>, i: nat)
    requires |images| > 0 && |before| == |images| && i < |images|
    ensures images[i].shape != images[0].shape ==> WeightedImages(images, doses, filter, before)[i] == before[i]
    ensures i == 0 && |doses| > 0 ==> WeightedImages(images, doses, filter, before)[0] == Some(filter(images[0], doses[0]))
  {
  }

  /** tilt_series_dose_weight: builds the DoseWeight object, derives the doses
      and, unless weighting is switched off, weights the images. `outcome` is
      None when dose_weight is not called; NotTwoDimensional is its
      sys.exit(2). */
  method TiltSeriesDoseWeight(images: seq<Image>, plotFilters: seq<int>, customDoseSeries: Option<string>,
                              name: string, minAngle: real, angleStep: real, dosePerTilt: real, preDose: real,
                              doNotDoDoseWeighting: bool, parseFloat: string -> Option<real>,
                              filter: (Image, real) -> Image)
      returns (doses: Result<seq<real>, DoseSeriesError>, outcome: Option<WeightOutcome>,
               filtered: Option<seq<Option<Image>>>)
    ensures doses == DoseSeries(customDoseSeries, name, minAngle, angleStep, |images|, dosePerTilt, preDose, parseFloat)
    ensures outcome.Some? <==> doses.Success? && !doNotDoDoseWeighting
    ensures outcome.Some? && |images[0].shape| != 2 ==> outcome.value == NotTwoDimensional
    ensures outcome.Some? && |images[0].shape| == 2 ==> outcome.value == Weighted
    ensures filtered.Some? <==> outcome == Some(Weighted)
    ensures filtered.Some? ==>
      filtered.value == WeightedImages(images, doses.value, filter, seq(|images|, _ => None))
  {
    var dw := new DoseWeight(images, [], plotFilters);
    doses := DoseSeries(customDoseSeries, name, minAngle, angleStep, dw.numberOfFiles, dosePerTilt, preDose, parseFloat);
    outcome, filtered := None, None;
    if doses.Failure? {
      return;
    }
    dw.doses := doses.value;
    if !doNotDoDoseWeighting {
      var o := dw.ApplyDoseWeight(filter);
      outcome := Some(o);
      if o == Weighted {
        filtered := Some(dw.filteredImages);
      }
    }
  }

  /** Whether tilt_series_dose_weight ends the program on this stack: a
      ValueError while deriving the doses, or the exit of dose_weight. A wrong
      number of custom doses only returns. */
  predicate EndsProgram(images: seq<Image>, customDoseSeries: Option<string>, name: string, minAngle: real,
                        angleStep: real, dosePerTilt: real, preDose: real, doNotDoDoseWeighting: bool,
                        parseFloat: string -> Option<real>)
  {
    match DoseSeries(customDoseSeries, name, minAngle, angleStep, |images|, dosePerTilt, preDose, parseFloat)
    case Failure(e) => e != WrongDoseCount
    case Success(_) => !doNotDoDoseWeighting && (|images| == 0 || |images[0].shape| != 2)
  }

  /** main: tilt_series_dose_weight for every stack in turn, until one ends
      the program. `processed` counts the stacks whose call returned; when it
      is short of the list, the next stack is the one that ended the run. */
  method DoseWeightStacks(stacks: seq<seq<Image>>, plotFilters: seq<int>, customDoseSeries: Option<string>,
                          name: string, minAngle: real, angleStep: real, dosePerTilt: real, preDose: real,
                          doNotDoDoseWeighting: bool, parseFloat: string -> Option<real>,
                          filter: (Image, real) -> Image)
      returns (processed: nat)
    ensures processed <= |stacks|
    ensures forall k :: 0 <= k < processed ==>
      !EndsProgram(stacks[k], customDoseSeries, name, minAngle, angleStep, dosePerTilt, preDose,
                   doNotDoDoseWeighting, parseFloat)
    ensures processed < |stacks| ==>
      EndsProgram(stacks[processed], customDoseSeries, name, minAngle, angleStep, dosePerTilt, preDose,
                  doNotDoDoseWeighting, parseFloat)
  {
    processed := 0;
    while processed < |stacks|
      invariant processed <= |stacks|
      invariant forall k :: 0 <= k < processed ==>
        !EndsProgram(stacks[k], customDoseSeries, name, minAngle, angleStep, dosePerTilt, preDose,
                     doNotDoDoseWeighting, parseFloat)
    {
      var doses, outcome, _ := TiltSeriesDoseWeight(stacks[processed], plotFilters, customDoseSeries, name,
                                                    minAngle, angleStep, dosePerTilt, preDose,
                                                    doNotDoDoseWeighting, parseFloat, filter);
      if (doses.Failure? && doses.error != WrongDoseCount) || outcome == Some(NotTwoDimensional) {
        return;
      }
      processed := processed + 1;
    }
  }

  /** The output name of a filtered file: filename + '_' + file_append + ext. */
  function OutputPath(path: string, fileAppend: string): string
  {
    var (filename, extension) := SplitExt(path);
    filename + "_" + fileAppend + extension
  }

  /** The output keeps the input's extension and adds "_" + file_append to its
      root, as long as file_append holds no '.' or '/'. */
  lemma OutputPathKeepsExtension(path: string, fileAppend: string)
    requires '.' !in fileAppend && '/' !in fileAppend
    requires SplitExt(path).1 != ""
    ensures SplitExt(OutputPath(path, fileAppend)) == (SplitExt(path).0 + "_" + fileAppend, SplitExt(path).1)
  {
    var (filename, extension) := SplitExt(path);
    var root := filename + "_" + fileAppend;
    assert root[|root| - 1] == if fileAppend == "" then '_' else fileAppend[|fileAppend| - 1];
    ExtensionHasOneDot(path);
    SplitExtOfJoined(root, extension);
  }
}
