/** The dose and stack-slot logic of tomogram_motioncor2: the linear dose
    list used when no doses were read, the initial dose handed to MotionCor2,
    and the filling of the output-path lists slot by slot, where each movie's
    corrected image lands in the slot of its physical tilt position. */
module Motioncor {
  import opened Wrappers
  import opened PyList
  import opened PyText
  import TiltOrderFile

  const MotioncorFileSuffix: string := "motioncor_tilt_"
  const DoseWeightSuffix: string := "_DW"

  // ------------------------------------------------------------------ doses

  /** [(item * dose_per_movie) + pre_dose for item in order_list] */
  function LinearDoses(order: seq<int>, dosePerMovie: real, preDose: real): (doses: seq<real>)
    ensures |doses| == |order|
  {
    seq(|order|, i requires 0 <= i < |order| => order[i] as real * dosePerMovie + preDose)
  }

  /** The doses used for weighting. doses_list holds what the tilt.order file
      gave (floats, None, or the raw dose strings of a file where only some
      lines have one); with weighting on and nothing read, it becomes the
      linear doses, checked by validate_doses as written. Otherwise it is
      passed on unchanged. */
  function PlannedDoses(doWeighting: bool, fileDoses: TiltOrderFile.DoseColumn, order: seq<int>,
                        dosePerMovie: real, preDose: real, totalTilts: nat)
    : (r: Result<TiltOrderFile.DoseColumn, TiltOrderFile.ValidationError>)
    ensures !(doWeighting && fileDoses.NoDoses?) ==> r == Success(fileDoses)
    ensures doWeighting && fileDoses.NoDoses? ==>
      && (r.Success? <==> |order| == totalTilts)
      && (r.Success? ==> r.value == TiltOrderFile.Floats(LinearDoses(order, dosePerMovie, preDose)))
      && (|order| > totalTilts ==> r == Failure(TiltOrderFile.SliceTypeError))
      && (|order| < totalTilts ==> r == Failure(TiltOrderFile.TooShort))
  {
    if doWeighting && fileDoses.NoDoses? then
      match TiltOrderFile.ValidateDosesAsWritten(LinearDoses(order, dosePerMovie, preDose), totalTilts)
      case Success(doses) => Success(TiltOrderFile.Floats(doses))
      case Failure(e) => Failure(e)
    else Success(fileDoses)
  }

  /** For an order list that passed validation, the linear doses pass
      their check unchanged, under the corrected check as well. */
  lemma PlannedLinearDoses(order: seq<int>, dosePerMovie: real, preDose: real, totalTilts: nat)
    requires TiltOrderFile.ValidateTiltOrder(order, totalTilts).Success?
    ensures var v := TiltOrderFile.ValidateTiltOrder(order, totalTilts).value;
      PlannedDoses(true, TiltOrderFile.NoDoses, v, dosePerMovie, preDose, totalTilts)
        == Success(TiltOrderFile.Floats(LinearDoses(v, dosePerMovie, preDose)))
    ensures var v := TiltOrderFile.ValidateTiltOrder(order, totalTilts).value;
      TiltOrderFile.ValidateDoses(LinearDoses(v, dosePerMovie, preDose), totalTilts)
        == Success(LinearDoses(v, dosePerMovie, preDose))
  {
    var v := TiltOrderFile.ValidateTiltOrder(order, totalTilts).value;
    assert LinearDoses(v, dosePerMovie, preDose)[..totalTilts] == LinearDoses(v, dosePerMovie, preDose);
  }

  /** In a permutation the movie acquired k-th receives k doses on top of the
      pre-dose, so with a non-negative dose per movie later movies never get
      less. */
  lemma LinearDosesFollowAcquisition(order: seq<int>, dosePerMovie: real, preDose: real, p: nat, q: nat)
    requires IsPermutation(order) && p < |order| && q < |order|
    requires dosePerMovie >= 0.0
    ensures var doses := LinearDoses(order, dosePerMovie, preDose);
      preDose + dosePerMovie <= doses[p] <= preDose + |order| as real * dosePerMovie &&
      (order[p] < order[q] ==> doses[p] <= doses[q])
  {
    PermutationIsBijection(order);
    assert order[p] in order;
    assert 1 <= order[p] <= |order|;
  }

  datatype InitDoseError =
    | DoseIndexError   // doses_list has no entry at the movie's slot: IndexError
    | DoseTypeError    // doses_list is None, or the entry is a string: TypeError

  /** The dose at the start of movie `movie` (0-based file position): the dose
      of its slot minus one movie's worth, clamped at zero with a warning.
      Indexing None, or subtracting a float from a dose string, raises. */
  function InitDose(doses: TiltOrderFile.DoseColumn, order: seq<int>, movie: nat, dosePerMovie: real)
    : (r: Result<real, InitDoseError>)
    requires movie + 1 in order
    ensures var p := IndexOf(order, movie + 1);
      && (r.Success? <==> doses.Floats? && p < |doses.doses|)
      && (r.Success? ==> r.value >= 0.0)
      && (r.Success? && doses.doses[p] - dosePerMovie >= 0.0 ==> r.value == doses.doses[p] - dosePerMovie)
      && (r.Success? && doses.doses[p] - dosePerMovie < 0.0 ==> r.value == 0.0)
      && (doses.RawTokens? && p < |doses.tokens| ==> r == Failure(DoseTypeError))
      && (doses.NoDoses? ==> r == Failure(DoseTypeError))
  {
    var p := IndexOf(order, movie + 1);
    match doses
    case NoDoses => Failure(DoseTypeError)
    case RawTokens(tokens) => if p < |tokens| then Failure(DoseTypeError) else Failure(DoseIndexError)
    case Floats(ds) =>
      if p < |ds| then
        var d := ds[p] - dosePerMovie;
        Success(if d < 0.0 then 0.0 else d)
      else Failure(DoseIndexError)
  }

  /** With linear doses, the clamp never fires for non-negative settings: the
      initial dose of the movie at file position m is m doses past the
      pre-dose. */
  lemma InitDoseOfLinearDoses(order: seq<int>, movie: nat, dosePerMovie: real, preDose: real)
    requires movie + 1 in order
    requires dosePerMovie >= 0.0 && preDose >= 0.0
    ensures InitDose(TiltOrderFile.Floats(LinearDoses(order, dosePerMovie, preDose)), order, movie, dosePerMovie)
      == Success(movie as real * dosePerMovie + preDose)
  {
    var p := IndexOf(order, movie + 1);
    var doses := LinearDoses(order, dosePerMovie, preDose);
    assert doses[p] == (movie + 1) as real * dosePerMovie + preDose;
    assert doses[p] - dosePerMovie == movie as real * dosePerMovie + preDose >= 0.0;
  }

  /** Doses read as floats from a tilt.order file cover every slot of the
      validated order, so every movie gets an initial dose; the file may list
      more doses than there are movies. */
  lemma FileDosesCoverEverySlot(lines: seq<string>, parseFloat: string -> Option<real>, totalTilts: nat,
                                movie: nat, dosePerMovie: real)
    requires TiltOrderFile.TiltOrderOfLines(lines, parseFloat).Success?
    requires TiltOrderFile.TiltOrderOfLines(lines, parseFloat).value.1.Floats?
    requires TiltOrderFile.ValidateTiltOrder(TiltOrderFile.TiltOrderOfLines(lines, parseFloat).value.0, totalTilts).Success?
    requires movie < totalTilts
    ensures var (order, doses) := TiltOrderFile.TiltOrderOfLines(lines, parseFloat).value;
      var v := TiltOrderFile.ValidateTiltOrder(order, totalTilts).value;
      movie + 1 in v && InitDose(doses, v, movie, dosePerMovie).Success?
  {
    var (order, doses) := TiltOrderFile.TiltOrderOfLines(lines, parseFloat).value;
    var v := TiltOrderFile.ValidateTiltOrder(order, totalTilts).value;
    TiltOrderFile.ValidatedOrderIsBijection(order, totalTilts);
    assert movie + 1 in v;
    assert |doses.doses| == |order|;
  }

  /** A tilt.order file where only some lines carry a dose leaves the dose
      strings in doses_list: the planning passes them on, and MotionCor2
      weighting then fails on the first movie whose slot has a string. */
  lemma RawDoseStringsFailWeighting(tokens: seq<string>, order: seq<int>, movie: nat,
                                    dosePerMovie: real, preDose: real, totalTilts: nat)
    requires movie + 1 in order && IndexOf(order, movie + 1) < |tokens|
    ensures var planned := PlannedDoses(true, TiltOrderFile.RawTokens(tokens), order, dosePerMovie, preDose, totalTilts);
      planned == Success(TiltOrderFile.RawTokens(tokens)) &&
      InitDose(planned.value, order, movie, dosePerMovie) == Failure(DoseTypeError)
  {
  }

  // ------------------------------------------------------------------ slots

  /** The corrected image of `movie` placed in 0-based slot `slot`:
      splitext(movie)[0] + '_' + suffix + str(slot + 1).zfill(2) + '.mrc' */
  function MotioncorImagePath(movie: string, slot: nat): string
  {
    MotioncorImageRoot(movie, slot) + ".mrc"
  }

  function MotioncorImageRoot(movie: string, slot: nat): string
  {
    SplitExt(movie).0 + "_" + MotioncorFileSuffix + ZFill(IntToStr(slot + 1), 2)
  }

  /** splitext(path)[0] + dose_weight_suffix + '.mrc' */
  function DoseWeightedPath(path: string): string
  {
    SplitExt(path).0 + DoseWeightSuffix + ".mrc"
  }

  /** The dose-weighted image sits beside the corrected one, with "_DW" before
      the extension. */
  lemma DoseWeightedBesideCorrected(movie: string, slot: nat)
    ensures DoseWeightedPath(MotioncorImagePath(movie, slot))
      == MotioncorImageRoot(movie, slot) + DoseWeightSuffix + ".mrc"
  {
    MotioncorRootEndsInDigit(movie, slot);
    SplitExtOfJoined(MotioncorImageRoot(movie, slot), ".mrc");
  }

  lemma MotioncorRootEndsInDigit(movie: string, slot: nat)
    ensures var root := MotioncorImageRoot(movie, slot);
      |root| > 0 && IsDigit(root[|root| - 1])
  {
    var z := ZFill(IntToStr(slot + 1), 2);
    ZFillOfDigits(IntToStr(slot + 1), 2);
    var root := MotioncorImageRoot(movie, slot);
    assert root[|root| - 1] == z[|z| - 1];
  }

  lemma ZFillOfDigits(s: string, width: int)
    requires |s| > 0 && AllDigits(s)
    ensures var z := ZFill(s, width); |z| > 0 && IsDigit(z[|z| - 1])
  {
    var z := ZFill(s, width);
    if |s| < width {
      assert z[|z| - 1] == s[|s| - 1];
    }
  }

  function DoseWeightedImagePath(movie: string, slot: nat): string
  {
    DoseWeightedPath(MotioncorImagePath(movie, slot))
  }

  /** Every value of the order list is a file number 1..len(file_list). */
  predicate FileNumbers(order: seq<int>, n: nat)
  {
    forall q :: 0 <= q < |order| ==> 1 <= order[q] <= n
  }

  /** The slot list once the first `done` movies (in file order) are placed:
      slot q is filled exactly when its file number is at most `done`. */
  ghost function SlotsAfter(fileList: seq<string>, order: seq<int>, done: nat,
                            name: (string, nat) -> string): (slots: seq<Option<string>>)
    requires FileNumbers(order, |fileList|)
    ensures |slots| == |order|
  {
    seq(|order|, q requires 0 <= q < |order| =>
      if order[q] <= done then Some(name(fileList[order[q] - 1], q)) else None)
  }

  /** Placing movie `done` in the slot list.index finds for it extends the
      filled slots by exactly that one. */
  lemma PlaceNextMovie(fileList: seq<string>, order: seq<int>, done: nat, name: (string, nat) -> string)
    requires FileNumbers(order, |fileList|) && Distinct(order) && done + 1 in order
    ensures var p := IndexOf(order, done + 1);
      SlotsAfter(fileList, order, done, name)[p := Some(name(fileList[done], p))]
      == SlotsAfter(fileList, order, done + 1, name)
  {
    var p := IndexOf(order, done + 1);
    var a := SlotsAfter(fileList, order, done, name)[p := Some(name(fileList[done], p))];
    var b := SlotsAfter(fileList, order, done + 1, name);
    forall q | 0 <= q < |order| ensures a[q] == b[q] {
      if q != p {
        assert order[q] != order[p];
      }
    }
  }

  /** Fills motioncor_image_paths and dw_motioncor_image_paths: for every movie
      in file order, its slot is the position of its file number in the
      order list. For a permutation every slot is filled, slot p with the
      movie whose file number is order[p]. */
  method MotioncorImagePaths(fileList: seq<string>, order: seq<int>)
      returns (paths: seq<Option<string>>, dwPaths: seq<Option<string>>)
    requires |order| == |fileList| && IsPermutation(order)
    ensures |paths| == |dwPaths| == |fileList|
    ensures forall p :: 0 <= p < |order| ==>
      1 <= order[p] <= |fileList| &&
      paths[p] == Some(MotioncorImagePath(fileList[order[p] - 1], p)) &&
      dwPaths[p] == Some(DoseWeightedImagePath(fileList[order[p] - 1], p))
  {
    var n := |fileList|;
    PermutationFileNumbers(order);
    paths := seq(n, _ => None);
    dwPaths := seq(n, _ => None);
    for i := 0 to n
      invariant paths == SlotsAfter(fileList, order, i, MotioncorImagePath)
      invariant dwPaths == SlotsAfter(fileList, order, i, DoseWeightedImagePath)
    {
      assert i + 1 in order;
      var p := IndexOf(order, i + 1);
      var path := MotioncorImagePath(fileList[i], p);
      PlaceNextMovie(fileList, order, i, MotioncorImagePath);
      PlaceNextMovie(fileList, order, i, DoseWeightedImagePath);
      paths := paths[p := Some(path)];
      dwPaths := dwPaths[p := Some(DoseWeightedPath(path))];
    }
    AllSlotsFilled(fileList, order, MotioncorImagePath);
    AllSlotsFilled(fileList, order, DoseWeightedImagePath);
  }

  lemma PermutationFileNumbers(order: seq<int>)
    requires IsPermutation(order)
    ensures FileNumbers(order, |order|) && Distinct(order)
    ensures forall k :: 1 <= k <= |order| ==> k in order
  {
    PermutationIsBijection(order);
    assert forall q :: 0 <= q < |order| ==> order[q] in order;
  }

  /** Once every movie is placed, no slot is None. */
  lemma AllSlotsFilled(fileList: seq<string>, order: seq<int>, name: (string, nat) -> string)
    requires FileNumbers(order, |fileList|)
    ensures forall p :: 0 <= p < |order| ==>
      SlotsAfter(fileList, order, |fileList|, name)[p] == Some(name(fileList[order[p] - 1], p))
  {
  }

  /** Different slots hold different movies, and every movie has a slot. */
  lemma EveryMovieInOneSlot(order: seq<int>, movie: nat)
    requires IsPermutation(order) && movie < |order|
    ensures movie + 1 in order
    ensures forall p :: 0 <= p < |order| && order[p] - 1 == movie ==> p == IndexOf(order, movie + 1)
  {
    PermutationIsBijection(order);
  }
}
