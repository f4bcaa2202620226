/** The argument checks of tomo_ctf_estimate and the micrograph star file it
    writes for one tilt series: one row per tilt in acquisition order, with
    consecutive micrograph ids. */
module CtfEstimate {
  import opened Wrappers
  import opened PyList
  import opened PyText

  const CtfSoftwareOptions: seq<string> := ["ctffind4", "ctffind3", "gctf"]
  /** A plain string, not a tuple: `in` on it is a substring test. */
  const Rln2OnlyCtfSoftware: string := "gctf"
  /** A plain string as well. */
  const PhaseShiftCtfSoftware: string := "ctffind4"
  const PhaseShiftRelionVersions: seq<int> := [2]
  const RlnVersions: seq<int> := [1, 2]

  // ------------------------------------------------------------ validation

  /** The options ctf_estimation_argument_validation looks at. */
  datatype CtfArgs = CtfArgs(onlyMakeSortedMicStar: bool, rlnVersion: int, ctfSoftware: string,
                             pixelSize: Option<real>, doPhaseshift: bool)

  datatype CtfArgError =
    | UnsupportedRelionVersion
    | UnsupportedCtfSoftware
    | SoftwareNeedsRelion2
    | MissingPixelSize
    | PhaseShiftSoftware
    | PhaseShiftRelionVersion

  /** The guards in their textual order; the first that fails ends the
      program with its message. None: the arguments pass. */
  function ValidateCtfArgs(args: CtfArgs): Option<CtfArgError>
  {
    if args.onlyMakeSortedMicStar then None
    else if args.rlnVersion !in RlnVersions then Some(UnsupportedRelionVersion)
    else if args.ctfSoftware !in CtfSoftwareOptions then Some(UnsupportedCtfSoftware)
    else if args.rlnVersion == 1 && Contains(Rln2OnlyCtfSoftware, args.ctfSoftware) then Some(SoftwareNeedsRelion2)
    else if args.pixelSize.None? then Some(MissingPixelSize)
    else if args.doPhaseshift && !Contains(PhaseShiftCtfSoftware, args.ctfSoftware) then Some(PhaseShiftSoftware)
    else if args.doPhaseshift && args.rlnVersion !in PhaseShiftRelionVersions then Some(PhaseShiftRelionVersion)
    else None
  }

  /** What the checks mean: relion 1 or 2, one of the three programs, gctf
      only with relion 2, a pixel size, and phase shifts only with ctffind4
      under relion 2, unless only the sorted star file is wanted. */
  predicate AcceptedCtfArgs(args: CtfArgs)
  {
    || args.onlyMakeSortedMicStar
    || (&& (args.rlnVersion == 1 || args.rlnVersion == 2)
        && args.ctfSoftware in {"ctffind4", "ctffind3", "gctf"}
        && !(args.rlnVersion == 1 && args.ctfSoftware == "gctf")
        && args.pixelSize.Some?
        && (args.doPhaseshift ==> args.ctfSoftware == "ctffind4" && args.rlnVersion == 2))
  }

  /** Once the program is known to be one of the three, the two substring
      tests are equality tests. */
  lemma SubstringTestsAreEqualities(software: string)
    requires software in CtfSoftwareOptions
    ensures Contains(Rln2OnlyCtfSoftware, software) <==> software == "gctf"
    ensures Contains(PhaseShiftCtfSoftware, software) <==> software == "ctffind4"
  {
    if software != "gctf" {
      if Contains(Rln2OnlyCtfSoftware, software) {
        ContainsOnlyShorter(Rln2OnlyCtfSoftware, software);
      }
    } else {
      assert IsPrefix(software, Rln2OnlyCtfSoftware);
      if Contains(PhaseShiftCtfSoftware, software) {
        NotInCtffind4(PhaseShiftCtfSoftware, software);
      }
    }
    if software == "ctffind3" {
      assert PhaseShiftCtfSoftware[7] != software[7];
      assert !IsPrefix(software, PhaseShiftCtfSoftware);
      if Contains(PhaseShiftCtfSoftware[1..], software) {
        ContainsOnlyShorter(PhaseShiftCtfSoftware[1..], software);
      }
    }
    if software == "ctffind4" {
      assert IsPrefix(software, PhaseShiftCtfSoftware);
    }
  }

  /** "gctf" is not a substring of "ctffind4": no 'g' there. */
  lemma {:induction false} NotInCtffind4(hay: string, needle: string)
    requires |needle| > 0 && needle[0] == 'g' && 'g' !in hay
    ensures !Contains(hay, needle)
  {
    if |hay| > 0 {
      assert forall c :: c in hay[1..] ==> c in hay;
      NotInCtffind4(hay[1..], needle);
    }
  }

  /** The arguments pass exactly when they are acceptable, and each message
      is the first check they fail. */
  lemma CtfArgsChecked(args: CtfArgs)
    ensures ValidateCtfArgs(args) == None <==> AcceptedCtfArgs(args)
    ensures var r, only, v, sw := ValidateCtfArgs(args), args.onlyMakeSortedMicStar, args.rlnVersion, args.ctfSoftware;
      var known := !only && (v == 1 || v == 2) && sw in {"ctffind4", "ctffind3", "gctf"};
      && (r == Some(UnsupportedRelionVersion) <==> !only && v != 1 && v != 2)
      && (r == Some(UnsupportedCtfSoftware) <==> !only && (v == 1 || v == 2) && sw !in {"ctffind4", "ctffind3", "gctf"})
      && (r == Some(SoftwareNeedsRelion2) <==> !only && v == 1 && sw == "gctf")
      && (r == Some(MissingPixelSize) <==> known && !(v == 1 && sw == "gctf") && args.pixelSize.None?)
      && (r == Some(PhaseShiftSoftware) <==>
            known && !(v == 1 && sw == "gctf") && args.pixelSize.Some? && args.doPhaseshift && sw != "ctffind4")
      && (r == Some(PhaseShiftRelionVersion) <==>
            known && args.pixelSize.Some? && args.doPhaseshift && sw == "ctffind4" && v == 1)
  {
    if args.ctfSoftware in CtfSoftwareOptions {
      SubstringTestsAreEqualities(args.ctfSoftware);
    }
  }

  /** With only_make_sorted_mic_star none of the checks runs. */
  lemma SortedStarOnlySkipsChecks(args: CtfArgs)
    requires args.onlyMakeSortedMicStar
    ensures ValidateCtfArgs(args) == None
  {
  }

  // ------------------------------------------------- write_sorted_mic_star

  /** One row of the sorted micrograph star file. */
  datatype MicItem = MicItem(micrographName: string, micrographId: int, tiltAngle: Option<real>,
                             tiltNumber: nat, tomoName: string)

  /** The tilt angle of position i: min_angle + angle_step * i when the
      order came from the tilt scheme, None when it came from a custom list
      or a tilt.order file. */
  function TiltAngleAt(usedCustomOrFileOrder: bool, minAngle: real, angleStep: real, i: nat): Option<real>
  {
    if usedCustomOrFileOrder then None else Some(minAngle + angleStep * i as real)
  }

  /** Row i of the star file: the file acquired i-th, the i-th id after the
      first, tilt number i + 1. */
  predicate SortedMicRow(item: MicItem, i: nat, fileList: seq<string>, order: seq<int>, usedCustomOrFileOrder: bool,
                         minAngle: real, angleStep: real, tomoName: string, micId: int)
    requires i < |order| && 1 <= order[i] <= |fileList|
  {
    item == MicItem(fileList[order[i] - 1], micId + i, TiltAngleAt(usedCustomOrFileOrder, minAngle, angleStep, i),
                    i + 1, tomoName)
  }

  /** write_sorted_mic_star once the files are listed and the order list is
      known: one row per pair of zip(order_list, tilt_list), and the id after
      the last row. No files: no rows, the id unchanged. */
  method WriteSortedMicStar(fileList: seq<string>, order: seq<int>, usedCustomOrFileOrder: bool,
                            minAngle: real, angleStep: real, tomoName: string, micId: int)
      returns (md: seq<MicItem>, nextId: int)
    requires forall q :: 0 <= q < |order| && q < |fileList| ==> 1 <= order[q] <= |fileList|
    ensures |md| == (if |fileList| == 0 then 0 else if |order| < |fileList| then |order| else |fileList|)
    ensures nextId == micId + |md|
    ensures forall i :: 0 <= i < |md| ==>
      SortedMicRow(md[i], i, fileList, order, usedCustomOrFileOrder, minAngle, angleStep, tomoName, micId)
  {
    var totalTilts := |fileList|;
    if totalTilts == 0 {
      return [], micId;
    }
    var tiltList := seq(totalTilts, i requires 0 <= i < totalTilts => TiltAngleAt(usedCustomOrFileOrder, minAngle, angleStep, i));
    var n := if |order| < totalTilts then |order| else totalTilts;
    md := [];
    nextId := micId;
    for i := 0 to n
      invariant |md| == i && nextId == micId + i
      invariant forall k :: 0 <= k < i ==>
        SortedMicRow(md[k], k, fileList, order, usedCustomOrFileOrder, minAngle, angleStep, tomoName, micId)
    {
      var file := fileList[order[i] - 1];
      var p := MicItem(file, nextId, tiltList[i], i + 1, tomoName);
      nextId := nextId + 1;
      md := md + [p];
    }
  }

  /** For a permutation of the tilts every file has exactly one row: the one
      at its position in the order list, whose tilt number is that position
      plus one; no other position holds its file number. */
  lemma EveryFileOneRow(md: seq<MicItem>, fileList: seq<string>, order: seq<int>, usedCustomOrFileOrder: bool,
                        minAngle: real, angleStep: real, tomoName: string, micId: int)
    requires IsPermutation(order) && |order| == |fileList| == |md|
    requires forall q :: 0 <= q < |order| ==> 1 <= order[q] <= |fileList|
    requires forall i :: 0 <= i < |md| ==>
      SortedMicRow(md[i], i, fileList, order, usedCustomOrFileOrder, minAngle, angleStep, tomoName, micId)
    ensures Distinct(order)
    ensures forall k :: 0 <= k < |fileList| ==> k + 1 in order && FileRowAt(md, fileList, order, k)
  {
    PermutationIsBijection(order);
    forall k | 0 <= k < |fileList|
      ensures k + 1 in order && FileRowAt(md, fileList, order, k)
    {
      assert k + 1 in order;
      var i := IndexOf(order, k + 1);
      assert SortedMicRow(md[i], i, fileList, order, usedCustomOrFileOrder, minAngle, angleStep, tomoName, micId);
    }
  }

  /** The row at the position of file k in the order list names that file. */
  predicate FileRowAt(md: seq<MicItem>, fileList: seq<string>, order: seq<int>, k: nat)
    requires k < |fileList| && k + 1 in order && |md| == |order|
  {
    var i := IndexOf(order, k + 1);
    md[i].micrographName == fileList[k] && md[i].tiltNumber == i + 1
  }

  /** The ids of consecutive rows differ by one, and all lie in
      [mic_id, returned id). */
  lemma MicIdsConsecutive(md: seq<MicItem>, fileList: seq<string>, order: seq<int>, usedCustomOrFileOrder: bool,
                          minAngle: real, angleStep: real, tomoName: string, micId: int, nextId: int)
    requires |md| <= |order| && nextId == micId + |md|
    requires forall q :: 0 <= q < |order| ==> 1 <= order[q] <= |fileList|
    requires forall i :: 0 <= i < |md| ==>
      SortedMicRow(md[i], i, fileList, order, usedCustomOrFileOrder, minAngle, angleStep, tomoName, micId)
    ensures forall i :: 0 <= i < |md| ==> micId <= md[i].micrographId < nextId
    ensures forall i :: 0 < i < |md| ==> md[i].micrographId == md[i - 1].micrographId + 1
  {
    forall i | 0 <= i < |md|
      ensures md[i].micrographId == micId + i
    {
      assert SortedMicRow(md[i], i, fileList, order, usedCustomOrFileOrder, minAngle, angleStep, tomoName, micId);
    }
  }
}
