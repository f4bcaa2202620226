/** How tomo_doseweight_sharpen decides what an MRC file holds (a single
    image, an image stack, a single volume or a volume stack), and where its
    output goes when it does not work in place. */
module DoseWeightSharpen {
  import opened PyText

  /** The answers of the MRC file's own queries, read from its header: the
      space-group tests and the number of sections mz. */
  datatype MrcHeader = MrcHeader(isSingleImage: bool, spacegroupIsImageStack: bool,
                                 spacegroupIsSingleVolume: bool, isVolumeStack: bool, mz: int)

  /** The four flags is_stack_or_volume returns. */
  datatype ImageKind = ImageKind(isSingleImage: bool, isImageStack: bool, isSingleVolume: bool, isVolumeStack: bool)

  /** The flags before the interpret_as_* options: a file whose space group
      says stack or volume is an image stack when mz == 1 and a single volume
      otherwise; any other file is neither. */
  function HeaderKind(mrc: MrcHeader): ImageKind
  {
    var (isImageStack, isSingleVolume) :=
      if mrc.spacegroupIsImageStack || mrc.spacegroupIsSingleVolume then
        if mrc.mz == 1 then (true, false) else (false, true)
      else (mrc.spacegroupIsImageStack, mrc.spacegroupIsSingleVolume);
    ImageKind(mrc.isSingleImage, isImageStack, isSingleVolume, mrc.isVolumeStack)
  }

  /** is_stack_or_volume: interpret_as_images turns a single volume into an
      image stack, then interpret_as_slices turns an image stack into a
      single volume. */
  function IsStackOrVolume(mrc: MrcHeader, interpretAsSlices: bool, interpretAsImages: bool): ImageKind
  {
    var k := HeaderKind(mrc);
    var k := if interpretAsImages && k.isSingleVolume then k.(isSingleVolume := false, isImageStack := true) else k;
    if interpretAsSlices && k.isImageStack then k.(isSingleVolume := true, isImageStack := false) else k
  }

  /** The type named in the first message, from the flags before the
      overrides; each later assignment overrides the earlier ones. */
  function InputTypeLabel(k: ImageKind): string
  {
    var s := "UNKNOWN";
    var s := if k.isSingleImage then "a single image" else s;
    var s := if k.isImageStack then "an image stack" else s;
    var s := if k.isSingleVolume then "a single volume" else s;
    if k.isVolumeStack then "a volume stack" else s
  }

  /** The messages is_stack_or_volume prints, in order. */
  function KindMessages(mrc: MrcHeader, interpretAsSlices: bool, interpretAsImages: bool): seq<string>
  {
    var k := HeaderKind(mrc);
    var afterImages := interpretAsImages && k.isSingleVolume;
    var stackNow := if afterImages then true else k.isImageStack;
    ["Input image is " + InputTypeLabel(k) + "."]
      + (if afterImages then ["Interpreting input image as an image stack"] else [])
      + (if interpretAsSlices && stackNow then ["Interpreting input image as a single volume"] else [])
  }

  /** Without the overrides: when the space group says stack or volume,
      exactly one of the two flags is set, the stack flag when mz == 1;
      otherwise neither. */
  lemma HeaderKindDecided(mrc: MrcHeader)
    ensures var k := HeaderKind(mrc);
      && (mrc.spacegroupIsImageStack || mrc.spacegroupIsSingleVolume ==>
            (k.isImageStack <==> mrc.mz == 1) && (k.isSingleVolume <==> mrc.mz != 1))
      && (!mrc.spacegroupIsImageStack && !mrc.spacegroupIsSingleVolume ==> !k.isImageStack && !k.isSingleVolume)
  {
  }

  /** After the overrides an image is never both an image stack and a single
      volume; the single-image and volume-stack flags pass through. */
  lemma KindFlagsExclusive(mrc: MrcHeader, interpretAsSlices: bool, interpretAsImages: bool)
    ensures var k := IsStackOrVolume(mrc, interpretAsSlices, interpretAsImages);
      && !(k.isImageStack && k.isSingleVolume)
      && k.isSingleImage == mrc.isSingleImage
      && k.isVolumeStack == mrc.isVolumeStack
  {
    HeaderKindDecided(mrc);
  }

  /** What the overrides do: with interpret_as_slices every stack or volume
      ends a single volume, whatever interpret_as_images says; with only
      interpret_as_images every one ends an image stack; with neither the
      header decides. */
  lemma OverridesDecide(mrc: MrcHeader, interpretAsSlices: bool, interpretAsImages: bool)
    ensures var before, k := HeaderKind(mrc), IsStackOrVolume(mrc, interpretAsSlices, interpretAsImages);
      var stackOrVolume := before.isImageStack || before.isSingleVolume;
      && (k.isImageStack || k.isSingleVolume <==> stackOrVolume)
      && (interpretAsSlices && stackOrVolume ==> k.isSingleVolume)
      && (!interpretAsSlices && interpretAsImages && stackOrVolume ==> k.isImageStack)
      && (!interpretAsSlices && !interpretAsImages ==> k == before)
  {
    HeaderKindDecided(mrc);
  }

  /** The label names the highest-ranked flag set before the overrides:
      volume stack, then single volume, then image stack, then single image;
      "UNKNOWN" when none is set. */
  lemma LabelPrecedence(k: ImageKind)
    ensures InputTypeLabel(k) == "a volume stack" <==> k.isVolumeStack
    ensures InputTypeLabel(k) == "a single volume" <==> !k.isVolumeStack && k.isSingleVolume
    ensures InputTypeLabel(k) == "an image stack" <==> !k.isVolumeStack && !k.isSingleVolume && k.isImageStack
    ensures InputTypeLabel(k) == "a single image" <==>
      !k.isVolumeStack && !k.isSingleVolume && !k.isImageStack && k.isSingleImage
    ensures InputTypeLabel(k) == "UNKNOWN" <==>
      !k.isVolumeStack && !k.isSingleVolume && !k.isImageStack && !k.isSingleImage
  {
  }

  /** One message per override that fired: the first says what the header
      made of the file, before any override. */
  lemma MessagesReportOverrides(mrc: MrcHeader, interpretAsSlices: bool, interpretAsImages: bool)
    ensures var before, k := HeaderKind(mrc), IsStackOrVolume(mrc, interpretAsSlices, interpretAsImages);
      var msgs := KindMessages(mrc, interpretAsSlices, interpretAsImages);
      && 1 <= |msgs| <= 3
      && msgs[0] == "Input image is " + InputTypeLabel(before) + "."
      && (|msgs| == 1 ==> k == before)
  {
    HeaderKindDecided(mrc);
  }

  /** With both options a single volume is first reinterpreted as an image
      stack and then back as a single volume: it ends as it began, after two
      reinterpretation messages. */
  lemma BothOverridesOnVolume(mrc: MrcHeader)
    requires mrc.spacegroupIsSingleVolume && mrc.mz != 1
    ensures IsStackOrVolume(mrc, true, true) == HeaderKind(mrc)
    ensures |KindMessages(mrc, true, true)| == 3
  {
  }

  // ----------------------------------------------------------- output path

  /** The output of a run that is not in place: root + file_append +
      extension of the input path. */
  function SharpenedPath(filePath: string, fileAppend: string): string
  {
    var (root, extension) := SplitExt(filePath);
    root + fileAppend + extension
  }

  /** The output keeps the input's extension, and its root is the input's
      root followed by file_append, as long as file_append is a non-empty
      name without '.' or '/'. */
  lemma SharpenedPathKeepsExtension(filePath: string, fileAppend: string)
    requires fileAppend != "" && '.' !in fileAppend && '/' !in fileAppend
    requires SplitExt(filePath).1 != ""
    ensures SplitExt(SharpenedPath(filePath, fileAppend)) == (SplitExt(filePath).0 + fileAppend, SplitExt(filePath).1)
  {
    var (root, extension) := SplitExt(filePath);
    var newRoot := root + fileAppend;
    assert newRoot[|newRoot| - 1] == fileAppend[|fileAppend| - 1];
    ExtensionHasOneDot(filePath);
    SplitExtOfJoined(newRoot, extension);
  }
}
