/** The numbered image files of the KITTI sequence
    (src/MidTermProject_Camera_Student.cpp, lines 29-38 and 53-55). */
module ImageFiles {
  import opened Decimal

  /** dataPath + "images/", line 33. */
  const IMG_BASE_PATH: string := "../images/"
  /** Left camera frames, line 34. */
  const IMG_PREFIX: string := "KITTI/2011_09_26/image_00/data/000000"
  const IMG_FILE_TYPE: string := ".png"
  const IMG_START_INDEX: nat := 0
  const IMG_END_INDEX: nat := 9
  /** The least number of digits of a file index, line 38. */
  const IMG_FILL_WIDTH: int := 4

  /** imgNumber, lines 53-54: the index in decimal, zero-padded to at least
      `fillWidth` digits. */
  function ImageNumber(index: nat, fillWidth: int): string
  {
    PadLeft(NatToString(index), fillWidth, '0')
  }

  /** imgFullFilename, line 55. */
  function ImageFileName(basePath: string, prefix: string, index: nat, fillWidth: int, fileType: string): string
  {
    basePath + prefix + ImageNumber(index, fillWidth) + fileType
  }

  /** The name of frame `imgIndex` of the sequence, as the loop of
      ProcessImages builds it. */
  function FrameFileName(imgIndex: nat): string
  {
    ImageFileName(IMG_BASE_PATH, IMG_PREFIX, IMG_START_INDEX + imgIndex, IMG_FILL_WIDTH, IMG_FILE_TYPE)
  }

  /** The file number is all digits, at least `fillWidth` of them, and reads
      back as the index. */
  lemma ImageNumberRoundTrip(index: nat, fillWidth: int)
    ensures var s := ImageNumber(index, fillWidth);
      AllDigits(s) && |s| >= fillWidth && |s| >= |NatToString(index)| && ParseDecimal(s) == index
  {
    var digits := NatToString(index);
    ParseNatToString(index);
    if |digits| < fillWidth {
      ParseLeadingZeros(fillWidth - |digits|, digits);
    }
  }

  /** The file number sits right after the base path and the prefix. */
  lemma ImageNumberInName(basePath: string, prefix: string, index: nat, fillWidth: int, fileType: string)
    ensures var name, number := ImageFileName(basePath, prefix, index, fillWidth, fileType), ImageNumber(index, fillWidth);
      var p := |basePath| + |prefix|;
      |name| == p + |number| + |fileType| && name[p..p + |number|] == number
  {
  }

  /** Distinct indices give distinct file names. */
  lemma ImageFileNameInjective(basePath: string, prefix: string, i: nat, j: nat, fillWidth: int, fileType: string)
    requires ImageFileName(basePath, prefix, i, fillWidth, fileType) == ImageFileName(basePath, prefix, j, fillWidth, fileType)
    ensures i == j
  {
    ImageNumberInName(basePath, prefix, i, fillWidth, fileType);
    ImageNumberInName(basePath, prefix, j, fillWidth, fileType);
    ImageNumberRoundTrip(i, fillWidth);
    ImageNumberRoundTrip(j, fillWidth);
  }

  /** The first and last frames of the sequence: ".../data/000000" followed
      by "0000" and "0009". */
  lemma SequenceFileNames()
    ensures FrameFileName(0) == IMG_BASE_PATH + IMG_PREFIX + "0000" + IMG_FILE_TYPE
    ensures FrameFileName(9) == IMG_BASE_PATH + IMG_PREFIX + "0009" + IMG_FILE_TYPE
  {
    assert NatToString(0) == "0" && NatToString(9) == "9";
    assert Repeat('0', 3) == "000" by {
      assert Repeat('0', 1) == "0";
      assert Repeat('0', 2) == "00";
    }
    assert ImageNumber(0, IMG_FILL_WIDTH) == "0000";
    assert ImageNumber(9, IMG_FILL_WIDTH) == "0009";
  }
}
