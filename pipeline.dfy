/** The per-frame pipeline of the performance evaluation, ProcessImages in
    src/MidTermProject_Camera_Student.cpp (lines 25-181): for every image of
    the sequence, load it into a two-frame window, detect keypoints, keep
    those on the preceding vehicle, describe them, and from the second frame
    on match the previous frame against the current one. */
module Pipeline {
  import opened RegionFilter
  import opened RingBuffers
  import opened ImageFiles

  /** cv::Mat: a grid of samples (a grayscale image, or one descriptor per row). */
  type Mat = seq<seq<int>>

  /** cv::DMatch: a correspondence between a keypoint of the previous frame
      (queryIdx) and one of the current frame (trainIdx). */
  datatype DMatch = DMatch(queryIdx: int, trainIdx: int, imgIdx: int, distance: real)

  /** DataFrame: one camera image with its keypoints, their descriptors and
      the matches against the frame before it. */
  datatype DataFrame = DataFrame(cameraImg: Mat, keypoints: seq<KeyPoint>, descriptors: Mat, kptMatches: seq<DMatch>)

  /** A default-constructed DataFrame: every member empty. */
  const EMPTY_FRAME := DataFrame([], [], [], [])

  /** The two timed stages. */
  datatype Stage = Detection | Description

  /** The calls ProcessImages makes into code outside the core, as
      uninterpreted functions: OpenCV's imread and cvtColor; the project's
      matching2D functions, namely the three detector entry points,
      descKeypoints (which takes the keypoints by reference and may drop some,
      so it returns them with the descriptors) and matchDescriptors; and the
      wall-clock duration, in seconds, measured around a stage of a frame. */
  datatype Vision = Vision(
    imread: string -> Mat,
    cvtColor: Mat -> Mat,
    detKeypointsShiTomasi: Mat -> seq<KeyPoint>,
    detKeypointsHarris: Mat -> seq<KeyPoint>,
    detKeypointsModern: (Mat, string) -> seq<KeyPoint>,
    descKeypoints: (seq<KeyPoint>, Mat, string) -> (seq<KeyPoint>, Mat),
    matchDescriptors: (seq<KeyPoint>, seq<KeyPoint>, Mat, Mat, string, string, string) -> seq<DMatch>,
    elapsedSeconds: (string, string, nat, Stage) -> real)

  /** dataBufferSize, line 41. */
  const DATA_BUFFER_SIZE: int := 2
  /** The number of loop iterations of line 48. */
  const NUM_IMAGES: nat := IMG_END_INDEX - IMG_START_INDEX + 1
  /** The fixed matcher configuration, lines 143-145. */
  const MATCHER_TYPE: string := "MAT_BF"
  const DESCRIPTOR_CATEGORY: string := "DES_BINARY"
  const SELECTOR_TYPE: string := "SEL_KNN"

  /** Lines 73-87: SHITOMASI and HARRIS have their own entry points, every
      other name goes to the generic one. */
  function DetectKeypoints(v: Vision, detectorType: string, img: Mat): seq<KeyPoint>
  {
    if detectorType == "SHITOMASI" then v.detKeypointsShiTomasi(img)
    else if detectorType == "HARRIS" then v.detKeypointsHarris(img)
    else v.detKeypointsModern(img, detectorType)
  }

  /** Lines 88-89 and 132-133: seconds to milliseconds. */
  function Millis(seconds: real): real
  {
    1000.0 * seconds
  }

  function DetectorTime(v: Vision, detectorType: string, descType: string, imgIndex: nat): real
  {
    Millis(v.elapsedSeconds(detectorType, descType, imgIndex, Detection))
  }

  function DescriptorTime(v: Vision, detectorType: string, descType: string, imgIndex: nat): real
  {
    Millis(v.elapsedSeconds(detectorType, descType, imgIndex, Description))
  }

  /** Lines 53-60: frame `imgIndex` loaded from its numbered file and
      converted to grayscale. */
  function GrayImage(v: Vision, imgIndex: nat): Mat
  {
    v.cvtColor(v.imread(FrameFileName(imgIndex)))
  }

  /** Frame `imgIndex` after lines 63-136: its image, the keypoints found on
      the vehicle, and their descriptors; no matches yet. */
  function DescribedFrame(v: Vision, detectorType: string, descType: string, imgIndex: nat): DataFrame
  {
    var img := GrayImage(v, imgIndex);
    var onVehicle := KeepInside(VEHICLE_RECT, DetectKeypoints(v, detectorType, img));
    var described := v.descKeypoints(onVehicle, img, descType);
    DataFrame(img, described.0, described.1, [])
  }

  /** Lines 147-149: the matches of the previous frame's keypoints and
      descriptors (the source) against the current frame's (the reference). */
  function FrameMatches(v: Vision, previous: DataFrame, current: DataFrame): seq<DMatch>
  {
    v.matchDescriptors(previous.keypoints, current.keypoints, previous.descriptors, current.descriptors,
                       DESCRIPTOR_CATEGORY, MATCHER_TYPE, SELECTOR_TYPE)
  }

  /** Frames described one after the other, as the loop leaves them: every
      frame after the first carries the matches of its predecessor against
      it (line 154). */
  function MatchedFrames(v: Vision, described: seq<DataFrame>): (frames: seq<DataFrame>)
    ensures |frames| == |described|
  {
    if |described| <= 1 then described
    else
      var n := |described|;
      MatchedFrames(v, described[..n - 1]) + [described[n - 1].(kptMatches := FrameMatches(v, described[n - 2], described[n - 1]))]
  }

  /** The match counts recorded for frames described one after the other:
      one for every frame after the first (line 156). */
  function MatchCountsOf(v: Vision, described: seq<DataFrame>): seq<int>
  {
    if |described| <= 1 then []
    else
      var n := |described|;
      MatchCountsOf(v, described[..n - 1]) + [|FrameMatches(v, described[n - 2], described[n - 1])|]
  }

  /** The first `n` frames of the sequence as the describe stage leaves them. */
  function DescribedFrames(v: Vision, detectorType: string, descType: string, n: nat): seq<DataFrame>
  {
    if n == 0 then []
    else DescribedFrames(v, detectorType, descType, n - 1) + [DescribedFrame(v, detectorType, descType, n - 1)]
  }

  /** The first `n` frames of the sequence as the loop leaves them. */
  function ProcessedFrames(v: Vision, detectorType: string, descType: string, n: nat): seq<DataFrame>
  {
    MatchedFrames(v, DescribedFrames(v, detectorType, descType, n))
  }

  /** The match counts recorded over the first `n` frames of the sequence. */
  function MatchCounts(v: Vision, detectorType: string, descType: string, n: nat): seq<int>
  {
    MatchCountsOf(v, DescribedFrames(v, detectorType, descType, n))
  }

  /** The detector times recorded over the first `n` frames (line 89). */
  function DetectorTimes(v: Vision, detectorType: string, descType: string, n: nat): seq<real>
  {
    if n == 0 then []
    else DetectorTimes(v, detectorType, descType, n - 1) + [DetectorTime(v, detectorType, descType, n - 1)]
  }

  /** The descriptor times recorded over the first `n` frames (line 133). */
  function DescriptorTimes(v: Vision, detectorType: string, descType: string, n: nat): seq<real>
  {
    if n == 0 then []
    else DescriptorTimes(v, detectorType, descType, n - 1) + [DescriptorTime(v, detectorType, descType, n - 1)]
  }

  /** Entry k of the described frames is frame k. */
  lemma {:induction false} DescribedFramesAt(v: Vision, detectorType: string, descType: string, n: nat, k: nat)
    requires k < n
    ensures |DescribedFrames(v, detectorType, descType, n)| == n
    ensures DescribedFrames(v, detectorType, descType, n)[k] == DescribedFrame(v, detectorType, descType, k)
  {
    if k < n - 1 {
      DescribedFramesAt(v, detectorType, descType, n - 1, k);
    } else if n > 1 {
      DescribedFramesAt(v, detectorType, descType, n - 1, 0);
    }
  }

  /** Matching changes only the matches of a frame: the first frame keeps
      its own, every later frame gets those of its predecessor against it. */
  lemma {:induction false} MatchedFramesAt(v: Vision, described: seq<DataFrame>, k: nat)
    requires k < |described|
    ensures MatchedFrames(v, described)[k] ==
      if k == 0 then described[0]
      else described[k].(kptMatches := FrameMatches(v, described[k - 1], described[k]))
  {
    var n := |described|;
    if k < n - 1 {
      MatchedFramesAt(v, described[..n - 1], k);
    }
  }

  /** Describing one more frame adds it to the matched frames, carrying the
      matches of the last frame against it when there is one. */
  lemma MatchedFramesSnoc(v: Vision, done: seq<DataFrame>, current: DataFrame)
    ensures MatchedFrames(v, done + [current]) == MatchedFrames(v, done) +
      [if done == [] then current else current.(kptMatches := FrameMatches(v, done[|done| - 1], current))]
  {
    var all := done + [current];
    assert all[..|all| - 1] == done;
  }

  /** Describing one more frame adds a count when there is a frame before it. */
  lemma MatchCountsOfSnoc(v: Vision, done: seq<DataFrame>, current: DataFrame)
    ensures MatchCountsOf(v, done + [current]) == MatchCountsOf(v, done) +
      (if done == [] then [] else [|FrameMatches(v, done[|done| - 1], current)|])
  {
    var all := done + [current];
    assert all[..|all| - 1] == done;
  }

  /** Frames described one after the other give one match count fewer than
      frames, entry k counting the matches between frames k and k + 1. */
  lemma {:induction false} MatchCountsOfAt(v: Vision, described: seq<DataFrame>)
    requires |described| >= 1
    ensures |MatchCountsOf(v, described)| == |described| - 1
    ensures forall k :: 0 <= k < |described| - 1 ==>
      MatchCountsOf(v, described)[k] == |FrameMatches(v, described[k], described[k + 1])|
  {
    var n := |described|;
    if n > 1 {
      MatchCountsOfAt(v, described[..n - 1]);
    }
  }

  /** After n >= 1 frames of the sequence there are n - 1 match counts,
      entry k counting the matches between frames k and k + 1. */
  lemma MatchCountsAt(v: Vision, detectorType: string, descType: string, n: nat)
    requires n >= 1
    ensures |MatchCounts(v, detectorType, descType, n)| == n - 1
    ensures forall k :: 0 <= k < n - 1 ==>
      MatchCounts(v, detectorType, descType, n)[k] ==
        |FrameMatches(v, DescribedFrame(v, detectorType, descType, k), DescribedFrame(v, detectorType, descType, k + 1))|
  {
    var described := DescribedFrames(v, detectorType, descType, n);
    DescribedFramesAt(v, detectorType, descType, n, 0);
    MatchCountsOfAt(v, described);
    forall k | 0 <= k < n
      ensures described[k] == DescribedFrame(v, detectorType, descType, k)
    {
      DescribedFramesAt(v, detectorType, descType, n, k);
    }
  }

  /** After n frames there are n detector and n descriptor times, entry k
      timing frame k. */
  lemma {:induction false} TimesAt(v: Vision, detectorType: string, descType: string, n: nat)
    ensures |DetectorTimes(v, detectorType, descType, n)| == |DescriptorTimes(v, detectorType, descType, n)| == n
    ensures forall k :: 0 <= k < n ==>
      DetectorTimes(v, detectorType, descType, n)[k] == DetectorTime(v, detectorType, descType, k) &&
      DescriptorTimes(v, detectorType, descType, n)[k] == DescriptorTime(v, detectorType, descType, k)
  {
    if n > 0 {
      TimesAt(v, detectorType, descType, n - 1);
    }
  }

  /** Lines 50-136 on frame `imgIndex`: load the image and push a frame
      holding it into the window, time the detector, keep the keypoints on
      the vehicle, and describe them on the newest frame, timing that too. */
  method LoadAndDescribe(v: Vision, detectorType: string, descType: string, dataBuffer: RingBuffer<DataFrame>, imgIndex: nat,
                         detectorTimes: seq<real>, descriptorTimes: seq<real>)
    returns (detectorTimes': seq<real>, descriptorTimes': seq<real>)
    requires dataBuffer.Valid() && dataBuffer.Capacity == DATA_BUFFER_SIZE
    modifies dataBuffer
    ensures dataBuffer.Valid()
    ensures dataBuffer.History == old(dataBuffer.History) + [DescribedFrame(v, detectorType, descType, imgIndex)]
    ensures detectorTimes' == detectorTimes + [DetectorTime(v, detectorType, descType, imgIndex)]
    ensures descriptorTimes' == descriptorTimes + [DescriptorTime(v, detectorType, descType, imgIndex)]
  {
    // load image into buffer
    var imgFullFilename := ImageFileName(IMG_BASE_PATH, IMG_PREFIX, IMG_START_INDEX + imgIndex, IMG_FILL_WIDTH, IMG_FILE_TYPE);
    var img := v.imread(imgFullFilename);
    var imgGray := v.cvtColor(img);
    dataBuffer.PushBack(EMPTY_FRAME.(cameraImg := imgGray));

    // detect keypoints and keep those on the preceding vehicle
    var keypoints := DetectKeypoints(v, detectorType, imgGray);
    detectorTimes' := detectorTimes + [Millis(v.elapsedSeconds(detectorType, descType, imgIndex, Detection))];
    keypoints := FocusOnVehicle(keypoints);
    var newest := dataBuffer.BeforeEnd(1);
    dataBuffer.UpdateNewest(newest.(keypoints := keypoints));

    // describe the keypoints of the newest frame
    newest := dataBuffer.BeforeEnd(1);
    var described := v.descKeypoints(newest.keypoints, newest.cameraImg, descType);
    descriptorTimes' := descriptorTimes + [Millis(v.elapsedSeconds(detectorType, descType, imgIndex, Description))];
    dataBuffer.UpdateNewest(newest.(keypoints := described.0, descriptors := described.1));
  }

  /** Lines 138-156: once the window holds at least two frames, match the
      keypoints and descriptors of end() - 2 (the previous frame) against
      those of end() - 1 (the current one), store the matches on the current
      frame and record how many there are. */
  method MatchWithPrevious(v: Vision, dataBuffer: RingBuffer<DataFrame>, matchCounts: seq<int>)
    returns (matchCounts': seq<int>)
    requires dataBuffer.Valid() && dataBuffer.Capacity == DATA_BUFFER_SIZE && dataBuffer.History != []
    modifies dataBuffer
    ensures dataBuffer.Valid()
    ensures var h := old(dataBuffer.History); var n := |h|;
      if n == 1 then dataBuffer.History == h && matchCounts' == matchCounts
      else
        var matches := FrameMatches(v, h[n - 2], h[n - 1]);
        dataBuffer.History == h[..n - 1] + [h[n - 1].(kptMatches := matches)] &&
        matchCounts' == matchCounts + [|matches|]
  {
    matchCounts' := matchCounts;
    var size := dataBuffer.Size();
    if size > 1 {
      var previous := dataBuffer.BeforeEnd(2);
      var current := dataBuffer.BeforeEnd(1);
      var matches := v.matchDescriptors(previous.keypoints, current.keypoints,
                                        previous.descriptors, current.descriptors,
                                        DESCRIPTOR_CATEGORY, MATCHER_TYPE, SELECTOR_TYPE);
      dataBuffer.UpdateNewest(current.(kptMatches := matches));
      matchCounts' := matchCounts + [|matches|];
    }
  }

  /** The step MatchWithPrevious takes on the window is the one that extends
      the matched frames and the match counts by the newly described frame:
      matching the stored previous frame gives the same matches as matching
      the previous frame as it was described. */
  lemma MatchStepExtends(v: Vision, described: seq<DataFrame>, current: DataFrame)
    ensures var h := MatchedFrames(v, described) + [current]; var n := |h|;
      if n == 1 then
        MatchedFrames(v, described + [current]) == h &&
        MatchCountsOf(v, described + [current]) == MatchCountsOf(v, described)
      else
        var matches := FrameMatches(v, h[n - 2], h[n - 1]);
        MatchedFrames(v, described + [current]) == h[..n - 1] + [h[n - 1].(kptMatches := matches)] &&
        MatchCountsOf(v, described + [current]) == MatchCountsOf(v, described) + [|matches|]
  {
    MatchedFramesSnoc(v, described, current);
    MatchCountsOfSnoc(v, described, current);
    var h := MatchedFrames(v, described) + [current];
    var n := |h|;
    if n > 1 {
      MatchedFramesAt(v, described, n - 2);
      assert h[..n - 1] == MatchedFrames(v, described);
    }
  }

  /** ProcessImages: run the ten frames through a window of two. Matching
      happens only once the window holds two frames, and then always between
      end() - 2 and end() - 1, the previous and the current frame; the
      matches are stored on the current frame. `frames` is the sequence of
      frames the window has held, as they were left. */
  method ProcessImages(v: Vision, detectorType: string, descType: string)
    returns (matchCounts: seq<int>, detectorTimes: seq<real>, descriptorTimes: seq<real>, ghost frames: seq<DataFrame>)
    ensures |detectorTimes| == |descriptorTimes| == NUM_IMAGES
    ensures |matchCounts| == NUM_IMAGES - 1
    ensures forall k :: 0 <= k < |detectorTimes| ==>
      detectorTimes[k] == DetectorTime(v, detectorType, descType, k) &&
      descriptorTimes[k] == DescriptorTime(v, detectorType, descType, k)
    ensures matchCounts == MatchCounts(v, detectorType, descType, NUM_IMAGES)
    ensures detectorTimes == DetectorTimes(v, detectorType, descType, NUM_IMAGES)
    ensures descriptorTimes == DescriptorTimes(v, detectorType, descType, NUM_IMAGES)
    ensures frames == ProcessedFrames(v, detectorType, descType, NUM_IMAGES)
  {
    var dataBuffer := new RingBuffer<DataFrame>(DATA_BUFFER_SIZE);
    matchCounts, detectorTimes, descriptorTimes := [], [], [];
    ghost var described: seq<DataFrame> := [];
    var imgIndex: nat := 0;
    while imgIndex <= IMG_END_INDEX - IMG_START_INDEX
      invariant imgIndex <= NUM_IMAGES
      invariant fresh(dataBuffer)
      invariant dataBuffer.Valid() && dataBuffer.Capacity == DATA_BUFFER_SIZE
      invariant described == DescribedFrames(v, detectorType, descType, imgIndex)
      invariant dataBuffer.History == MatchedFrames(v, described)
      invariant matchCounts == MatchCountsOf(v, described)
      invariant detectorTimes == DetectorTimes(v, detectorType, descType, imgIndex)
      invariant descriptorTimes == DescriptorTimes(v, detectorType, descType, imgIndex)
    {
      detectorTimes, descriptorTimes :=
        LoadAndDescribe(v, detectorType, descType, dataBuffer, imgIndex, detectorTimes, descriptorTimes);
      ghost var current := DescribedFrame(v, detectorType, descType, imgIndex);
      MatchStepExtends(v, described, current);
      matchCounts := MatchWithPrevious(v, dataBuffer, matchCounts);
      described := described + [current];
      imgIndex := imgIndex + 1;
    }
    assert imgIndex == NUM_IMAGES;
    frames := dataBuffer.History;
    TimesAt(v, detectorType, descType, imgIndex);
    MatchCountsAt(v, detectorType, descType, imgIndex);
  }

  /** The matches stored on every frame after the first join it to the frame
      before it, through the keypoints and descriptors both frames hold;
      the first frame has none. */
  lemma StoredMatchesJoinNeighbours(v: Vision, detectorType: string, descType: string, n: nat, i: nat)
    requires 1 <= i < n
    ensures |ProcessedFrames(v, detectorType, descType, n)| == n
    ensures var frames := ProcessedFrames(v, detectorType, descType, n);
      frames[0].kptMatches == [] &&
      frames[i].kptMatches ==
        v.matchDescriptors(frames[i - 1].keypoints, frames[i].keypoints,
                           frames[i - 1].descriptors, frames[i].descriptors,
                           DESCRIPTOR_CATEGORY, MATCHER_TYPE, SELECTOR_TYPE)
  {
    var described := DescribedFrames(v, detectorType, descType, n);
    DescribedFramesAt(v, detectorType, descType, n, 0);
    MatchedFramesAt(v, described, 0);
    MatchedFramesAt(v, described, i - 1);
    MatchedFramesAt(v, described, i);
  }
}
