# Feature-matching benchmark core, modelled in Dafny

This project models the sequential logic of a 2D feature-matching benchmark.
The benchmark runs a KITTI camera sequence through many keypoint detector /
descriptor pairs. The model has two parts.

- **The frame window** (`RingBuffer<T>`, `src/RingBuffer.h`): a bounded FIFO
  over a vector. `push_back` appends while the buffer is below capacity. Once
  it is full, every element moves one slot toward the front and the new item
  overwrites the last slot. The class `RingBuffers.RingBuffer` keeps the
  source's `Buffer` as a `seq` field and runs the same shifting loop. A ghost
  `History` holds every pushed item. The class invariant says that the buffer
  is always the last `min(k, Size)` items of that history, oldest first.
- **The benchmark driver** (`src/MidTermProject_Camera_Student.cpp`):
  - the vehicle region-of-interest filter (`RegionFilter`);
  - the block-list of detector/descriptor pairs (`Compatibility`);
  - the zero-padded image file names (`Decimal`, `ImageFiles`);
  - the per-frame loop of `ProcessImages` over a window of two frames
    (`Pipeline`);
  - the sweep in `main`, which runs every compatible pair and writes one
    result line per pair to the console and to `Results.dat` (`Benchmark`).

The calls the core makes into code outside it are fields of a `Vision`
value, one uninterpreted total function each: OpenCV's image loading and
colour conversion, the project's own `matching2D` functions (the three
detector entry points, `descKeypoints` and `matchDescriptors`, declared in
`matching2D.hpp`, which is not part of this model), and the measured
duration of each timed stage. Every result is therefore stated in terms of
what those calls return. Example: match count k is the size of the match
list between the described frames k and k + 1. The console and the results file are
modelled as the strings written to them. How a `double` is printed is a
parameter `fmt`.

Modules: `RingBuffers` (ring_buffer.dfy), `RegionFilter` (region_filter.dfy),
`Compatibility` (compatibility.dfy), `Decimal` (decimal.dfy), `ImageFiles`
(image_files.dfy), `Pipeline` (pipeline.dfy), `Benchmark` (benchmark.dfy).

## Model

| member | source | states |
|---|---|---|
| RingBuffers.Window | src/RingBuffer.h:19-33 | The window of a history is its last `n` items, oldest first: `min(|h|, n)` of them, or none for a capacity below 1. |
| RingBuffers.WindowPush | src/RingBuffer.h:19-33 | One push_back step (append below capacity, else drop the oldest and append) turns the window of `h` into the window of `h + [x]`. |
| RingBuffers.PushAllIsWindow | src/RingBuffer.h:19-35 | After any sequence of pushes into a fresh buffer, its contents are the last `min(k, Size)` pushed items in push order, so its size is `min(k, Size)`. |
| RingBuffers.WindowReplaceNewest | src/RingBuffer.h:36 | Replacing the newest item of a history replaces the newest item of its window and nothing else. |
| RingBuffers.RingBuffer.constructor | src/RingBuffer.h:9-13 | A new buffer is empty, holds the invariant, and has the requested capacity. `Capacity` is a `const`, so no method can change it. |
| RingBuffers.RingBuffer.PushBack | src/RingBuffer.h:19-33 | Keeps the invariant and appends the item to the history. The new contents are the push step `PushStep` of the old ones, and the size never exceeds `Size`. Below capacity the item is appended and the earlier elements are unchanged. When full, exactly the oldest element is dropped, the survivors keep their order, and the item is written last. Afterwards `end()-1` is the item. |
| RingBuffers.RingBuffer.Size | src/RingBuffer.h:35 | `size()`, not the capacity field `Size` (which is `Capacity` here): the occupancy is `min(k, Size)` after k pushes. |
| RingBuffers.RingBuffer.BeforeEnd | src/RingBuffer.h:36 | `*(end()-k)` is the k-th most recent push. `end()-1` is the newest; `end()-2` is the item pushed just before it. |
| RingBuffers.RingBuffer.UpdateNewest | src/RingBuffer.h:36 | A write through `end()-1` replaces the newest item of both the buffer and the history, keeping the invariant. |
| RegionFilter.FocusOnVehicle | src/MidTermProject_Camera_Student.cpp:95-110 | The loop keeps exactly the keypoints strictly inside the vehicle rectangle, in input order, and every keypoint it keeps is inside. |
| RegionFilter.KeepInside | src/MidTermProject_Camera_Student.cpp:98-109 | The keypoints strictly inside a rectangle, in input order: the value the filtering loop builds (properties in the KeepInside lemmas). |
| RegionFilter.KeepInsideSound | src/MidTermProject_Camera_Student.cpp:102-105 | Every kept keypoint lies strictly inside the rectangle. |
| RegionFilter.KeepInsideMembership | src/MidTermProject_Camera_Student.cpp:98-109 | A keypoint is kept if and only if it is in the input and strictly inside the rectangle. |
| RegionFilter.KeepInsideCount | src/MidTermProject_Camera_Student.cpp:98-109 | Each keypoint is kept as many times as it occurs in the input when it is inside the rectangle, and never when it is outside. |
| RegionFilter.KeepInsidePreservesOrder | src/MidTermProject_Camera_Student.cpp:98-109 | The output is a subsequence of the input, so the original relative order is kept. |
| RegionFilter.KeepInsideAppend | src/MidTermProject_Camera_Student.cpp:99-107 | Filtering a concatenation filters each part, one keypoint at a time. |
| RegionFilter.KeepInsideShorter | src/MidTermProject_Camera_Student.cpp:98-109 | The filter never lengthens the keypoint list. |
| RegionFilter.KeepInsideIdentity | src/MidTermProject_Camera_Student.cpp:98-109 | The filter leaves the list unchanged if and only if every keypoint is already inside. |
| RegionFilter.KeepInsideIdempotent | src/MidTermProject_Camera_Student.cpp:98-109 | Filtering twice is the same as filtering once. |
| RegionFilter.VehicleRectBounds | src/MidTermProject_Camera_Student.cpp:95-103 | `Rect(535, 180, 180, 150)` keeps exactly `535 < x < 715` and `180 < y < 330`. Its four corners are excluded and (536, 181) is kept. |
| RegionFilter.BorderExcluded | src/MidTermProject_Camera_Student.cpp:102-103 | The inequalities are strict, so every point on a rectangle's border is dropped. |
| Compatibility.Compatible | src/MidTermProject_Camera_Student.cpp:222-234 | The condition of the `if`, as written: a pair runs when it is none of the listed detector/descriptor combinations (characterised by CompatibleIffNotBlocked). |
| Compatibility.CompatibleIffNotBlocked | src/MidTermProject_Camera_Student.cpp:222-234 | The condition rejects exactly 12 pairs: AKAZE or SIFT after HARRIS, FAST, BRISK or ORB; SIFT after AKAZE; ORB, AKAZE or SIFT after SIFT. |
| Compatibility.SampleVerdicts | src/MidTermProject_Camera_Student.cpp:222-234 | (HARRIS, SIFT) is rejected. (BRISK, BRIEF) and (FAST, ORB) run. |
| Decimal.NatToString | src/MidTermProject_Camera_Student.cpp:54 | The text `<<` writes for an unsigned index is non-empty, all digits, and has no leading zero. |
| Decimal.ParseNatToString | src/MidTermProject_Camera_Student.cpp:54 | Reading the decimal text back gives the number. |
| Decimal.PadLeft | src/MidTermProject_Camera_Student.cpp:54 | `setfill` / `setw` output is `max(width, |s|)` long, ends with the text, and is fill characters before it. |
| Decimal.IntToString | src/MidTermProject_Camera_Student.cpp:243 | The text `<<` writes for an `int`: a minus sign before the digits of a negative value. It is never empty. |
| Decimal.IntToStringRoundTrip | src/MidTermProject_Camera_Student.cpp:243 | The text written for an `int` match count reads back as the count. |
| ImageFiles.ImageNumber | src/MidTermProject_Camera_Student.cpp:53-54 | `imgNumber`: the index in decimal, left-padded with `0` to `imgFillWidth` digits (properties in ImageNumberRoundTrip). |
| ImageFiles.ImageFileName | src/MidTermProject_Camera_Student.cpp:55 | `imgFullFilename`: base path, prefix, padded number and file type, concatenated (properties in ImageNumberInName and ImageFileNameInjective). |
| ImageFiles.ImageNumberRoundTrip | src/MidTermProject_Camera_Student.cpp:53-54 | The file number is all digits, at least `imgFillWidth` long, and reads back as the index. |
| ImageFiles.ImageNumberInName | src/MidTermProject_Camera_Student.cpp:55 | The file number sits right after the base path and the prefix, and the name is exactly those parts and the file type. |
| ImageFiles.ImageFileNameInjective | src/MidTermProject_Camera_Student.cpp:53-55 | Distinct frame indices give distinct file names. |
| ImageFiles.SequenceFileNames | src/MidTermProject_Camera_Student.cpp:29-55 | Frames 0 and 9 are read from `../images/` + prefix + `0000` / `0009` + `.png`. |
| Pipeline.DetectKeypoints | src/MidTermProject_Camera_Student.cpp:73-87 | The detector dispatch: SHITOMASI and HARRIS call their own entry points, every other name goes to the generic one with the name. |
| Pipeline.DescribedFrame | src/MidTermProject_Camera_Student.cpp:53-136 | Frame `imgIndex` after the describe stage: its gray image, the detected keypoints inside the vehicle rectangle as `descKeypoints` returns them, their descriptors, and no matches. |
| Pipeline.LoadAndDescribe | src/MidTermProject_Camera_Student.cpp:50-136 | A frame is pushed for the image. Its keypoints are the detector's keypoints inside the vehicle rectangle, as described by `descKeypoints`, and are stored through `end()-1`. One detector time and one descriptor time are appended. |
| Pipeline.MatchWithPrevious | src/MidTermProject_Camera_Student.cpp:138-156 | With one frame in the window, nothing is matched and no count is recorded. Otherwise the keypoints and descriptors of `end()-2` (the previous frame) are matched against those of `end()-1` (the current one). The matches are stored on the current frame and their number is appended. No other frame changes. |
| Pipeline.MatchStepExtends | src/MidTermProject_Camera_Student.cpp:138-156 | That step on the window extends the matched frames and the match counts by exactly the newly described frame. Matching the stored previous frame gives the same matches as matching it as it was described. |
| Pipeline.MatchedFramesSnoc | src/MidTermProject_Camera_Student.cpp:138-156 | Describing one more frame appends it to the matched frames, carrying the matches of the last frame against it when there is one. |
| Pipeline.MatchCountsOfSnoc | src/MidTermProject_Camera_Student.cpp:138-156 | Describing one more frame appends a count when there is a frame before it. |
| Pipeline.ProcessImages | src/MidTermProject_Camera_Student.cpp:25-181 | 10 detector and 10 descriptor time entries, entry k timing frame k, and 9 match counts. The match counts and the frames the window has held are those of the first 10 frames of the sequence (see MatchCountsAt and StoredMatchesJoinNeighbours). |
| Pipeline.DescribedFramesAt | src/MidTermProject_Camera_Student.cpp:48-136 | The loop describes one frame per index, in index order. |
| Pipeline.MatchedFramesAt | src/MidTermProject_Camera_Student.cpp:126-156 | Matching changes only the matches of a frame. The first frame is left as described. Every later frame gets the matches of its predecessor against it. |
| Pipeline.MatchCountsOfAt | src/MidTermProject_Camera_Student.cpp:138-156 | n described frames give n - 1 counts; entry k is the number of matches between frames k and k + 1. |
| Pipeline.MatchCountsAt | src/MidTermProject_Camera_Student.cpp:138-156 | After n >= 1 frames of the sequence there are n - 1 match counts; entry k is the number of matches between frames k and k + 1 as described. |
| Pipeline.TimesAt | src/MidTermProject_Camera_Student.cpp:72-133 | After n frames there are n detector times and n descriptor times, entry k timing frame k. |
| Pipeline.StoredMatchesJoinNeighbours | src/MidTermProject_Camera_Student.cpp:147-154 | The first frame stores no matches. Every later frame stores the matches of its predecessor's keypoints and descriptors against its own. |
| Benchmark.FormatFields | src/MidTermProject_Camera_Student.cpp:241-245 | The count and time loops write each value followed by `", "`. |
| Benchmark.RunCell | src/MidTermProject_Camera_Student.cpp:236-266 | One compatible pair writes the line built from its ProcessImages results. |
| Benchmark.RunRow | src/MidTermProject_Camera_Student.cpp:219-268 | The inner loop writes one line for each compatible descriptor in list order, and nothing for the others. |
| Benchmark.Sweep | src/MidTermProject_Camera_Student.cpp:211-269 | Both streams start empty and get the header and then the rows in detector order. They receive the same text. |
| Benchmark.RunPerformanceEvaluation | src/MidTermProject_Camera_Student.cpp:209-269 | The same, over the declared detector and descriptor lists. |
| Benchmark.RowAt | src/MidTermProject_Camera_Student.cpp:219-221 | Row entry j pairs the detector with descriptor j. |
| Benchmark.CellsAt | src/MidTermProject_Camera_Student.cpp:215-221 | The loops visit `|dets| * |descs|` pairs detector-major: pair `i * |descs| + j` is `(dets[i], descs[j])`. |
| Benchmark.CellsMembership | src/MidTermProject_Camera_Student.cpp:215-221 | A pair is visited if and only if its detector and its descriptor are both listed. |
| Benchmark.AllowedMembership | src/MidTermProject_Camera_Student.cpp:222-235 | A pair runs if and only if it is visited and compatible. |
| Benchmark.SweepIsAllowedLines | src/MidTermProject_Camera_Student.cpp:215-269 | After the header, the sweep writes the result lines of exactly the compatible pairs, in visiting order. |
| Benchmark.DeclaredRowPairs | src/MidTermProject_Camera_Student.cpp:209-234 | For each declared detector, these descriptors run. HARRIS, FAST, BRISK, ORB: BRISK, BRIEF, ORB. AKAZE: those three and AKAZE. SIFT: BRISK, BRIEF. |
| Benchmark.DeclaredSweepPairs | src/MidTermProject_Camera_Student.cpp:209-234 | Of the 30 declared pairs, the listed 18 run in loop order and 12 are blocked. No pair with the SIFT descriptor runs. |
| Benchmark.ResultLine | src/MidTermProject_Camera_Student.cpp:238-266 | The layout of one result line: the two names, the match counts, "Detector Times, " and the detector times, "Descriptor Times, " and the descriptor times, each value followed by ", ", then a newline (properties in ResultLineIsOneLine and RunCell). |
| Benchmark.FieldsSingleLine | src/MidTermProject_Camera_Student.cpp:241-263 | A run of fields contains no newline when none of its values does. |
| Benchmark.ResultLineIsOneLine | src/MidTermProject_Camera_Student.cpp:238-266 | A result line is exactly one line and ends with its newline, given names and printed doubles without newlines. |
| Benchmark.LinesCount | src/MidTermProject_Camera_Student.cpp:236-266 | The result lines of n pairs are n lines. |
| Benchmark.SweepLineCount | src/MidTermProject_Camera_Student.cpp:213-269 | After the header, the sweep writes as many lines as there are compatible pairs. |
| Benchmark.DeclaredReportLines | src/MidTermProject_Camera_Student.cpp:209-269 | The console and `Results.dat` each end with 19 lines: the header and one line per pair that runs. |

## Left out

- OpenCV (`cv::imread`, `cv::cvtColor`) and the project's `matching2D` functions (`detKeypointsShiTomasi`, `detKeypointsHarris`, `detKeypointsModern`, `descKeypoints`, `matchDescriptors`) are uninterpreted functions supplied in a `Vision` value. The model says which inputs reach them and where their outputs go. It says nothing about what they compute. `descKeypoints` returns its keypoints as well as the descriptors, because it takes the keypoint vector by reference.
- `matchDescriptors` (lines 147-149) receives the keypoints and descriptors of both frames as references into the window. The model assumes it does not modify them: it returns only the match list. Pipeline.MatchStepExtends and Pipeline.StoredMatchesJoinNeighbours rest on that assumption.
- Timing: `cv::getTickCount` and `getTickFrequency` become one measured duration per (pair, frame, stage), supplied by `Vision.elapsedSeconds`. A time entry is that duration times 1000. The source's trailing `/ 1.0` does not change the value and is not modelled, and neither is double rounding.
- Doubles as printed by `<<` are given by the parameter `fmt`. Their text is not modelled.
- Console and file I/O: each stream is modelled as the text written to it. The model runs all of a detector's compatible pairs, then appends that detector's row of whole lines to the console and then to the file. The source writes each pair's line right after that pair's run, alternating between the two streams piece by piece (lines 236-266). The final text of each stream is the same. Opening, flushing and closing `Results.dat` are not modelled.
- The keypoint-limiting branch (lines 113-124) is not modelled. `bLimitKpts` is false and the branch relies on `retainBest`.
- The match visualisation (lines 159-175) is not modelled. `bVis` is false and it only draws and waits for a key.
- The interactive path compiled out by `RUN_AS_PERFORMANCE_EVALUATION` (lines 187-206 and 272-461) is not modelled.
- RingBuffers.RingBuffer.PushBack: requires a capacity of at least 1. With `Size == 0`, line 31 writes `Buffer[-1]`. With a negative `Size`, the unsigned comparison on line 21 is always true, so the buffer grows without bound. The driver only uses a capacity of 2.
- Pipeline.ProcessImages: the `size_t` match count `matches.size()` is pushed into a `vector<int>`. The model keeps the count unbounded and does not model narrowing.
- Pipeline.LoadAndDescribe and Pipeline.MatchWithPrevious are the two halves of one loop body of `ProcessImages` (lines 50-136 and 138-176). They are split so that each can be proved separately. MatchWithPrevious is stated on the window alone; Pipeline.MatchStepExtends ties its step to the frames of the sequence.
- `DataFrame` comes from `dataStructures.h`, which is not part of this model. Only its four members used here (image, keypoints, descriptors, matches) are modelled.
- Keypoint coordinates are `float` in the source and `real` in the model. A `real` is never NaN or infinite, while the strict comparisons of lines 102-103 drop a keypoint with a NaN or infinite coordinate; the model does not cover such keypoints.
- Errors: the code has no `try` / `catch`, so an OpenCV error in one pair ends the whole sweep. The model makes every call total.
- The compiled performance path blocks exactly the 12 pairs of lines 222-234. It always matches with `DES_BINARY`, `MAT_BF` and `SEL_KNN` (lines 143-145), and it converts no descriptors between lines 138 and 156. The SIFT branch that clones the descriptors and converts them to `CV_32F` (lines 415-420) belongs to the interactive path, which is compiled out and not modelled.
