/** The region-of-interest filter of src/MidTermProject_Camera_Student.cpp:
    only keypoints strictly inside the rectangle around the preceding vehicle
    are kept, in their original order. */
module RegionFilter {

  /** cv::Point2f. The source's coordinates are float; only strict
      comparisons against integer bounds are made, so reals stand for them. */
  datatype Point2f = Point2f(x: real, y: real)

  /** cv::KeyPoint: a location plus a payload the core never inspects. */
  datatype KeyPoint = KeyPoint(pt: Point2f, size: real, angle: real, response: real, octave: int, classId: int)

  /** cv::Rect(x, y, width, height). */
  datatype Rect = Rect(x: int, y: int, width: int, height: int)

  /** vehicleRect, line 95. */
  const VEHICLE_RECT := Rect(535, 180, 180, 150)

  /** The condition of lines 102-103: strictly inside on both axes. */
  predicate Inside(r: Rect, p: Point2f)
  {
    (p.x > r.x as real && p.x < (r.x + r.width) as real) &&
    (p.y > r.y as real && p.y < (r.y + r.height) as real)
  }

  /** The keypoints of `kpts` inside `r`, in their original order. */
  function KeepInside(r: Rect, kpts: seq<KeyPoint>): seq<KeyPoint>
  {
    if kpts == [] then []
    else
      var last := kpts[|kpts| - 1];
      KeepInside(r, kpts[..|kpts| - 1]) + (if Inside(r, last.pt) then [last] else [])
  }

  /** `a` is `b` with some elements removed, the rest in their order. */
  predicate IsSubsequence(a: seq<KeyPoint>, b: seq<KeyPoint>)
  {
    a == [] ||
    (b != [] &&
     ((a[|a| - 1] == b[|b| - 1] && IsSubsequence(a[..|a| - 1], b[..|b| - 1])) ||
      IsSubsequence(a, b[..|b| - 1])))
  }

  /** Lines 96-110 with bFocusOnVehicle set: walk the keypoints once and push
      those inside the vehicle rectangle onto `filtered`. */
  method FocusOnVehicle(keypoints: seq<KeyPoint>) returns (filtered: seq<KeyPoint>)
    ensures filtered == KeepInside(VEHICLE_RECT, keypoints)
    ensures forall k :: 0 <= k < |filtered| ==> Inside(VEHICLE_RECT, filtered[k].pt)
  {
    filtered := [];
    var i := 0;
    while i < |keypoints|
      invariant 0 <= i <= |keypoints|
      invariant filtered == KeepInside(VEHICLE_RECT, keypoints[..i])
    {
      var kpt := keypoints[i];
      if (kpt.pt.x > VEHICLE_RECT.x as real && kpt.pt.x < (VEHICLE_RECT.x + VEHICLE_RECT.width) as real) &&
         (kpt.pt.y > VEHICLE_RECT.y as real && kpt.pt.y < (VEHICLE_RECT.y + VEHICLE_RECT.height) as real)
      {
        filtered := filtered + [kpt];
      }
      assert keypoints[..i + 1][..i] == keypoints[..i];
      i := i + 1;
    }
    assert keypoints[..i] == keypoints;
    KeepInsideSound(VEHICLE_RECT, keypoints);
  }

  /** Every keypoint kept lies strictly inside the rectangle. */
  lemma {:induction false} KeepInsideSound(r: Rect, kpts: seq<KeyPoint>)
    ensures forall k :: 0 <= k < |KeepInside(r, kpts)| ==> Inside(r, KeepInside(r, kpts)[k].pt)
  {
    if kpts != [] {
      KeepInsideSound(r, kpts[..|kpts| - 1]);
    }
  }

  /** A keypoint is kept exactly when it occurs in the input and lies strictly
      inside the rectangle. */
  lemma {:induction false} KeepInsideMembership(r: Rect, kpts: seq<KeyPoint>, kp: KeyPoint)
    ensures kp in KeepInside(r, kpts) <==> kp in kpts && Inside(r, kp.pt)
  {
    if kpts != [] {
      var init := kpts[..|kpts| - 1];
      KeepInsideMembership(r, init, kp);
      assert kpts == init + [kpts[|kpts| - 1]];
    }
  }

  /** Every occurrence of a keypoint inside the rectangle is kept, and no
      occurrence of one outside it. */
  lemma {:induction false} KeepInsideCount(r: Rect, kpts: seq<KeyPoint>, kp: KeyPoint)
    ensures multiset(KeepInside(r, kpts))[kp] == if Inside(r, kp.pt) then multiset(kpts)[kp] else 0
  {
    if kpts != [] {
      var init := kpts[..|kpts| - 1];
      KeepInsideCount(r, init, kp);
      assert kpts == init + [kpts[|kpts| - 1]];
    }
  }

  /** The filter keeps the survivors in their original relative order. */
  lemma {:induction false} KeepInsidePreservesOrder(r: Rect, kpts: seq<KeyPoint>)
    ensures IsSubsequence(KeepInside(r, kpts), kpts)
  {
    if kpts != [] {
      var init := kpts[..|kpts| - 1];
      var last := kpts[|kpts| - 1];
      var out := KeepInside(r, kpts);
      KeepInsidePreservesOrder(r, init);
      if Inside(r, last.pt) {
        assert out[..|out| - 1] == KeepInside(r, init);
      } else if out != [] {
        assert out == KeepInside(r, init);
      }
    }
  }

  /** Filtering a concatenation filters each part. */
  lemma {:induction false} KeepInsideAppend(r: Rect, a: seq<KeyPoint>, b: seq<KeyPoint>)
    ensures KeepInside(r, a + b) == KeepInside(r, a) + KeepInside(r, b)
    decreases |b|
  {
    if b != [] {
      var b' := b[..|b| - 1];
      KeepInsideAppend(r, a, b');
      assert (a + b)[..|a + b| - 1] == a + b';
    } else {
      assert a + b == a;
    }
  }

  /** The filter never lengthens its input. */
  lemma {:induction false} KeepInsideShorter(r: Rect, kpts: seq<KeyPoint>)
    ensures |KeepInside(r, kpts)| <= |kpts|
  {
    if kpts != [] {
      KeepInsideShorter(r, kpts[..|kpts| - 1]);
    }
  }

  /** The filter leaves the input unchanged exactly when every keypoint is
      already inside. */
  lemma {:induction false} KeepInsideIdentity(r: Rect, kpts: seq<KeyPoint>)
    ensures KeepInside(r, kpts) == kpts <==> forall k :: 0 <= k < |kpts| ==> Inside(r, kpts[k].pt)
  {
    if kpts != [] {
      var init := kpts[..|kpts| - 1];
      var last := kpts[|kpts| - 1];
      KeepInsideIdentity(r, init);
      KeepInsideShorter(r, init);
      if Inside(r, last.pt) {
        assert kpts == init + [last];
        if forall k :: 0 <= k < |kpts| ==> Inside(r, kpts[k].pt) {
          assert forall k :: 0 <= k < |init| ==> Inside(r, init[k].pt) by {
            forall k | 0 <= k < |init| ensures Inside(r, init[k].pt) {
              assert init[k] == kpts[k];
            }
          }
        } else {
          var k :| 0 <= k < |kpts| && !Inside(r, kpts[k].pt);
          assert k < |init| && !Inside(r, init[k].pt);
        }
      }
    }
  }

  /** Filtering twice is filtering once. */
  lemma KeepInsideIdempotent(r: Rect, kpts: seq<KeyPoint>)
    ensures KeepInside(r, KeepInside(r, kpts)) == KeepInside(r, kpts)
  {
    KeepInsideSound(r, kpts);
    KeepInsideIdentity(r, KeepInside(r, kpts));
  }

  /** The vehicle rectangle keeps exactly 535 < x < 715 and 180 < y < 330;
      its corners are excluded and (536, 181) is included. */
  lemma VehicleRectBounds(p: Point2f)
    ensures Inside(VEHICLE_RECT, p) <==> 535.0 < p.x < 715.0 && 180.0 < p.y < 330.0
    ensures !Inside(VEHICLE_RECT, Point2f(535.0, 180.0)) && !Inside(VEHICLE_RECT, Point2f(715.0, 180.0))
    ensures !Inside(VEHICLE_RECT, Point2f(535.0, 330.0)) && !Inside(VEHICLE_RECT, Point2f(715.0, 330.0))
    ensures Inside(VEHICLE_RECT, Point2f(536.0, 181.0))
  {
  }

  /** Any point on the border of a rectangle is excluded. */
  lemma BorderExcluded(r: Rect, p: Point2f)
    requires p.x == r.x as real || p.x == (r.x + r.width) as real ||
             p.y == r.y as real || p.y == (r.y + r.height) as real
    ensures !Inside(r, p)
  {
  }
}
