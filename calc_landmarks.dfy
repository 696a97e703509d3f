/** The landmark utilities of `utils/calc_landmarks.py`: conversion of MediaPipe
    landmarks to pixel coordinates, the 2D and 3D normalisers as the source runs
    them (a deep copy of the caller's list, overwritten point by point, then
    flattened and divided by its largest absolute value), and the extraction of
    the first detected hand from a MediaPipe result.

    A Python list of points is an `array` here. The normalisers have no
    `modifies` clause, so Dafny checks that the caller's list is never written:
    all the writing happens on the fresh copy. */
module CalcLandmarks {
  import opened Wrappers
  import opened Normalizer

  /** A pixel position `[x, y]`. */
  datatype Pixel = Pixel(x: int, y: int)

  // ---------------------------------------------------------------------------
  // calc_landmark_list

  /** Python's `int()` on a float: truncation toward zero. */
  function Truncate(r: real): (t: int)
    ensures r >= 0.0 ==> 0 <= t && t as real <= r < t as real + 1.0
    ensures r < 0.0 ==> t <= 0 && t as real - 1.0 < r <= t as real
  {
    if r >= 0.0 then r.Floor else -((-r).Floor)
  }

  function Min(a: int, b: int): int
  {
    if a <= b then a else b
  }

  /** One landmark in pixels: each coordinate scaled by the image size,
      truncated, and clamped from above only, at the last pixel. */
  function ToPixel(landmark: Point3, imageWidth: nat, imageHeight: nat): (p: Pixel)
    ensures p.x <= imageWidth - 1 && p.y <= imageHeight - 1
  {
    Pixel(Min(Truncate(landmark.x * imageWidth as real), imageWidth - 1),
          Min(Truncate(landmark.y * imageHeight as real), imageHeight - 1))
  }

  /** One coordinate: inside [0, 1] it lands on a pixel of the image, and strictly
      below 1 it is the pixel the coordinate falls in, with no clamping. */
  lemma PixelCoordinateInImage(c: real, size: nat)
    requires 0.0 <= c <= 1.0 && size > 0
    ensures 0 <= Min(Truncate(c * size as real), size - 1) <= size - 1
    ensures c < 1.0 ==> Min(Truncate(c * size as real), size - 1) == (c * size as real).Floor
  {
    var s := size as real;
    assert 0.0 <= c * s;
    if c < 1.0 {
      assert c * s < s;
      assert (c * s).Floor < size;
    }
  }

  /** A landmark inside the unit square lands inside the image. */
  lemma ToPixelInImage(landmark: Point3, imageWidth: nat, imageHeight: nat)
    requires 0.0 <= landmark.x <= 1.0 && 0.0 <= landmark.y <= 1.0
    requires imageWidth > 0 && imageHeight > 0
    ensures 0 <= ToPixel(landmark, imageWidth, imageHeight).x < imageWidth
    ensures 0 <= ToPixel(landmark, imageWidth, imageHeight).y < imageHeight
  {
    PixelCoordinateInImage(landmark.x, imageWidth);
    PixelCoordinateInImage(landmark.y, imageHeight);
  }

  /** An instance of `ToPixelBeforeImage`: a landmark left of the image gives a negative pixel. */
  lemma ToPixelNoLowerClamp()
    ensures ToPixel(Point3(-0.5, 0.25, 0.0), 100, 100) == Pixel(-50, 25)
  {
    assert -0.5 * 100.0 == -50.0;
    assert 0.25 * 100.0 == 25.0;
  }

  /** One coordinate left of or above the image: nothing clamps it, so its pixel
      is the truncated product itself, which is never positive. */
  lemma PixelCoordinateBeforeImage(c: real, size: nat)
    requires c < 0.0 && size > 0
    ensures Min(Truncate(c * size as real), size - 1) == Truncate(c * size as real) <= 0
  {
    assert c * size as real < 0.0;
  }

  /** For every landmark and image: a negative coordinate gives a pixel that is
      not clamped from below and is at most 0. */
  lemma ToPixelBeforeImage(landmark: Point3, imageWidth: nat, imageHeight: nat)
    requires imageWidth > 0 && imageHeight > 0
    ensures landmark.x < 0.0 ==>
              ToPixel(landmark, imageWidth, imageHeight).x == Truncate(landmark.x * imageWidth as real) <= 0
    ensures landmark.y < 0.0 ==>
              ToPixel(landmark, imageWidth, imageHeight).y == Truncate(landmark.y * imageHeight as real) <= 0
  {
    if landmark.x < 0.0 {
      PixelCoordinateBeforeImage(landmark.x, imageWidth);
    }
    if landmark.y < 0.0 {
      PixelCoordinateBeforeImage(landmark.y, imageHeight);
    }
  }

  /** `calc_landmark_list`: one pixel per landmark, in the same order. The image
      enters only through its width and height. */
  method CalcLandmarkList(imageWidth: nat, imageHeight: nat, landmarks: seq<Point3>)
    returns (landmarkPoint: seq<Pixel>)
    ensures |landmarkPoint| == |landmarks|
    ensures forall i :: 0 <= i < |landmarks| ==>
              landmarkPoint[i] == ToPixel(landmarks[i], imageWidth, imageHeight)
    ensures forall i :: 0 <= i < |landmarks| ==>
              landmarkPoint[i].x <= imageWidth - 1 && landmarkPoint[i].y <= imageHeight - 1
  {
    landmarkPoint := [];
    for i := 0 to |landmarks|
      invariant |landmarkPoint| == i
      invariant forall k :: 0 <= k < i ==> landmarkPoint[k] == ToPixel(landmarks[k], imageWidth, imageHeight)
      invariant forall k :: 0 <= k < i ==>
                  landmarkPoint[k].x <= imageWidth - 1 && landmarkPoint[k].y <= imageHeight - 1
    {
      landmarkPoint := landmarkPoint + [ToPixel(landmarks[i], imageWidth, imageHeight)];
    }
  }

  // ---------------------------------------------------------------------------
  // pre_process_landmark and pre_process_landmark_3d

  /** `pre_process_landmark`: the 2D normaliser. The result is `None` exactly for
      an empty list (where `max` raises); otherwise it has two values per point,
      the wrist's are 0 and all lie in [-1, 1]. */
  method PreProcessLandmark(landmarkList: array<Point2>) returns (r: Option<seq<real>>)
    ensures r == PreProcess2(landmarkList[..])
    ensures r.Some? <==> landmarkList.Length > 0
    ensures r.Some? ==> |r.value| == 2 * landmarkList.Length && r.value[0] == 0.0 && r.value[1] == 0.0
    ensures r.Some? ==> forall k :: 0 <= k < |r.value| ==> -1.0 <= r.value[k] <= 1.0
  {
    var n := landmarkList.Length;
    // copy.deepcopy: every later write goes to this fresh array
    var temp := new Point2[n](i requires 0 <= i < n reads landmarkList => landmarkList[i]);

    var baseX, baseY := 0.0, 0.0;
    for index := 0 to n
      invariant index > 0 ==> baseX == landmarkList[0].x && baseY == landmarkList[0].y
      invariant forall k :: 0 <= k < index ==>
                  temp[k] == Point2(landmarkList[k].x - landmarkList[0].x, landmarkList[k].y - landmarkList[0].y)
      invariant forall k :: index <= k < n ==> temp[k] == landmarkList[k]
    {
      if index == 0 {
        baseX, baseY := temp[index].x, temp[index].y;
      }
      temp[index] := Point2(temp[index].x - baseX, temp[index].y - baseY);
    }
    assert temp[..] == ToWrist2(landmarkList[..]);

    var flat := Flatten2(temp[..]);
    if |flat| == 0 {
      r := None;
    } else {
      var maxValue := MaxAbs(flat);
      r := Some(DivideByMax(flat, maxValue));
    }
    PreProcess2Properties(landmarkList[..]);
  }

  /** `pre_process_landmark_3d`: as PreProcessLandmark, with three values per point. */
  method PreProcessLandmark3d(landmarkList: array<Point3>) returns (r: Option<seq<real>>)
    ensures r == PreProcess3(landmarkList[..])
    ensures r.Some? <==> landmarkList.Length > 0
    ensures r.Some? ==> |r.value| == 3 * landmarkList.Length
    ensures r.Some? ==> r.value[0] == 0.0 && r.value[1] == 0.0 && r.value[2] == 0.0
    ensures r.Some? ==> forall k :: 0 <= k < |r.value| ==> -1.0 <= r.value[k] <= 1.0
  {
    var n := landmarkList.Length;
    // copy.deepcopy: every later write goes to this fresh array
    var temp := new Point3[n](i requires 0 <= i < n reads landmarkList => landmarkList[i]);

    var baseX, baseY, baseZ := 0.0, 0.0, 0.0;
    for index := 0 to n
      invariant index > 0 ==>
                  baseX == landmarkList[0].x && baseY == landmarkList[0].y && baseZ == landmarkList[0].z
      invariant forall k :: 0 <= k < index ==>
                  temp[k] == Point3(landmarkList[k].x - landmarkList[0].x,
                                    landmarkList[k].y - landmarkList[0].y,
                                    landmarkList[k].z - landmarkList[0].z)
      invariant forall k :: index <= k < n ==> temp[k] == landmarkList[k]
    {
      if index == 0 {
        baseX := temp[index].x;
        baseY := temp[index].y;
        baseZ := temp[index].z;
      }
      temp[index] := Point3(temp[index].x - baseX, temp[index].y - baseY, temp[index].z - baseZ);
    }
    assert temp[..] == ToWrist3(landmarkList[..]);

    var flat := Flatten3(temp[..]);
    if |flat| == 0 {
      r := None;
    } else {
      var maxValue := MaxAbs(flat);
      r := Some(DivideByMax(flat, maxValue));
    }
    PreProcess3Properties(landmarkList[..]);
  }

  // ---------------------------------------------------------------------------
  // extract_landmarks_from_mediapipe

  /** One hand of a MediaPipe result: its landmarks and the label and score of
      its first handedness classification. */
  datatype DetectedHand = DetectedHand(landmarks: seq<Point3>, handLabel: string, score: real)

  datatype Extraction =
    | NoHand
    | Extracted(landmarks: seq<real>, handedness: string, confidence: real)
    | NoLandmarks  // the hand had no landmarks, so `max` raised ValueError

  /** `extract_landmarks_from_mediapipe`: `NoHand` when nothing was detected;
      otherwise only the first hand counts, with its own handedness label and
      score, and its landmarks go through the 3D normaliser. */
  method ExtractLandmarksFromMediapipe(multiHand: seq<DetectedHand>) returns (r: Extraction)
    ensures r.NoHand? <==> |multiHand| == 0
    ensures r.NoLandmarks? <==> |multiHand| > 0 && |multiHand[0].landmarks| == 0
    ensures r.Extracted? ==>
              && Some(r.landmarks) == PreProcess3(multiHand[0].landmarks)
              && |r.landmarks| == 3 * |multiHand[0].landmarks|
              && r.handedness == multiHand[0].handLabel
              && r.confidence == multiHand[0].score
  {
    if |multiHand| == 0 {
      return NoHand;
    }
    var hand := multiHand[0];
    var landmarkList := new Point3[|hand.landmarks|];
    for i := 0 to |hand.landmarks|
      invariant forall k :: 0 <= k < i ==> landmarkList[k] == hand.landmarks[k]
    {
      landmarkList[i] := hand.landmarks[i];
    }
    assert landmarkList[..] == hand.landmarks;
    var normalized := PreProcessLandmark3d(landmarkList);
    match normalized
    case None =>
      r := NoLandmarks;
    case Some(v) =>
      r := Extracted(v, hand.handLabel, hand.score);
  }
}
