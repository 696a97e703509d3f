/** The landmark path of the prediction server (`api_server.py`): its own copy of
    the 2D normaliser, which takes the 63 values a client sends (21 points times
    x, y, z), drops z and normalises x and y; and the decision logic of the
    `/predict` endpoint around the classifier call: request validation,
    routing by handedness, and the top-1 and top-3 selection over the scores.

    The two trained models are opaque: the classifier is a parameter that maps
    the chosen model and the 42 normalised values to a score vector. */
module ApiServer {
  import opened Wrappers
  import opened Normalizer

  // ---------------------------------------------------------------------------
  // preprocess_landmarks

  /** `reshape(rows, 3)`: consecutive triples of a flat vector as points. */
  function Reshape3(flat: seq<real>, rows: nat): (pts: seq<Point3>)
    requires |flat| == 3 * rows
    ensures |pts| == rows
  {
    seq(rows, i requires 0 <= i < rows => Point3(flat[3 * i], flat[3 * i + 1], flat[3 * i + 2]))
  }

  /** Reshaping undoes flattening ... */
  lemma FlattenReshape(pts: seq<Point3>)
    ensures Reshape3(Flatten3(pts), |pts|) == pts
  {
    var flat := Flatten3(pts);
    forall i | 0 <= i < |pts|
      ensures flat[3 * i] == pts[i].x && flat[3 * i + 1] == pts[i].y && flat[3 * i + 2] == pts[i].z
    {
      Flatten3At(pts, i);
    }
    ReshapeOfTriples(pts, flat);
  }

  lemma ReshapeOfTriples(pts: seq<Point3>, flat: seq<real>)
    requires |flat| == 3 * |pts|
    requires forall i :: 0 <= i < |pts| ==>
               flat[3 * i] == pts[i].x && flat[3 * i + 1] == pts[i].y && flat[3 * i + 2] == pts[i].z
    ensures Reshape3(flat, |pts|) == pts
  {
    var back := Reshape3(flat, |pts|);
    forall i | 0 <= i < |pts|
      ensures back[i] == pts[i]
    {
      assert back[i] == Point3(flat[3 * i], flat[3 * i + 1], flat[3 * i + 2]);
    }
  }

  /** ... and flattening undoes reshaping. */
  lemma ReshapeFlatten(flat: seq<real>, rows: nat)
    requires |flat| == 3 * rows
    ensures Flatten3(Reshape3(flat, rows)) == flat
  {
    var pts := Reshape3(flat, rows);
    forall k | 0 <= k < |flat|
      ensures Flatten3(pts)[k] == flat[k]
    {
      var i := k / 3;
      Flatten3At(pts, i);
      assert k == 3 * i || k == 3 * i + 1 || k == 3 * i + 2;
    }
  }

  /** `[:, :2]`: the x and y columns. */
  function DropZ(pts: seq<Point3>): (r: seq<Point2>)
    ensures |r| == |pts|
    ensures forall i :: 0 <= i < |pts| ==> r[i].x == pts[i].x && r[i].y == pts[i].y
  {
    seq(|pts|, i requires 0 <= i < |pts| => Point2(pts[i].x, pts[i].y))
  }

  /** The 21 (x, y) points of a 63-value request. */
  function ServerPoints(landmarks: seq<real>): (pts: seq<Point2>)
    requires |landmarks| == 63
    ensures |pts| == 21
  {
    DropZ(Reshape3(landmarks, 21))
  }

  /** Point `i` of a request is made of the values at 3i and 3i + 1; the value at
      3i + 2 (its z) plays no part. */
  lemma ServerPointsAt(landmarks: seq<real>, i: int)
    requires |landmarks| == 63 && 0 <= i < 21
    ensures ServerPoints(landmarks)[i] == Point2(landmarks[3 * i], landmarks[3 * i + 1])
  {
  }

  /** What `preprocess_landmarks` returns for 63 values: the wrist-relative x, y
      values, divided by their largest absolute value only when that is above 0. */
  function PreprocessedLandmarks(landmarks: seq<real>): (r: seq<real>)
    requires |landmarks| == 63
    ensures |r| == 42
  {
    var landmarksFlat := Flatten2(ToWrist2(ServerPoints(landmarks)));
    var maxValue := MaxAbs(landmarksFlat);
    if maxValue > 0.0 then DivideByMax(landmarksFlat, maxValue) else landmarksFlat
  }

  /** The server's copy agrees with the 2D normaliser of the landmark utilities
      applied to the x, y columns: the guard `> 0` and the guard `!= 0` differ
      only when every value is already 0. */
  lemma PreprocessedLandmarksMatchesUtility(landmarks: seq<real>)
    requires |landmarks| == 63
    ensures PreProcess2(ServerPoints(landmarks)) == Some(PreprocessedLandmarks(landmarks))
  {
    var v := Flatten2(ToWrist2(ServerPoints(landmarks)));
    MaxAbsZero(v);
    if MaxAbs(v) == 0.0 {
      assert DivideByMax(v, 0.0) == v;
    }
  }

  /** A request whose points are all moved by (dx, dy); z values stay. */
  function ShiftRequest(landmarks: seq<real>, dx: real, dy: real): (r: seq<real>)
    requires |landmarks| == 63
    ensures |r| == 63
  {
    seq(63, k requires 0 <= k < 63 =>
              if k % 3 == 0 then landmarks[k] + dx
              else if k % 3 == 1 then landmarks[k] + dy
              else landmarks[k])
  }

  /** Subtracting the wrist from every point means that moving the whole hand
      leaves the server's output unchanged. */
  lemma PreprocessedLandmarksShiftInvariant(landmarks: seq<real>, dx: real, dy: real)
    requires |landmarks| == 63
    ensures PreprocessedLandmarks(ShiftRequest(landmarks, dx, dy)) == PreprocessedLandmarks(landmarks)
  {
    var shifted := ShiftRequest(landmarks, dx, dy);
    var pts := ServerPoints(landmarks);
    forall i | 0 <= i < 21
      ensures ServerPoints(shifted)[i] == ShiftPoints2(pts, Point2(dx, dy))[i]
    {
      assert (3 * i) % 3 == 0 && (3 * i + 1) % 3 == 1;
      ServerPointsAt(landmarks, i);
      ServerPointsAt(shifted, i);
    }
    assert ServerPoints(shifted) == ShiftPoints2(pts, Point2(dx, dy));
    PreProcess2TranslationInvariant(pts, Point2(dx, dy));
    PreprocessedLandmarksMatchesUtility(landmarks);
    PreprocessedLandmarksMatchesUtility(shifted);
  }

  /** The properties of the server's normaliser: 42 values, the wrist's two are
      0, all lie in [-1, 1], one reaches -1 or 1 unless every point sits on the
      wrist, and all are 0 exactly when every point does. */
  lemma PreprocessedLandmarksProperties(landmarks: seq<real>)
    requires |landmarks| == 63
    ensures var r := PreprocessedLandmarks(landmarks);
            var pts := ServerPoints(landmarks);
            && |r| == 42
            && r[0] == 0.0 && r[1] == 0.0
            && (forall k :: 0 <= k < 42 ==> -1.0 <= r[k] <= 1.0)
            && ((exists i :: 0 <= i < 21 && pts[i] != pts[0]) ==> exists k :: 0 <= k < 42 && Abs(r[k]) == 1.0)
            && ((forall k :: 0 <= k < 42 ==> r[k] == 0.0) <==> (forall i :: 0 <= i < 21 ==> pts[i] == pts[0]))
  {
    var pts := ServerPoints(landmarks);
    var r := PreprocessedLandmarks(landmarks);
    PreprocessedLandmarksMatchesUtility(landmarks);
    assert PreProcess2(pts).value == r;
    PreProcess2Properties(pts);
    assert |pts| == 21 && |r| == 2 * |pts|;
  }

  /** Only x and y reach the model: two requests that differ only in their z
      values (positions 2, 5, ..., 62) are preprocessed alike. */
  lemma PreprocessedLandmarksIgnoresZ(a: seq<real>, b: seq<real>)
    requires |a| == 63 && |b| == 63
    requires forall k :: 0 <= k < 63 && k % 3 != 2 ==> a[k] == b[k]
    ensures PreprocessedLandmarks(a) == PreprocessedLandmarks(b)
  {
    forall i | 0 <= i < 21
      ensures ServerPoints(a)[i] == ServerPoints(b)[i]
    {
      assert (3 * i) % 3 == 0 && (3 * i + 1) % 3 == 1;
      assert a[3 * i] == b[3 * i] && a[3 * i + 1] == b[3 * i + 1];
      ServerPointsAt(a, i);
      ServerPointsAt(b, i);
    }
    assert ServerPoints(a) == ServerPoints(b);
  }

  /** Rows holding each point's offset from the wrist are `ToWrist2` of the
      request's points. */
  lemma WristRelativeRows(landmarks: seq<real>, rows: seq<Point2>)
    requires |landmarks| == 63 && |rows| == 21
    requires forall k :: 0 <= k < 21 ==>
               rows[k] == Point2(landmarks[3 * k] - landmarks[0], landmarks[3 * k + 1] - landmarks[1])
    ensures rows == ToWrist2(ServerPoints(landmarks))
  {
    var pts := ServerPoints(landmarks);
    var w := ToWrist2(pts);
    ServerPointsAt(landmarks, 0);
    forall i | 0 <= i < 21
      ensures rows[i] == w[i]
    {
      ServerPointsAt(landmarks, i);
      assert w[i] == Point2(pts[i].x - pts[0].x, pts[i].y - pts[0].y);
    }
  }

  /** `preprocess_landmarks`: a 21 x 3 array made from the values (`reshape`
      raises on any other count), the wrist subtracted from the x column and then
      from the y column in place, the x, y columns flattened row by row and
      divided by their largest absolute value when it is above 0. */
  method PreprocessLandmarks(landmarks: seq<real>) returns (r: Option<seq<real>>)
    ensures r.None? <==> |landmarks| != 63
    ensures r.Some? ==> r.value == PreprocessedLandmarks(landmarks)
  {
    if |landmarks| != 63 {
      return None;
    }
    var landmarksArray := new real[21, 3]((i: int, j: int) requires 0 <= i < 21 && 0 <= j < 3 =>
                                            landmarks[3 * i + j]);
    // `landmarks_2d` is a view of the first two columns, so its writes land here
    var baseX, baseY := landmarksArray[0, 0], landmarksArray[0, 1];
    for i := 0 to 21
      invariant forall k :: 0 <= k < i ==> landmarksArray[k, 0] == landmarks[3 * k] - landmarks[0]
      invariant forall k :: i <= k < 21 ==> landmarksArray[k, 0] == landmarks[3 * k]
      invariant forall k :: 0 <= k < 21 ==> landmarksArray[k, 1] == landmarks[3 * k + 1]
    {
      landmarksArray[i, 0] := landmarksArray[i, 0] - baseX;
    }
    for i := 0 to 21
      invariant forall k :: 0 <= k < 21 ==> landmarksArray[k, 0] == landmarks[3 * k] - landmarks[0]
      invariant forall k :: 0 <= k < i ==> landmarksArray[k, 1] == landmarks[3 * k + 1] - landmarks[1]
      invariant forall k :: i <= k < 21 ==> landmarksArray[k, 1] == landmarks[3 * k + 1]
    {
      landmarksArray[i, 1] := landmarksArray[i, 1] - baseY;
    }
    var rows := seq(21, i requires 0 <= i < 21 reads landmarksArray =>
                          Point2(landmarksArray[i, 0], landmarksArray[i, 1]));
    assert forall k :: 0 <= k < 21 ==>
             rows[k] == Point2(landmarks[3 * k] - landmarks[0], landmarks[3 * k + 1] - landmarks[1]);
    WristRelativeRows(landmarks, rows);
    var landmarksFlat := Flatten2(rows);
    var maxValue := MaxAbs(landmarksFlat);
    if maxValue > 0.0 {
      landmarksFlat := DivideByMax(landmarksFlat, maxValue);
    }
    r := Some(landmarksFlat);
  }

  // ---------------------------------------------------------------------------
  // np.argmax and np.argsort over a score vector

  predicate IndicesBelow(xs: seq<nat>, n: nat)
  {
    forall k :: 0 <= k < |xs| ==> xs[k] < n
  }

  predicate Distinct(xs: seq<nat>)
  {
    forall a, b :: 0 <= a < b < |xs| ==> xs[a] != xs[b]
  }

  /** The indices `xs` list their scores in ascending order. */
  predicate Ascending(s: seq<real>, xs: seq<nat>)
    requires IndicesBelow(xs, |s|)
  {
    forall a, b :: 0 <= a < b < |xs| ==> s[xs[a]] <= s[xs[b]]
  }

  /** `np.argmax`: the first index of a largest score. */
  function ArgMax(s: seq<real>): (r: nat)
    requires |s| > 0
    ensures r < |s|
    ensures forall k :: 0 <= k < |s| ==> s[k] <= s[r]
    ensures forall k :: 0 <= k < r ==> s[k] < s[r]
  {
    if |s| == 1 then 0
    else
      var best := ArgMax(s[..|s| - 1]);
      if s[|s| - 1] > s[best] then |s| - 1 else best
  }

  /** Inserts index `i` into the score-ascending `xs`, after every index of an
      equal score. */
  function InsertIndex(s: seq<real>, i: nat, xs: seq<nat>): (r: seq<nat>)
    requires i < |s| && IndicesBelow(xs, |s|) && Ascending(s, xs)
    ensures |r| == |xs| + 1 && IndicesBelow(r, |s|)
    ensures forall x :: x in r <==> x == i || x in xs
    ensures Ascending(s, r)
    ensures i !in xs && Distinct(xs) ==> Distinct(r)
  {
    if |xs| == 0 || s[i] < s[xs[0]] then
      ConsAscending(s, i, xs);
      ConsDistinct(i, xs);
      [i] + xs
    else
      var rest := InsertIndex(s, i, xs[1..]);
      HeadBelowInsert(s, xs, i, rest);
      ConsAscending(s, xs[0], rest);
      ConsDistinct(xs[0], rest);
      assert xs == [xs[0]] + xs[1..];
      [xs[0]] + rest
  }

  /** An index scoring at most every index of an ascending sequence can go in front. */
  lemma ConsAscending(s: seq<real>, h: nat, xs: seq<nat>)
    requires h < |s| && IndicesBelow(xs, |s|) && Ascending(s, xs)
    requires forall b :: 0 <= b < |xs| ==> s[h] <= s[xs[b]]
    ensures IndicesBelow([h] + xs, |s|) && Ascending(s, [h] + xs)
  {
  }

  /** A new index in front of distinct indices keeps them distinct. */
  lemma ConsDistinct(h: nat, xs: seq<nat>)
    ensures Distinct(xs) && h !in xs ==> Distinct([h] + xs)
  {
    if Distinct(xs) && h !in xs {
      forall a, b | 0 <= a < b < |xs| + 1
        ensures ([h] + xs)[a] != ([h] + xs)[b]
      {
        if a > 0 {
          assert ([h] + xs)[a] == xs[a - 1];
        }
        assert ([h] + xs)[b] == xs[b - 1];
      }
    }
  }

  /** The head of an ascending `xs` scores at most every index of a sequence made
      of `i` (scoring at least as high) and the rest of `xs`. */
  lemma HeadBelowInsert(s: seq<real>, xs: seq<nat>, i: nat, rest: seq<nat>)
    requires |xs| > 0 && i < |s| && IndicesBelow(xs, |s|) && Ascending(s, xs)
    requires s[xs[0]] <= s[i]
    requires IndicesBelow(rest, |s|)
    requires forall x :: x in rest ==> x == i || x in xs[1..]
    ensures forall b :: 0 <= b < |rest| ==> s[xs[0]] <= s[rest[b]]
    ensures Distinct(xs) && i !in xs ==> xs[0] !in rest
  {
    forall b | 0 <= b < |rest|
      ensures s[xs[0]] <= s[rest[b]]
    {
      assert rest[b] in rest;
      if rest[b] != i {
        var c :| 0 <= c < |xs| - 1 && xs[1..][c] == rest[b];
        assert xs[c + 1] == rest[b];
      }
    }
    if Distinct(xs) && i !in xs {
      assert forall c :: 0 <= c < |xs| - 1 ==> xs[1..][c] == xs[c + 1] != xs[0];
      assert xs[0] !in xs[1..];
    }
  }

  /** The indices 0 .. n-1 in ascending order of score. */
  function ArgSortPrefix(s: seq<real>, n: nat): (r: seq<nat>)
    requires n <= |s|
    ensures |r| == n && IndicesBelow(r, |s|) && Ascending(s, r) && Distinct(r)
    ensures forall x :: x in r <==> 0 <= x < n
  {
    if n == 0 then [] else InsertIndex(s, n - 1, ArgSortPrefix(s, n - 1))
  }

  /** `np.argsort`: every index once, in ascending order of score (ties in index
      order). */
  function ArgSort(s: seq<real>): (r: seq<nat>)
    ensures |r| == |s| && IndicesBelow(r, |s|) && Ascending(s, r) && Distinct(r)
    ensures forall x :: x in r <==> 0 <= x < |s|
  {
    ArgSortPrefix(s, |s|)
  }

  /** The slice `[-n:]`: the last `n` elements, or all of them when there are fewer. */
  function LastN(xs: seq<nat>, n: nat): (r: seq<nat>)
    ensures |r| == if |xs| <= n then |xs| else n
  {
    if |xs| <= n then xs else xs[|xs| - n..]
  }

  /** The slice `[::-1]`. */
  function Reverse(xs: seq<nat>): (r: seq<nat>)
    ensures |r| == |xs|
  {
    seq(|xs|, i requires 0 <= i < |xs| => xs[|xs| - 1 - i])
  }

  /** The `k` highest-scoring indices, highest first: the last `k` of the
      argsort, reversed. */
  function TopIndices(s: seq<real>, k: nat): (r: seq<nat>)
    ensures |r| == if k <= |s| then k else |s|
  {
    Reverse(LastN(ArgSort(s), k))
  }

  /** Entry `a` of the top-k indices is entry n - 1 - a of the argsort. */
  lemma TopIndexAt(s: seq<real>, k: nat, a: nat)
    requires a < k && a < |s|
    ensures |TopIndices(s, k)| == (if k <= |s| then k else |s|)
    ensures TopIndices(s, k)[a] == ArgSort(s)[|s| - 1 - a]
  {
    ReverseLastNAt(ArgSort(s), k, a);
  }

  lemma ReverseLastNAt(xs: seq<nat>, k: nat, a: nat)
    requires a < k && a < |xs|
    ensures |Reverse(LastN(xs, k))| == (if k <= |xs| then k else |xs|)
    ensures Reverse(LastN(xs, k))[a] == xs[|xs| - 1 - a]
  {
    var m := if k <= |xs| then k else |xs|;
    assert LastN(xs, k) == xs[|xs| - m..];
  }

  /** The top-k indices are min(k, n) different indices of the score vector, in
      non-increasing order of score, and no index left out scores above one
      kept. */
  lemma TopIndicesProperties(s: seq<real>, k: nat)
    ensures var top := TopIndices(s, k);
            && |top| == (if k <= |s| then k else |s|)
            && IndicesBelow(top, |s|)
            && Distinct(top)
            && (forall a, b :: 0 <= a < b < |top| ==> s[top[a]] >= s[top[b]])
            && (forall a, j :: 0 <= a < |top| && 0 <= j < |s| && j !in top ==> s[j] <= s[top[a]])
  {
    TopIndicesOrdered(s, k);
    TopIndicesExcluded(s, k);
  }

  /** The top-k indices are different indices of the vector, highest score first. */
  lemma TopIndicesOrdered(s: seq<real>, k: nat)
    ensures var top := TopIndices(s, k);
            && |top| == (if k <= |s| then k else |s|)
            && IndicesBelow(top, |s|)
            && Distinct(top)
            && (forall a, b :: 0 <= a < b < |top| ==> s[top[a]] >= s[top[b]])
  {
    var sorted := ArgSort(s);
    var top := TopIndices(s, k);
    var m := if k <= |s| then k else |s|;
    assert |top| == m;
    forall a | 0 <= a < m
      ensures top[a] < |s|
    {
      TopIndexAt(s, k, a);
    }
    forall a, b | 0 <= a < b < m
      ensures s[top[a]] >= s[top[b]] && top[a] != top[b]
    {
      TopIndexAt(s, k, a);
      TopIndexAt(s, k, b);
    }
  }

  /** No index left out of the top k scores above one kept. */
  lemma TopIndicesExcluded(s: seq<real>, k: nat)
    ensures var top := TopIndices(s, k);
            forall a, j :: 0 <= a < |top| && 0 <= j < |s| && j !in top ==> s[j] <= s[top[a]]
  {
    var sorted := ArgSort(s);
    var top := TopIndices(s, k);
    var n := |s|;
    var m := if k <= n then k else n;
    assert |top| == m;
    forall a, j | 0 <= a < m && 0 <= j < n && j !in top
      ensures s[j] <= s[top[a]]
    {
      ExcludedBelowKept(s, k, a, j);
    }
  }

  /** An index outside the top k sits lower in the argsort than every kept one. */
  lemma ExcludedBelowKept(s: seq<real>, k: nat, a: nat, j: nat)
    requires a < k && a < |s| && j < |s| && j !in TopIndices(s, k)
    ensures s[j] <= s[TopIndices(s, k)[a]]
  {
    var sorted := ArgSort(s);
    assert j in sorted;
    ExcludedBelowKeptIn(s, sorted, k, a, j);
  }

  lemma ExcludedBelowKeptIn(s: seq<real>, sorted: seq<nat>, k: nat, a: nat, j: nat)
    requires |sorted| == |s| && IndicesBelow(sorted, |s|) && Ascending(s, sorted)
    requires a < k && a < |s| && j in sorted && j !in Reverse(LastN(sorted, k))
    ensures s[j] <= s[Reverse(LastN(sorted, k))[a]]
  {
    var n := |s|;
    var m := if k <= n then k else n;
    var p :| 0 <= p < n && sorted[p] == j;
    if p >= n - m {
      KeptIfHigh(sorted, k, p);
    }
    ReverseLastNAt(sorted, k, a);
    assert p < n - 1 - a;
    assert s[sorted[p]] <= s[sorted[n - 1 - a]];
  }

  /** The last min(k, n) entries of the argsort are the ones kept. */
  lemma KeptIfHigh(sorted: seq<nat>, k: nat, p: int)
    requires 0 <= p < |sorted| && p >= |sorted| - (if k <= |sorted| then k else |sorted|)
    ensures sorted[p] in Reverse(LastN(sorted, k))
  {
    ReverseLastNAt(sorted, k, |sorted| - 1 - p);
  }

  /** The first of the top indices scores as high as the argmax: the confidence
      of `top3[0]` is the reported confidence (their labels may differ when two
      classes tie for the top score). */
  lemma ArgMaxMatchesTop(s: seq<real>, k: nat)
    requires |s| > 0 && k > 0
    ensures s[TopIndices(s, k)[0]] == s[ArgMax(s)]
  {
    TopIndicesProperties(s, k);
    var top := TopIndices(s, k);
    var t := ArgMax(s);
    if t !in top {
      assert s[t] <= s[top[0]];
    } else {
      var b :| 0 <= b < |top| && top[b] == t;
      assert b == 0 || s[top[0]] >= s[top[b]];
    }
  }

  // ---------------------------------------------------------------------------
  // LABELS

  /** The label table used when no label file exists: the 26 lowercase letters
      in order, then "space". */
  function DefaultLabels(): (labels: seq<string>)
    ensures |labels| == 27 && labels[26] == "space"
    ensures forall i :: 0 <= i < 26 ==> |labels[i]| == 1 && 'a' <= labels[i][0] <= 'z'
    ensures forall i, j :: 0 <= i < j < 26 ==> labels[i][0] < labels[j][0]
  {
    seq(26, i requires 0 <= i < 26 => [(97 + i) as char]) + ["space"]
  }

  /** The default table names each of the 26 lowercase letters, once each, and
      its 27 labels are all different. */
  lemma DefaultLabelsAlphabet()
    ensures forall c: char :: 'a' <= c <= 'z' ==> [c] in DefaultLabels()
    ensures forall i, j :: 0 <= i < j < 27 ==> DefaultLabels()[i] != DefaultLabels()[j]
  {
    var labels := DefaultLabels();
    forall c: char | 'a' <= c <= 'z'
      ensures [c] in labels
    {
      var i := c as int - 97;
      assert labels[i] == [c];
    }
    forall i, j | 0 <= i < j < 27
      ensures labels[i] != labels[j]
    {
      if j < 26 {
        assert labels[i][0] != labels[j][0];
      } else {
        assert |labels[i]| != |labels[j]|;
      }
    }
  }

  // ---------------------------------------------------------------------------
  // predict

  /** The two trained classifiers. */
  datatype HandModel = LeftModel | RightModel

  /** The opaque `model.predict`: scores for the chosen model and the 42 inputs. */
  type Classifier = (HandModel, seq<real>) -> seq<real>

  function ModelName(model: HandModel): string
  {
    match model
    case LeftModel => "Left Hand"
    case RightModel => "Right Hand"
  }

  /** Only the exact string "Left" selects the left model. */
  function SelectModel(handedness: string): HandModel
  {
    if handedness == "Left" then LeftModel else RightModel
  }

  /** The JSON body: `landmarks` and `handedness` may each be missing. */
  datatype Request = Request(landmarks: Option<seq<real>>, handedness: Option<string>)

  /** A missing `handedness` means "Right". */
  function RequestedHandedness(req: Request): string
  {
    if req.handedness.Some? then req.handedness.value else "Right"
  }

  /** The two reasons for status 400. */
  datatype RequestError = LandmarksRequired | WrongLandmarkCount(got: nat)

  /** One entry of `top3`. */
  datatype Ranked = Ranked(labelName: string, confidence: real)

  datatype Response =
    | Prediction(prediction: string, confidence: real, top3: seq<Ranked>,
                 handedness: string, modelUsed: string)
    | BadRequest(error: RequestError)  // status 400
    | ServerError                      // status 500: an exception in the handler

  /** The `/predict` handler for a given label table and classifier. */
  function Predict(req: Request, labels: seq<string>, classify: Classifier): (r: Response)
    ensures r.BadRequest? <==> !WellFormed(req)
  {
    if req.landmarks.None? then BadRequest(LandmarksRequired)
    else
      var landmarks := req.landmarks.value;
      var handedness := RequestedHandedness(req);
      if |landmarks| != 63 then BadRequest(WrongLandmarkCount(|landmarks|))
      else
        var model := SelectModel(handedness);
        Respond(classify(model, PreprocessedLandmarks(landmarks)), labels, handedness, model)
  }

  /** What the handler makes of the chosen model's scores: the top-1 and top-3
      selection, or a 500 when the scores are empty (`argmax` raises) or an index
      falls outside the label table (IndexError). */
  function Respond(predictions: seq<real>, labels: seq<string>, handedness: string, model: HandModel): (r: Response)
    ensures !r.BadRequest?
  {
    if |predictions| == 0 then ServerError
    else
      var topIdx := ArgMax(predictions);
      if topIdx >= |labels| then ServerError
      else
        var top3Idx := TopIndices(predictions, 3);
        if !IndicesBelow(top3Idx, |labels|) then ServerError
        else
          TopIndicesOrdered(predictions, 3);
          var top3 := RankEntries(labels, predictions, top3Idx);
          Prediction(labels[topIdx], predictions[topIdx], top3, handedness, ModelName(model))
  }

  /** The `top3` list: each index paired with its label and score. */
  function RankEntries(labels: seq<string>, s: seq<real>, idx: seq<nat>): (r: seq<Ranked>)
    requires IndicesBelow(idx, |labels|) && IndicesBelow(idx, |s|)
    ensures |r| == |idx|
    ensures forall a :: 0 <= a < |idx| ==> r[a].labelName == labels[idx[a]] && r[a].confidence == s[idx[a]]
  {
    seq(|idx|, i requires 0 <= i < |idx| => Ranked(labels[idx[i]], s[idx[i]]))
  }

  /** The request is well formed: landmarks present, 63 of them. */
  predicate WellFormed(req: Request)
  {
    req.landmarks.Some? && |req.landmarks.value| == 63
  }

  /** The score vector the chosen model returns for a well-formed request. */
  function Scores(req: Request, classify: Classifier): seq<real>
    requires WellFormed(req)
  {
    classify(SelectModel(RequestedHandedness(req)), PreprocessedLandmarks(req.landmarks.value))
  }

  /** Validation: a request is refused with 400 exactly when it lacks the
      landmarks or has other than 63 of them, and the refusal is decided before
      the classifier is consulted: any other classifier gives the same answer. */
  lemma PredictValidation(req: Request, labels: seq<string>, classify: Classifier, other: Classifier)
    ensures !Predict(req, labels, classify).BadRequest? <==> WellFormed(req)
    ensures req.landmarks.None? ==> Predict(req, labels, classify) == BadRequest(LandmarksRequired)
    ensures req.landmarks.Some? && |req.landmarks.value| != 63 ==>
              Predict(req, labels, classify) == BadRequest(WrongLandmarkCount(|req.landmarks.value|))
    ensures !WellFormed(req) ==> Predict(req, labels, other) == Predict(req, labels, classify)
  {
    if WellFormed(req) {
      PredictScored(req, labels, classify);
      RespondNeverBadRequest(Scores(req, classify), labels, RequestedHandedness(req),
                             SelectModel(RequestedHandedness(req)));
    }
  }

  lemma RespondNeverBadRequest(predictions: seq<real>, labels: seq<string>, handedness: string, model: HandModel)
    ensures !Respond(predictions, labels, handedness, model).BadRequest?
  {
  }

  /** A well-formed request is answered from the scores of the model its
      handedness selects. */
  lemma PredictScored(req: Request, labels: seq<string>, classify: Classifier)
    requires WellFormed(req)
    ensures Predict(req, labels, classify) ==
              Respond(Scores(req, classify), labels, RequestedHandedness(req), SelectModel(RequestedHandedness(req)))
  {
  }

  /** Routing: handedness defaults to "Right"; a successful response reports the
      handedness asked for and names "Left Hand" exactly when it was "Left" and
      "Right Hand" otherwise;
      and only the chosen model's scores matter. */
  lemma PredictRouting(req: Request, labels: seq<string>, classify: Classifier, other: Classifier)
    ensures RequestedHandedness(Request(req.landmarks, None)) == "Right"
    ensures SelectModel(RequestedHandedness(req)) == LeftModel <==> req.handedness == Some("Left")
    ensures Predict(req, labels, classify).Prediction? ==>
              && Predict(req, labels, classify).handedness == RequestedHandedness(req)
              && Predict(req, labels, classify).modelUsed ==
                   (if req.handedness == Some("Left") then "Left Hand" else "Right Hand")
    ensures req.handedness != Some("Left") && (forall x :: classify(RightModel, x) == other(RightModel, x)) ==>
              Predict(req, labels, classify) == Predict(req, labels, other)
    ensures req.handedness == Some("Left") && (forall x :: classify(LeftModel, x) == other(LeftModel, x)) ==>
              Predict(req, labels, classify) == Predict(req, labels, other)
  {
    if WellFormed(req) {
      PredictScored(req, labels, classify);
      PredictScored(req, labels, other);
      RespondEcho(Scores(req, classify), labels, RequestedHandedness(req), SelectModel(RequestedHandedness(req)));
    }
  }

  lemma RespondEcho(predictions: seq<real>, labels: seq<string>, handedness: string, model: HandModel)
    ensures Respond(predictions, labels, handedness, model).Prediction? ==>
              && Respond(predictions, labels, handedness, model).handedness == handedness
              && Respond(predictions, labels, handedness, model).modelUsed == ModelName(model)
  {
  }

  /** Top-1: the prediction is the label at the first index of a largest score,
      and the confidence is that score. */
  lemma RespondTop1(s: seq<real>, labels: seq<string>, handedness: string, model: HandModel)
    requires Respond(s, labels, handedness, model).Prediction?
    ensures var resp := Respond(s, labels, handedness, model);
            && |s| > 0
            && ArgMax(s) < |labels|
            && resp.prediction == labels[ArgMax(s)]
            && resp.confidence == s[ArgMax(s)]
            && (forall k :: 0 <= k < |s| ==> s[k] <= resp.confidence)
            && (forall k :: 0 <= k < ArgMax(s) ==> s[k] < resp.confidence)
  {
  }

  /** Top-3: min(3, n) entries for different classes, each paired with its own
      label and score, in non-increasing order of confidence, the first as
      confident as the prediction, and no class left out scoring above one kept. */
  lemma RespondTop3(s: seq<real>, labels: seq<string>, handedness: string, model: HandModel)
    requires Respond(s, labels, handedness, model).Prediction?
    ensures var resp := Respond(s, labels, handedness, model);
            var idx := TopIndices(s, 3);
            && |resp.top3| == |idx| == (if |s| >= 3 then 3 else |s|)
            && IndicesBelow(idx, |s|) && IndicesBelow(idx, |labels|) && Distinct(idx)
            && (forall a :: 0 <= a < |idx| ==> resp.top3[a] == Ranked(labels[idx[a]], s[idx[a]]))
            && (forall a, b :: 0 <= a < b < |idx| ==> resp.top3[a].confidence >= resp.top3[b].confidence)
            && resp.top3[0].confidence == resp.confidence
            && (forall a, j :: 0 <= a < |idx| && 0 <= j < |s| && j !in idx ==> s[j] <= resp.top3[a].confidence)
  {
    TopIndicesProperties(s, 3);
    ArgMaxMatchesTop(s, 3);
  }

  /** Scores that are non-empty and no more than the labels always give a
      prediction; a 500 arises only for no scores or more scores than labels. */
  lemma RespondSucceeds(s: seq<real>, labels: seq<string>, handedness: string, model: HandModel)
    ensures 0 < |s| <= |labels| ==> Respond(s, labels, handedness, model).Prediction?
    ensures Respond(s, labels, handedness, model).ServerError? ==> |s| == 0 || |s| > |labels|
  {
    TopIndicesOrdered(s, 3);
  }

  /** With the default table, a well-formed request to a 27-class model always
      gets a prediction. */
  lemma DefaultLabelsSuffice(req: Request, classify: Classifier)
    requires WellFormed(req) && |Scores(req, classify)| == 27
    ensures Predict(req, DefaultLabels(), classify).Prediction?
  {
    PredictScored(req, DefaultLabels(), classify);
    RespondSucceeds(Scores(req, classify), DefaultLabels(), RequestedHandedness(req),
                    SelectModel(RequestedHandedness(req)));
  }
}
