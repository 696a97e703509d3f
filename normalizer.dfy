/** The landmark normaliser: a hand's keypoints become a wrist-relative,
    scale-free feature vector. Floats are idealised as reals.

    The steps, shared by the 2D and 3D variants and by the server's own copy:
    subtract the first point (the wrist) from every point, flatten the points
    into one vector in point order, and divide every value by the largest
    absolute value, giving 0 everywhere when that largest value is 0.
    This module holds the specification functions and what is proved about
    them; the step-by-step versions live in CalcLandmarks and ApiServer. */
module Normalizer {
  import opened Wrappers

  /** A keypoint given as `[x, y]`. */
  datatype Point2 = Point2(x: real, y: real)

  /** A keypoint given as `[x, y, z]`. */
  datatype Point3 = Point3(x: real, y: real, z: real)

  function Abs(r: real): real
  {
    if r < 0.0 then -r else r
  }

  /** Multiplication, kept behind a name so that proofs about sequences see it
      as one term; its arithmetic is proved once, below, on plain numbers. */
  function Times(c: real, x: real): real
  {
    c * x
  }

  // ---------------------------------------------------------------------------
  // Translation to the wrist

  /** Every point minus the first one; the empty list stays empty. */
  function ToWrist2(pts: seq<Point2>): (r: seq<Point2>)
    ensures |r| == |pts|
  {
    if |pts| == 0 then []
    else seq(|pts|, i requires 0 <= i < |pts| => Point2(pts[i].x - pts[0].x, pts[i].y - pts[0].y))
  }

  function ToWrist3(pts: seq<Point3>): (r: seq<Point3>)
    ensures |r| == |pts|
  {
    if |pts| == 0 then []
    else seq(|pts|, i requires 0 <= i < |pts| =>
               Point3(pts[i].x - pts[0].x, pts[i].y - pts[0].y, pts[i].z - pts[0].z))
  }

  // ---------------------------------------------------------------------------
  // Flattening (`itertools.chain.from_iterable`)

  function Flatten2(pts: seq<Point2>): (v: seq<real>)
    ensures |v| == 2 * |pts|
  {
    if |pts| == 0 then [] else [pts[0].x, pts[0].y] + Flatten2(pts[1..])
  }

  function Flatten3(pts: seq<Point3>): (v: seq<real>)
    ensures |v| == 3 * |pts|
  {
    if |pts| == 0 then [] else [pts[0].x, pts[0].y, pts[0].z] + Flatten3(pts[1..])
  }

  /** The flat vector interleaves the coordinates in point order: x0, y0, x1, y1, ... */
  lemma {:induction false} Flatten2At(pts: seq<Point2>, i: int)
    requires 0 <= i < |pts|
    ensures Flatten2(pts)[2 * i] == pts[i].x && Flatten2(pts)[2 * i + 1] == pts[i].y
  {
    if i > 0 {
      Flatten2At(pts[1..], i - 1);
    }
  }

  /** x0, y0, z0, x1, y1, z1, ... */
  lemma {:induction false} Flatten3At(pts: seq<Point3>, i: int)
    requires 0 <= i < |pts|
    ensures Flatten3(pts)[3 * i] == pts[i].x
    ensures Flatten3(pts)[3 * i + 1] == pts[i].y
    ensures Flatten3(pts)[3 * i + 2] == pts[i].z
  {
    if i > 0 {
      Flatten3At(pts[1..], i - 1);
    }
  }

  // ---------------------------------------------------------------------------
  // The largest absolute value

  /** The largest absolute value of a non-empty vector. */
  function MaxAbs(v: seq<real>): (m: real)
    requires |v| > 0
    ensures 0.0 <= m
  {
    if |v| == 1 then Abs(v[0])
    else
      var rest := MaxAbs(v[1..]);
      if Abs(v[0]) >= rest then Abs(v[0]) else rest
  }

  /** MaxAbs bounds every |v[i]| and some |v[i]| reaches it. */
  lemma {:induction false} MaxAbsIsMax(v: seq<real>)
    requires |v| > 0
    ensures forall i :: 0 <= i < |v| ==> Abs(v[i]) <= MaxAbs(v)
    ensures exists i :: 0 <= i < |v| && Abs(v[i]) == MaxAbs(v)
  {
    if |v| == 1 {
      assert Abs(v[0]) == MaxAbs(v);
    } else {
      MaxAbsIsMax(v[1..]);
      assert forall i :: 1 <= i < |v| ==> v[i] == v[1..][i - 1];
      if Abs(v[0]) < MaxAbs(v[1..]) {
        var k :| 0 <= k < |v| - 1 && Abs(v[1..][k]) == MaxAbs(v[1..]);
        assert Abs(v[k + 1]) == MaxAbs(v);
      } else {
        assert Abs(v[0]) == MaxAbs(v);
      }
    }
  }

  /** The two properties of MaxAbsIsMax determine the value. */
  lemma MaxAbsUnique(v: seq<real>, m: real)
    requires |v| > 0
    requires forall i :: 0 <= i < |v| ==> Abs(v[i]) <= m
    requires exists i :: 0 <= i < |v| && Abs(v[i]) == m
    ensures MaxAbs(v) == m
  {
    MaxAbsIsMax(v);
    var i :| 0 <= i < |v| && Abs(v[i]) == m;
    var j :| 0 <= j < |v| && Abs(v[j]) == MaxAbs(v);
    assert Abs(v[i]) <= MaxAbs(v) && Abs(v[j]) <= m;
  }

  /** The largest absolute value is 0 exactly when every value is 0. */
  lemma MaxAbsZero(v: seq<real>)
    requires |v| > 0
    ensures MaxAbs(v) >= 0.0
    ensures MaxAbs(v) == 0.0 <==> forall i :: 0 <= i < |v| ==> v[i] == 0.0
  {
    MaxAbsIsMax(v);
    assert Abs(v[0]) >= 0.0;
    if MaxAbs(v) != 0.0 {
      var j :| 0 <= j < |v| && Abs(v[j]) == MaxAbs(v);
      assert v[j] != 0.0;
    }
  }

  // ---------------------------------------------------------------------------
  // Division by the largest absolute value

  /** `normalize_`: one value divided by the maximum, or 0 when the maximum is 0. */
  function NormalizeValue(n: real, maxValue: real): real
  {
    if maxValue != 0.0 then n / maxValue else 0.0
  }

  /** `normalize_` mapped over the vector. */
  function DivideByMax(v: seq<real>, maxValue: real): (r: seq<real>)
    ensures |r| == |v|
  {
    seq(|v|, i requires 0 <= i < |v| => NormalizeValue(v[i], maxValue))
  }

  /** The normalisation step; `max` of an empty list raises, which is `None`. */
  function Normalize(v: seq<real>): (r: Option<seq<real>>)
    ensures r.Some? <==> |v| > 0
    ensures r.Some? ==> |r.value| == |v|
  {
    if |v| == 0 then None else Some(DivideByMax(v, MaxAbs(v)))
  }

  /** One value of `normalize_`, given that the divisor bounds its absolute value. */
  lemma NormalizeValueRange(a: real, m: real)
    requires 0.0 <= m && Abs(a) <= m
    ensures -1.0 <= NormalizeValue(a, m) <= 1.0
    ensures a == 0.0 <==> NormalizeValue(a, m) == 0.0
    ensures m != 0.0 && Abs(a) == m ==> Abs(NormalizeValue(a, m)) == 1.0
  {
    if m != 0.0 {
      var q := a / m;
      assert q * m == a;
    }
  }

  /** Every normalised value lies in [-1, 1]; when the input is not all zero
      some value reaches -1 or 1; and the output is all zero exactly when
      the input is. */
  lemma NormalizeRange(v: seq<real>)
    requires |v| > 0
    ensures forall i :: 0 <= i < |v| ==> -1.0 <= Normalize(v).value[i] <= 1.0
    ensures (exists i :: 0 <= i < |v| && v[i] != 0.0) ==>
              exists j :: 0 <= j < |v| && Abs(Normalize(v).value[j]) == 1.0
    ensures (forall i :: 0 <= i < |v| ==> Normalize(v).value[i] == 0.0) <==>
              (forall i :: 0 <= i < |v| ==> v[i] == 0.0)
  {
    var r, m := Normalize(v).value, MaxAbs(v);
    MaxAbsZero(v);
    MaxAbsIsMax(v);
    forall i | 0 <= i < |v|
      ensures -1.0 <= r[i] <= 1.0 && (v[i] == 0.0 <==> r[i] == 0.0)
    {
      NormalizeValueRange(v[i], m);
    }
    if m != 0.0 {
      var j :| 0 <= j < |v| && Abs(v[j]) == m;
      NormalizeValueRange(v[j], m);
    }
  }

  // ---------------------------------------------------------------------------
  // Scale invariance: the size of the hand does not matter

  function ScaleVec(v: seq<real>, c: real): (w: seq<real>)
    ensures |w| == |v|
  {
    seq(|v|, i requires 0 <= i < |v| => Times(c, v[i]))
  }

  lemma AbsScale(a: real, c: real)
    requires c > 0.0
    ensures Abs(Times(c, a)) == Times(c, Abs(a))
  {
    if a < 0.0 {
      assert c * a < 0.0;
    } else {
      assert c * a >= 0.0;
    }
  }

  lemma ScaleMonotone(a: real, b: real, c: real)
    requires c > 0.0 && a <= b
    ensures Times(c, a) <= Times(c, b)
  {
    assert c * b - c * a == c * (b - a);
  }

  lemma ScaleSub(a: real, b: real, c: real)
    ensures Times(c, a) - Times(c, b) == Times(c, a - b)
  {
  }

  lemma NormalizeValueScale(a: real, m: real, c: real)
    requires c > 0.0
    ensures NormalizeValue(Times(c, a), Times(c, m)) == NormalizeValue(a, m)
  {
    if m != 0.0 {
      var q := a / m;
      assert q * m == a;
      assert q * (c * m) == c * a;
    }
  }

  lemma MaxAbsScale(v: seq<real>, c: real)
    requires |v| > 0 && c > 0.0
    ensures MaxAbs(ScaleVec(v, c)) == Times(c, MaxAbs(v))
  {
    var w := ScaleVec(v, c);
    MaxAbsIsMax(v);
    var j :| 0 <= j < |v| && Abs(v[j]) == MaxAbs(v);
    forall i | 0 <= i < |v| ensures Abs(w[i]) <= Times(c, Abs(v[j])) {
      AbsScale(v[i], c);
      ScaleMonotone(Abs(v[i]), Abs(v[j]), c);
    }
    AbsScale(v[j], c);
    assert Abs(w[j]) == Times(c, Abs(v[j]));
    MaxAbsUnique(w, Times(c, Abs(v[j])));
  }

  /** Multiplying the whole vector by a positive factor does not change its normalisation. */
  lemma NormalizeScaleInvariant(v: seq<real>, c: real)
    requires c > 0.0
    ensures Normalize(ScaleVec(v, c)) == Normalize(v)
  {
    if |v| > 0 {
      var w, m := ScaleVec(v, c), MaxAbs(v);
      MaxAbsScale(v, c);
      forall i | 0 <= i < |v| ensures DivideByMax(w, MaxAbs(w))[i] == DivideByMax(v, m)[i] {
        NormalizeValueScale(v[i], m, c);
      }
      assert DivideByMax(w, MaxAbs(w)) == DivideByMax(v, m);
    }
  }

  // ---------------------------------------------------------------------------
  // The whole normaliser, 2D: what `pre_process_landmark` returns

  function PreProcess2(pts: seq<Point2>): (r: Option<seq<real>>)
    ensures r.Some? <==> |pts| > 0
    ensures r.Some? ==> |r.value| == 2 * |pts|
  {
    Normalize(Flatten2(ToWrist2(pts)))
  }

  /** The divisor of the 2D normaliser: the largest coordinate offset from the wrist. */
  function Span2(pts: seq<Point2>): real
    requires |pts| > 0
  {
    MaxAbs(Flatten2(ToWrist2(pts)))
  }

  /** The flat wrist-relative vector, coordinate by coordinate. */
  lemma WristRelative2At(pts: seq<Point2>, i: int)
    requires 0 <= i < |pts|
    ensures Flatten2(ToWrist2(pts))[2 * i] == pts[i].x - pts[0].x
    ensures Flatten2(ToWrist2(pts))[2 * i + 1] == pts[i].y - pts[0].y
  {
    Flatten2At(ToWrist2(pts), i);
  }

  /** Span2 bounds the offset of every coordinate from the wrist, and one offset reaches it. */
  lemma Span2IsMax(pts: seq<Point2>)
    requires |pts| > 0
    ensures forall i :: 0 <= i < |pts| ==>
              Abs(pts[i].x - pts[0].x) <= Span2(pts) && Abs(pts[i].y - pts[0].y) <= Span2(pts)
    ensures exists i :: 0 <= i < |pts| &&
              (Abs(pts[i].x - pts[0].x) == Span2(pts) || Abs(pts[i].y - pts[0].y) == Span2(pts))
  {
    var v := Flatten2(ToWrist2(pts));
    MaxAbsIsMax(v);
    forall i | 0 <= i < |pts|
      ensures Abs(pts[i].x - pts[0].x) <= Span2(pts) && Abs(pts[i].y - pts[0].y) <= Span2(pts)
    {
      WristRelative2At(pts, i);
    }
    var k :| 0 <= k < |v| && Abs(v[k]) == MaxAbs(v);
    WristRelative2At(pts, k / 2);
    assert k == 2 * (k / 2) || k == 2 * (k / 2) + 1;
  }

  /** Every point is moved by the same wrist offset and divided by the same span. */
  lemma PreProcess2At(pts: seq<Point2>, i: int)
    requires 0 <= i < |pts|
    ensures PreProcess2(pts).Some? && |PreProcess2(pts).value| == 2 * |pts|
    ensures PreProcess2(pts).value[2 * i] == NormalizeValue(pts[i].x - pts[0].x, Span2(pts))
    ensures PreProcess2(pts).value[2 * i + 1] == NormalizeValue(pts[i].y - pts[0].y, Span2(pts))
  {
    var v := Flatten2(ToWrist2(pts));
    WristRelative2At(pts, i);
    assert PreProcess2(pts) == Some(DivideByMax(v, Span2(pts)));
  }

  /** The wrist-relative vector is all zero exactly when every point sits on the wrist. */
  lemma WristRelativeZero2(pts: seq<Point2>)
    requires |pts| > 0
    ensures (forall k :: 0 <= k < 2 * |pts| ==> Flatten2(ToWrist2(pts))[k] == 0.0) <==>
            (forall i :: 0 <= i < |pts| ==> pts[i] == pts[0])
  {
    var v := Flatten2(ToWrist2(pts));
    if forall k :: 0 <= k < 2 * |pts| ==> v[k] == 0.0 {
      forall i | 0 <= i < |pts| ensures pts[i] == pts[0] {
        WristRelative2At(pts, i);
        assert v[2 * i] == 0.0 && v[2 * i + 1] == 0.0;
      }
    }
    if forall i :: 0 <= i < |pts| ==> pts[i] == pts[0] {
      forall k | 0 <= k < 2 * |pts| ensures v[k] == 0.0 {
        var i := k / 2;
        WristRelative2At(pts, i);
        assert pts[i] == pts[0];
        assert k == 2 * i || k == 2 * i + 1;
      }
    }
  }

  /** The 2D normaliser fails only on an empty list; otherwise it gives 2 values per
      point, the wrist's two are 0, all lie in [-1, 1], one reaches -1 or 1 unless
      every point sits on the wrist, and all are 0 exactly when every point does. */
  lemma PreProcess2Properties(pts: seq<Point2>)
    ensures PreProcess2(pts).Some? <==> |pts| > 0
    ensures |pts| > 0 ==>
      var r := PreProcess2(pts).value;
      && |r| == 2 * |pts|
      && r[0] == 0.0 && r[1] == 0.0
      && (forall k :: 0 <= k < |r| ==> -1.0 <= r[k] <= 1.0)
      && ((exists i :: 0 <= i < |pts| && pts[i] != pts[0]) ==>
            exists k :: 0 <= k < |r| && Abs(r[k]) == 1.0)
      && ((forall k :: 0 <= k < |r| ==> r[k] == 0.0) <==> (forall i :: 0 <= i < |pts| ==> pts[i] == pts[0]))
  {
    if |pts| > 0 {
      var v := Flatten2(ToWrist2(pts));
      assert |v| == 2 * |pts|;
      var r := PreProcess2(pts).value;
      assert Normalize(v).value == r;
      NormalizeRange(v);
      WristRelativeZero2(pts);
      PreProcess2At(pts, 0);
      var zeroOut := forall k :: 0 <= k < |r| ==> r[k] == 0.0;
      var zeroIn := forall k :: 0 <= k < |v| ==> v[k] == 0.0;
      var atWrist := forall i :: 0 <= i < |pts| ==> pts[i] == pts[0];
      assert zeroOut <==> zeroIn;
      assert (forall k :: 0 <= k < 2 * |pts| ==> Flatten2(ToWrist2(pts))[k] == 0.0) <==>
            (forall i :: 0 <= i < |pts| ==> pts[i] == pts[0]);
      assert zeroIn ==> atWrist;
      assert atWrist ==> zeroIn;
      if !atWrist {
        var k :| 0 <= k < |v| && v[k] != 0.0;
      }
    }
  }

  function ScalePoints2(pts: seq<Point2>, c: real): (r: seq<Point2>)
    ensures |r| == |pts|
  {
    seq(|pts|, i requires 0 <= i < |pts| => Point2(Times(c, pts[i].x), Times(c, pts[i].y)))
  }

  function ShiftPoints2(pts: seq<Point2>, d: Point2): (r: seq<Point2>)
    ensures |r| == |pts|
  {
    seq(|pts|, i requires 0 <= i < |pts| => Point2(pts[i].x + d.x, pts[i].y + d.y))
  }

  /** A bigger or smaller hand (every point scaled about the origin) gives the same features. */
  lemma PreProcess2ScaleInvariant(pts: seq<Point2>, c: real)
    requires c > 0.0
    ensures PreProcess2(ScalePoints2(pts, c)) == PreProcess2(pts)
  {
    var scaled := ScalePoints2(pts, c);
    var v, w := Flatten2(ToWrist2(pts)), Flatten2(ToWrist2(scaled));
    forall k | 0 <= k < |v| ensures w[k] == ScaleVec(v, c)[k] {
      var i := k / 2;
      WristRelative2At(pts, i);
      WristRelative2At(scaled, i);
      ScaleSub(pts[i].x, pts[0].x, c);
      ScaleSub(pts[i].y, pts[0].y, c);
      assert k == 2 * i || k == 2 * i + 1;
    }
    assert w == ScaleVec(v, c);
    NormalizeScaleInvariant(v, c);
  }

  /** The same hand elsewhere in the image gives the same features. */
  lemma PreProcess2TranslationInvariant(pts: seq<Point2>, d: Point2)
    ensures PreProcess2(ShiftPoints2(pts, d)) == PreProcess2(pts)
  {
    assert ToWrist2(ShiftPoints2(pts, d)) == ToWrist2(pts);
  }

  // ---------------------------------------------------------------------------
  // The whole normaliser, 3D: what `pre_process_landmark_3d` returns

  function PreProcess3(pts: seq<Point3>): (r: Option<seq<real>>)
    ensures r.Some? <==> |pts| > 0
    ensures r.Some? ==> |r.value| == 3 * |pts|
  {
    Normalize(Flatten3(ToWrist3(pts)))
  }

  /** The divisor of the 3D normaliser. */
  function Span3(pts: seq<Point3>): real
    requires |pts| > 0
  {
    MaxAbs(Flatten3(ToWrist3(pts)))
  }

  lemma WristRelative3At(pts: seq<Point3>, i: int)
    requires 0 <= i < |pts|
    ensures Flatten3(ToWrist3(pts))[3 * i] == pts[i].x - pts[0].x
    ensures Flatten3(ToWrist3(pts))[3 * i + 1] == pts[i].y - pts[0].y
    ensures Flatten3(ToWrist3(pts))[3 * i + 2] == pts[i].z - pts[0].z
  {
    Flatten3At(ToWrist3(pts), i);
  }

  lemma Span3IsMax(pts: seq<Point3>)
    requires |pts| > 0
    ensures forall i :: 0 <= i < |pts| ==>
              && Abs(pts[i].x - pts[0].x) <= Span3(pts)
              && Abs(pts[i].y - pts[0].y) <= Span3(pts)
              && Abs(pts[i].z - pts[0].z) <= Span3(pts)
    ensures exists i :: 0 <= i < |pts| &&
              (|| Abs(pts[i].x - pts[0].x) == Span3(pts)
               || Abs(pts[i].y - pts[0].y) == Span3(pts)
               || Abs(pts[i].z - pts[0].z) == Span3(pts))
  {
    var v := Flatten3(ToWrist3(pts));
    MaxAbsIsMax(v);
    forall i | 0 <= i < |pts|
      ensures && Abs(pts[i].x - pts[0].x) <= Span3(pts)
              && Abs(pts[i].y - pts[0].y) <= Span3(pts)
              && Abs(pts[i].z - pts[0].z) <= Span3(pts)
    {
      WristRelative3At(pts, i);
    }
    var k :| 0 <= k < |v| && Abs(v[k]) == MaxAbs(v);
    WristRelative3At(pts, k / 3);
    assert k == 3 * (k / 3) || k == 3 * (k / 3) + 1 || k == 3 * (k / 3) + 2;
  }

  lemma PreProcess3At(pts: seq<Point3>, i: int)
    requires 0 <= i < |pts|
    ensures PreProcess3(pts).Some? && |PreProcess3(pts).value| == 3 * |pts|
    ensures PreProcess3(pts).value[3 * i] == NormalizeValue(pts[i].x - pts[0].x, Span3(pts))
    ensures PreProcess3(pts).value[3 * i + 1] == NormalizeValue(pts[i].y - pts[0].y, Span3(pts))
    ensures PreProcess3(pts).value[3 * i + 2] == NormalizeValue(pts[i].z - pts[0].z, Span3(pts))
  {
    var v := Flatten3(ToWrist3(pts));
    WristRelative3At(pts, i);
    assert PreProcess3(pts) == Some(DivideByMax(v, Span3(pts)));
  }

  lemma WristRelativeZero3(pts: seq<Point3>)
    requires |pts| > 0
    ensures (forall k :: 0 <= k < 3 * |pts| ==> Flatten3(ToWrist3(pts))[k] == 0.0) <==>
            (forall i :: 0 <= i < |pts| ==> pts[i] == pts[0])
  {
    var v := Flatten3(ToWrist3(pts));
    if forall k :: 0 <= k < 3 * |pts| ==> v[k] == 0.0 {
      forall i | 0 <= i < |pts| ensures pts[i] == pts[0] {
        WristRelative3At(pts, i);
        assert v[3 * i] == 0.0 && v[3 * i + 1] == 0.0 && v[3 * i + 2] == 0.0;
      }
    }
    if forall i :: 0 <= i < |pts| ==> pts[i] == pts[0] {
      forall k | 0 <= k < 3 * |pts| ensures v[k] == 0.0 {
        var i := k / 3;
        WristRelative3At(pts, i);
        assert pts[i] == pts[0];
        assert k == 3 * i || k == 3 * i + 1 || k == 3 * i + 2;
      }
    }
  }

  /** As PreProcess2Properties, with three values per point. */
  lemma PreProcess3Properties(pts: seq<Point3>)
    ensures PreProcess3(pts).Some? <==> |pts| > 0
    ensures |pts| > 0 ==>
      var r := PreProcess3(pts).value;
      && |r| == 3 * |pts|
      && r[0] == 0.0 && r[1] == 0.0 && r[2] == 0.0
      && (forall k :: 0 <= k < |r| ==> -1.0 <= r[k] <= 1.0)
      && ((exists i :: 0 <= i < |pts| && pts[i] != pts[0]) ==>
            exists k :: 0 <= k < |r| && Abs(r[k]) == 1.0)
      && ((forall k :: 0 <= k < |r| ==> r[k] == 0.0) <==> (forall i :: 0 <= i < |pts| ==> pts[i] == pts[0]))
  {
    if |pts| > 0 {
      var v := Flatten3(ToWrist3(pts));
      assert |v| == 3 * |pts|;
      var r := PreProcess3(pts).value;
      assert Normalize(v).value == r;
      NormalizeRange(v);
      WristRelativeZero3(pts);
      PreProcess3At(pts, 0);
      var zeroOut := forall k :: 0 <= k < |r| ==> r[k] == 0.0;
      var zeroIn := forall k :: 0 <= k < |v| ==> v[k] == 0.0;
      var atWrist := forall i :: 0 <= i < |pts| ==> pts[i] == pts[0];
      assert zeroOut <==> zeroIn;
      assert (forall k :: 0 <= k < 3 * |pts| ==> Flatten3(ToWrist3(pts))[k] == 0.0) <==>
            (forall i :: 0 <= i < |pts| ==> pts[i] == pts[0]);
      assert zeroIn ==> atWrist;
      assert atWrist ==> zeroIn;
      if !atWrist {
        var k :| 0 <= k < |v| && v[k] != 0.0;
      }
    }
  }

  function ScalePoints3(pts: seq<Point3>, c: real): (r: seq<Point3>)
    ensures |r| == |pts|
  {
    seq(|pts|, i requires 0 <= i < |pts| =>
          Point3(Times(c, pts[i].x), Times(c, pts[i].y), Times(c, pts[i].z)))
  }

  function ShiftPoints3(pts: seq<Point3>, d: Point3): (r: seq<Point3>)
    ensures |r| == |pts|
  {
    seq(|pts|, i requires 0 <= i < |pts| => Point3(pts[i].x + d.x, pts[i].y + d.y, pts[i].z + d.z))
  }

  lemma PreProcess3ScaleInvariant(pts: seq<Point3>, c: real)
    requires c > 0.0
    ensures PreProcess3(ScalePoints3(pts, c)) == PreProcess3(pts)
  {
    var scaled := ScalePoints3(pts, c);
    var v, w := Flatten3(ToWrist3(pts)), Flatten3(ToWrist3(scaled));
    forall k | 0 <= k < |v| ensures w[k] == ScaleVec(v, c)[k] {
      var i := k / 3;
      WristRelative3At(pts, i);
      WristRelative3At(scaled, i);
      ScaleSub(pts[i].x, pts[0].x, c);
      ScaleSub(pts[i].y, pts[0].y, c);
      ScaleSub(pts[i].z, pts[0].z, c);
      assert k == 3 * i || k == 3 * i + 1 || k == 3 * i + 2;
    }
    assert w == ScaleVec(v, c);
    NormalizeScaleInvariant(v, c);
  }

  lemma PreProcess3TranslationInvariant(pts: seq<Point3>, d: Point3)
    ensures PreProcess3(ShiftPoints3(pts, d)) == PreProcess3(pts)
  {
    assert ToWrist3(ShiftPoints3(pts, d)) == ToWrist3(pts);
  }
}
