/** A slider's laser hazard (SliderLaser.java): three timestamps fixed at
    construction, an opacity that ramps linearly from 0 at `appearTime` to 1
    at `fullOpacityTime`, and a drawn path through the control points that is
    extended past both ends by one and a half screen sizes. */
module SliderLaser {
  import opened Geometry
  import opened JavaNumbers
  import opened JavaLang

  datatype Laser = Laser(points: seq<Point>, appearTime: int, fullOpacityTime: int, endTime: int)

  /** One command of the drawn Path2D. */
  datatype PathCmd = MoveTo(p: Vec) | QuadTo(control: Vec, end: Vec) | LineTo(p: Vec)

  /** What one render call draws: the stroke's alpha and its path. */
  datatype Frame = Frame(alpha: real, path: seq<PathCmd>)

  /** The constructor: the laser is fully opaque from the slider's start,
      appears `approachTime` earlier and lasts `sliderDuration` after the
      start, both ends cast to long. */
  function New(ctrlPts: seq<Point>, startTime: int, approachTime: real, sliderDuration: Dbl): (l: Laser)
    ensures l.points == ctrlPts && l.fullOpacityTime == startTime
    ensures LONG_MIN <= l.appearTime <= LONG_MAX && LONG_MIN <= l.endTime <= LONG_MAX
    ensures LONG_MIN as real <= startTime as real - approachTime <= LONG_MAX as real ==>
              startTime as real - approachTime - 1.0 < l.appearTime as real < startTime as real - approachTime + 1.0
    ensures sliderDuration.Finite? && LONG_MIN as real <= startTime as real + sliderDuration.v <= LONG_MAX as real ==>
              startTime as real + sliderDuration.v - 1.0 < l.endTime as real < startTime as real + sliderDuration.v + 1.0
    ensures sliderDuration == Infinity(false) ==> l.endTime == LONG_MAX
    ensures sliderDuration == NaN ==> l.endTime == 0
  {
    Laser(ctrlPts, LongOf(startTime as real - approachTime), startTime,
          LongOfDbl(Plus(startTime as real, sliderDuration)))
  }

  /** For a long start time, a non-negative approach time and a
      non-negative (possibly infinite) duration, the laser appears no later
      than it becomes opaque, and becomes opaque no later than it ends. */
  lemma {:induction false} NewOrdered(ctrlPts: seq<Point>, startTime: int, approachTime: real, sliderDuration: Dbl)
    requires LONG_MIN <= startTime <= LONG_MAX && 0.0 <= approachTime
    requires (sliderDuration.Finite? && 0.0 <= sliderDuration.v) || sliderDuration == Infinity(false)
    ensures var l := New(ctrlPts, startTime, approachTime, sliderDuration);
            l.appearTime <= l.fullOpacityTime <= l.endTime
  {
    assert LongOf(startTime as real) == startTime;
    LongOfMonotone(startTime as real - approachTime, startTime as real);
    if sliderDuration.Finite? {
      LongOfMonotone(startTime as real, startTime as real + sliderDuration.v);
    }
  }

  /** getOpacity: 0 before the laser appears, a linear ramp until it is
      fully opaque, 1 afterwards. */
  function Opacity(l: Laser, elapsed: int): (a: real)
    ensures 0.0 <= a <= 1.0
    ensures elapsed < l.appearTime ==> a == 0.0
    ensures l.appearTime <= elapsed && l.fullOpacityTime <= elapsed ==> a == 1.0
  {
    if elapsed < l.appearTime then 0.0
    else if elapsed < l.fullOpacityTime then
      (elapsed - l.appearTime) as real / (l.fullOpacityTime - l.appearTime) as real
    else 1.0
  }

  /** The ramp: on the way from `appearTime` to `fullOpacityTime`, the opacity
      is the fraction of that span already elapsed, so the divisor there is
      always positive and the ramp meets 0 and 1 at its ends. */
  lemma {:induction false} OpacityRamp(l: Laser, elapsed: int)
    requires l.appearTime <= elapsed < l.fullOpacityTime
    ensures l.fullOpacityTime - l.appearTime > 0
    ensures Opacity(l, elapsed) * (l.fullOpacityTime - l.appearTime) as real == (elapsed - l.appearTime) as real
    ensures elapsed == l.appearTime ==> Opacity(l, elapsed) == 0.0
  {
    var span := (l.fullOpacityTime - l.appearTime) as real;
    var done := (elapsed - l.appearTime) as real;
    assert Opacity(l, elapsed) == done / span;
  }

  /** Opacity never decreases as time goes on. */
  lemma {:induction false} OpacityMonotone(l: Laser, e1: int, e2: int)
    requires e1 <= e2
    ensures Opacity(l, e1) <= Opacity(l, e2)
  {
    if l.appearTime <= e1 && e2 < l.fullOpacityTime {
      var span := (l.fullOpacityTime - l.appearTime) as real;
      var d1 := (e1 - l.appearTime) as real;
      var d2 := (e2 - l.appearTime) as real;
      assert span > 0.0 && d1 <= d2;
      assert Opacity(l, e1) == d1 / span && Opacity(l, e2) == d2 / span;
      DivideMonotone(d1, d2, span);
    }
  }

  lemma DivideMonotone(a: real, b: real, c: real)
    requires a <= b && c > 0.0
    ensures a / c <= b / c
  {
    assert b / c - a / c == (b - a) / c;
  }

  /** The render guard: nothing is drawn before the laser appears, after it
      ends, or when it has fewer than two points. */
  predicate Visible(l: Laser, elapsed: int) {
    !(elapsed < l.appearTime || elapsed > l.endTime || |l.points| < 2)
  }

  /** `len` is the (positive) length of the segment from `a` to `b`, the
      value Math.hypot returns for it. */
  predicate SegmentLength(a: Point, b: Point, len: real) {
    len > 0.0 && len * len == Dist2(ToVec(a), ToVec(b))
  }

  /** The point `ext` beyond `from` on the ray from `toward` through `from`. */
  function Beyond(from: Point, toward: Point, len: real, ext: real): Vec
    requires len > 0.0
  {
    Vec(from.x as real - (toward.x - from.x) as real / len * ext,
        from.y as real - (toward.y - from.y) as real / len * ext)
  }

  /** The extension point lies on the line through the segment, on the far
      side of `from`, at distance exactly `ext` from it. */
  lemma {:induction false} BeyondOnRay(from: Point, toward: Point, len: real, ext: real)
    requires SegmentLength(from, toward, len) && ext >= 0.0
    ensures var b := Beyond(from, toward, len, ext);
            && b.x - from.x as real == -(ext / len) * (toward.x - from.x) as real
            && b.y - from.y as real == -(ext / len) * (toward.y - from.y) as real
            && Dist2(b, ToVec(from)) == ext * ext
  {
    var b := Beyond(from, toward, len, ext);
    var dx := (toward.x - from.x) as real;
    var dy := (toward.y - from.y) as real;
    var k := ext / len;
    assert b.x - from.x as real == -(k * dx);
    assert b.y - from.y as real == -(k * dy);
    calc {
      Dist2(b, ToVec(from));
      (k * dx) * (k * dx) + (k * dy) * (k * dy);
      k * k * (dx * dx + dy * dy);
      { assert dx * dx + dy * dy == len * len; }
      k * k * (len * len);
      (k * len) * (k * len);
      { assert k * len == ext; }
      ext * ext;
    }
  }

  /** The smoothed body: for every point but the last, a quadratic segment
      with that point as control and its midpoint with the next as end. */
  function Curve(points: seq<Point>): (cmds: seq<PathCmd>)
    requires |points| >= 1
    ensures |cmds| == |points| - 1
    ensures forall i :: 0 <= i < |cmds| ==>
              cmds[i] == QuadTo(ToVec(points[i]), Midpoint(points[i], points[i + 1]))
  {
    seq(|points| - 1, i requires 0 <= i < |points| - 1 =>
          QuadTo(ToVec(points[i]), Midpoint(points[i], points[i + 1])))
  }

  /** How far past each end the path is extended: one and a half times the
      larger screen dimension. */
  function Extension(screenW: int, screenH: int): (ext: real)
    ensures ext >= 1.5 * screenW as real && ext >= 1.5 * screenH as real
    ensures ext == 1.5 * screenW as real || ext == 1.5 * screenH as real
  {
    (if screenW >= screenH then screenW else screenH) as real * 1.5
  }

  /** The path `render` builds: a moveTo the start extension, the smoothed
      body, a lineTo the last point and a lineTo the end extension. */
  function Path(points: seq<Point>, screenW: int, screenH: int, len0: real, lenN: real): (cmds: seq<PathCmd>)
    requires |points| >= 2
    requires SegmentLength(points[0], points[1], len0)
    requires SegmentLength(points[|points| - 1], points[|points| - 2], lenN)
    ensures |cmds| == |points| + 2
    ensures cmds[0].MoveTo? && cmds[|points|].LineTo? && cmds[|points| + 1].LineTo?
    ensures forall i :: 1 <= i < |points| ==> cmds[i].QuadTo?
    ensures cmds[|points|].p == ToVec(points[|points| - 1])
  {
    var n := |points|;
    var ext := Extension(screenW, screenH);
    [MoveTo(Beyond(points[0], points[1], len0, ext))]
      + Curve(points)
      + [LineTo(ToVec(points[n - 1])), LineTo(Beyond(points[n - 1], points[n - 2], lenN, ext))]
  }

  /** The extensions of the path: its first and last commands go
      `Extension(w, h)` beyond the first and last points, along the first
      and last segments (at exactly that distance, by BeyondOnRay). */
  lemma {:induction false} PathExtensions(points: seq<Point>, screenW: int, screenH: int, len0: real, lenN: real)
    requires |points| >= 2
    requires SegmentLength(points[0], points[1], len0)
    requires SegmentLength(points[|points| - 1], points[|points| - 2], lenN)
    ensures var cmds := Path(points, screenW, screenH, len0, lenN);
            && cmds[0].p == Beyond(points[0], points[1], len0, Extension(screenW, screenH))
            && cmds[|points| + 1].p == Beyond(points[|points| - 1], points[|points| - 2], lenN, Extension(screenW, screenH))
  {
    var n := |points|;
    var ext := Extension(screenW, screenH);
    var first := Beyond(points[0], points[1], len0, ext);
    var last := Beyond(points[n - 1], points[n - 2], lenN, ext);
    var cmds := Path(points, screenW, screenH, len0, lenN);
    assert cmds[0].p == first;
    assert cmds[n + 1].p == last;
  }

  /** The body of the path: its quadratic segments run from midpoint to
      midpoint of consecutive control points, each point but the last as
      control. */
  lemma {:induction false} PathBody(points: seq<Point>, screenW: int, screenH: int, len0: real, lenN: real)
    requires |points| >= 2
    requires SegmentLength(points[0], points[1], len0)
    requires SegmentLength(points[|points| - 1], points[|points| - 2], lenN)
    ensures var cmds := Path(points, screenW, screenH, len0, lenN);
            forall i :: 1 <= i < |points| ==>
              cmds[i] == QuadTo(ToVec(points[i - 1]), Midpoint(points[i - 1], points[i]))
  {
    var cmds := Path(points, screenW, screenH, len0, lenN);
    var body := Curve(points);
    forall i | 1 <= i < |points|
      ensures cmds[i] == QuadTo(ToVec(points[i - 1]), Midpoint(points[i - 1], points[i]))
    {
      assert cmds[i] == body[i - 1];
    }
  }

  /** render: nothing outside the visible window, otherwise the path
      stroked with the current opacity.  The segment lengths are the values
      Math.hypot computes for the first and last segments. */
  function Render(l: Laser, screenW: int, screenH: int, elapsed: int, len0: real, lenN: real): (f: Option<Frame>)
    requires |l.points| >= 2 ==> SegmentLength(l.points[0], l.points[1], len0)
                                 && SegmentLength(l.points[|l.points| - 1], l.points[|l.points| - 2], lenN)
    ensures f.Some? <==> l.appearTime <= elapsed <= l.endTime && |l.points| >= 2
    ensures f.Some? ==> f.value.alpha == Opacity(l, elapsed) && |f.value.path| == |l.points| + 2
  {
    if !Visible(l, elapsed) then None
    else Some(Frame(Opacity(l, elapsed), Path(l.points, screenW, screenH, len0, lenN)))
  }
}
