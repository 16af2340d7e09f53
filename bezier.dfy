/**
 * The Bézier time-warp of the inference script: a cubic Bézier curve from
 * (0, 0) to (1, 1) whose inner control points (a, 0) and (b, 1) shape how
 * fast the camera moves along its trajectory, and the resampling of a pose
 * trajectory through that curve (`bezier_curve`, `camera_pose_lerp_bezier`).
 */
module Bezier {
  import opened Runtime
  import opened Pose

  /** `default(a, b)`: `a`, unless it is absent. */
  function Default(a: Option<real>, b: real): (r: real)
    ensures a.Some? ==> r == a.value
    ensures a.None? ==> r == b
  {
    if a.Some? then a.value else b
  }

  /** The four cubic Bernstein weights at `t`, the rows of `coeffs`. */
  function Bernstein(t: real): (w: seq<real>)
    ensures |w| == 4
    ensures w[0] + w[1] + w[2] + w[3] == 1.0
  {
    [(1.0 - t) * (1.0 - t) * (1.0 - t), 3.0 * t * (1.0 - t) * (1.0 - t), 3.0 * t * t * (1.0 - t), t * t * t]
  }

  lemma SquareNonneg(x: real)
    ensures 0.0 <= x * x
  {
    if x < 0.0 {
      MulNonneg(-x, -x);
    } else {
      MulNonneg(x, x);
    }
  }

  /** A sum of four products of non-negative factors is non-negative. */
  lemma BlendNonneg(w0: real, w1: real, w2: real, w3: real, c0: real, c1: real, c2: real, c3: real)
    requires 0.0 <= w0 && 0.0 <= w1 && 0.0 <= w2 && 0.0 <= w3
    requires 0.0 <= c0 && 0.0 <= c1 && 0.0 <= c2 && 0.0 <= c3
    ensures 0.0 <= w0 * c0 + w1 * c1 + w2 * c2 + w3 * c3
  {
    MulNonneg(w0, c0); MulNonneg(w1, c1); MulNonneg(w2, c2); MulNonneg(w3, c3);
  }

  /** On [0, 1] every Bernstein weight is non-negative. */
  lemma BernsteinNonneg(t: real)
    ensures 0.0 <= t <= 1.0 ==> forall i :: 0 <= i < 4 ==> 0.0 <= Bernstein(t)[i]
  {
    if t < 0.0 || 1.0 < t { return; }
    var u := 1.0 - t;
    MulNonneg(u, u);
    MulNonneg(u * u, u);
    MulNonneg(t, u);
    MulNonneg(t * u, u);
    MulNonneg(t, t);
    MulNonneg(t * t, u);
    MulNonneg(t * t, t);
  }

  /** The x-component of the curve with inner control x-values `a` and `b`. */
  function BezierX(t: real, a: real, b: real): real
  {
    var w := Bernstein(t);
    a * w[1] + b * w[2] + w[3]
  }

  /** The y-component: the y control values are 0, 0, 1, 1. */
  function BezierY(t: real): real
  {
    var w := Bernstein(t);
    w[2] + w[3]
  }

  /** At t = 0 all the weight is on the first control point, at t = 1 on the last. */
  lemma CurveEnds(t: real, a: real, b: real)
    ensures t == 0.0 ==> BezierX(t, a, b) == 0.0 && BezierY(t) == 0.0
    ensures t == 1.0 ==> BezierX(t, a, b) == 1.0 && BezierY(t) == 1.0
  {
    if t == 0.0 {
      assert Bernstein(t) == [1.0, 0.0, 0.0, 0.0];
    }
    if t == 1.0 {
      assert Bernstein(t) == [0.0, 0.0, 0.0, 1.0];
    }
  }

  /** On [0, 1] the y-component is a partial sum of the weights, so it lies in [0, 1]. */
  lemma BezierYBounds(t: real)
    ensures 0.0 <= t <= 1.0 ==> 0.0 <= BezierY(t) <= 1.0
  {
    if 0.0 <= t <= 1.0 {
      var w := Bernstein(t);
      BernsteinNonneg(t);
      assert 0.0 <= w[0] && 0.0 <= w[1] && 0.0 <= w[2] && 0.0 <= w[3];
      assert BezierY(t) == w[2] + w[3];
    }
  }

  /**
   * `bezier_curve(t, a, b)`: the point at parameter `t`, with absent control
   * values replaced by 0.5. The curve starts at (0, 0), ends at (1, 1), and
   * on [0, 1] its y-component stays in [0, 1].
   */
  function Curve(t: real, a: Option<real>, b: Option<real>): (p: (real, real))
    ensures t == 0.0 ==> p == (0.0, 0.0)
    ensures t == 1.0 ==> p == (1.0, 1.0)
    ensures 0.0 <= t <= 1.0 ==> 0.0 <= p.1 <= 1.0
    ensures a.None? && b.None? ==> p.0 == BezierX(t, 0.5, 0.5)
  {
    CurveEnds(t, Default(a, 0.5), Default(b, 0.5));
    BezierYBounds(t);
    (BezierX(t, Default(a, 0.5), Default(b, 0.5)), BezierY(t))
  }

  /** The x-component as a polynomial in `t`. */
  lemma BezierXExpanded(t: real, a: real, b: real)
    ensures BezierX(t, a, b) == 3.0 * a * t + (3.0 * b - 6.0 * a) * t * t + (3.0 * a - 3.0 * b + 1.0) * t * t * t
  {
  }

  /** The divided difference (X(s) - X(t)) / (s - t) of the x-component. */
  function Slope(s: real, t: real, a: real, b: real): real
  {
    3.0 * a + (3.0 * b - 6.0 * a) * (s + t) + (3.0 * a - 3.0 * b + 1.0) * (s * s + s * t + t * t)
  }

  lemma BezierXDifference(t: real, s: real, a: real, b: real)
    ensures BezierX(s, a, b) - BezierX(t, a, b) == (s - t) * Slope(s, t, a, b)
  {
    BezierXExpanded(s, a, b);
    BezierXExpanded(t, a, b);
    assert s * s - t * t == (s - t) * (s + t);
    assert s * s * s - t * t * t == (s - t) * (s * s + s * t + t * t);
  }

  /** The slope is affine in `a` and in `b`, so it is the bilinear blend of its values at the four corners. */
  lemma SlopeBlend(s: real, t: real, a: real, b: real)
    ensures Slope(s, t, a, b) == (1.0 - a) * (1.0 - b) * Slope(s, t, 0.0, 0.0) + a * (1.0 - b) * Slope(s, t, 1.0, 0.0)
                                 + (1.0 - a) * b * Slope(s, t, 0.0, 1.0) + a * b * Slope(s, t, 1.0, 1.0)
  {
  }

  /** At the four corners the slope is a sum of non-negative terms on [0, 1]. */
  lemma SlopeCorners(s: real, t: real)
    requires 0.0 <= t <= 1.0 && 0.0 <= s <= 1.0
    ensures 0.0 <= Slope(s, t, 0.0, 0.0) && 0.0 <= Slope(s, t, 1.0, 0.0)
    ensures 0.0 <= Slope(s, t, 0.0, 1.0) && 0.0 <= Slope(s, t, 1.0, 1.0)
  {
    MulNonneg(s, s); MulNonneg(s, t); MulNonneg(t, t);
    assert Slope(s, t, 1.0, 0.0) == 3.0 * (s + t - 1.0) * (s + t - 1.0) + (s - t) * (s - t);
    SquareNonneg(s + t - 1.0); SquareNonneg(s - t);
    assert Slope(s, t, 0.0, 1.0) == s * (3.0 - 2.0 * s - t) + t * (3.0 - s - 2.0 * t);
    MulNonneg(s, 3.0 - 2.0 * s - t); MulNonneg(t, 3.0 - s - 2.0 * t);
    assert Slope(s, t, 1.0, 1.0) == (1.0 - s) * (1.0 - s) + (1.0 - s) * (1.0 - t) + (1.0 - t) * (1.0 - t);
    MulNonneg(1.0 - s, 1.0 - s); MulNonneg(1.0 - s, 1.0 - t); MulNonneg(1.0 - t, 1.0 - t);
  }

  lemma SlopeNonneg(s: real, t: real, a: real, b: real)
    requires 0.0 <= t <= 1.0 && 0.0 <= s <= 1.0
    requires 0.0 <= a <= 1.0 && 0.0 <= b <= 1.0
    ensures 0.0 <= Slope(s, t, a, b)
  {
    SlopeBlend(s, t, a, b);
    SlopeCorners(s, t);
    MulNonneg(1.0 - a, 1.0 - b); MulNonneg(a, 1.0 - b); MulNonneg(1.0 - a, b); MulNonneg(a, b);
    BlendNonneg((1.0 - a) * (1.0 - b), a * (1.0 - b), (1.0 - a) * b, a * b,
                Slope(s, t, 0.0, 0.0), Slope(s, t, 1.0, 0.0), Slope(s, t, 0.0, 1.0), Slope(s, t, 1.0, 1.0));
  }

  /**
   * For control values in [0, 1] the x-component never decreases along the
   * curve, so the inversion by `searchsorted` against the sampled x-values is
   * always given a sorted sequence.
   */
  lemma BezierXMonotone(t: real, s: real, a: real, b: real)
    requires 0.0 <= t <= s <= 1.0
    requires 0.0 <= a <= 1.0 && 0.0 <= b <= 1.0
    ensures BezierX(t, a, b) <= BezierX(s, a, b)
  {
    BezierXDifference(t, s, a, b);
    SlopeNonneg(s, t, a, b);
    MulNonneg(s - t, Slope(s, t, a, b));
  }

  /** With control values at most 1, the curve stays below x = 1 by at least (1 - t)³. */
  lemma BezierXGap(t: real, a: real, b: real, u: real)
    requires 0.0 <= t <= 1.0 && a <= 1.0 && b <= 1.0 && u == 1.0 - t
    ensures u * u * u <= 1.0 - BezierX(t, a, b)
  {
    var w := Bernstein(t);
    assert w[0] == u * u * u;
    BernsteinNonneg(t);
    assert 1.0 - BezierX(t, a, b) == w[0] + (1.0 - a) * w[1] + (1.0 - b) * w[2];
    MulNonneg(1.0 - a, w[1]);
    MulNonneg(1.0 - b, w[2]);
  }

  /** The k-th of `count` evenly spaced values of `torch.linspace(0, 1, count)`. */
  function Linspace(k: nat, count: nat): (t: real)
    requires k < count
    ensures 0.0 <= t <= 1.0
    ensures k == 0 ==> t == 0.0
    ensures count >= 2 && k == count - 1 ==> t == 1.0
  {
    if count == 1 then 0.0 else k as real / (count - 1) as real
  }

  /** `linspace` is non-decreasing. */
  lemma LinspaceMonotone(i: nat, j: nat, count: nat)
    requires i <= j < count
    ensures Linspace(i, count) <= Linspace(j, count)
  {
    if count >= 2 {
      var d := (count - 1) as real;
      var x, y := i as real / d, j as real / d;
      assert y - x == (j - i) as real / d;
    }
  }

  /** The sampled x-values `xs` of the curve at `linspace(0, 1, count)`. */
  function Xs(count: nat, a: Option<real>, b: Option<real>): (xs: seq<real>)
    ensures |xs| == count
  {
    seq(count, k requires 0 <= k < count => Curve(Linspace(k, count), a, b).0)
  }

  /** The sampled y-values `ys`. */
  function Ys(count: nat): (ys: seq<real>)
    ensures |ys| == count
    ensures forall k :: 0 <= k < count ==> 0.0 <= ys[k] <= 1.0
  {
    seq(count, k requires 0 <= k < count => Curve(Linspace(k, count), None, None).1)
  }

  predicate Sorted(xs: seq<real>)
  {
    forall i, j :: 0 <= i <= j < |xs| ==> xs[i] <= xs[j]
  }

  /** For control values in [0, 1] the sampled x-values are sorted. */
  lemma XsSorted(count: nat, a: Option<real>, b: Option<real>)
    requires 0.0 <= Default(a, 0.5) <= 1.0 && 0.0 <= Default(b, 0.5) <= 1.0
    ensures Sorted(Xs(count, a, b))
  {
    var xs := Xs(count, a, b);
    forall i, j | 0 <= i <= j < count ensures xs[i] <= xs[j] {
      LinspaceMonotone(i, j, count);
      BezierXMonotone(Linspace(i, count), Linspace(j, count), Default(a, 0.5), Default(b, 0.5));
    }
  }

  /**
   * The first position whose value is at least `v` (or `|xs|`): the left
   * insertion point of `v` when `xs` is sorted. This is the reference that
   * torch's bisection below is compared against.
   */
  function SearchSorted(xs: seq<real>, v: real): (r: nat)
    ensures r <= |xs|
    ensures forall j :: 0 <= j < r ==> xs[j] < v
    ensures r < |xs| ==> v <= xs[r]
  {
    if |xs| == 0 || v <= xs[0] then 0 else 1 + SearchSorted(xs[1..], v)
  }

  /** Over a sorted sequence the insertion point brackets `v`: everything before it is below, everything from it on is not. */
  lemma SearchSortedBrackets(xs: seq<real>, v: real)
    requires Sorted(xs)
    ensures forall j :: 0 <= j < |xs| ==> (j < SearchSorted(xs, v) <==> xs[j] < v)
  {
    var r := SearchSorted(xs, v);
    forall j | r <= j < |xs| ensures v <= xs[j] {
      assert xs[r] <= xs[j];
    }
  }

  /**
   * `torch.searchsorted(xs, v)` on `xs[lo..hi]` as torch computes it, sorted
   * or not: a bisection that moves past a midpoint whose value is below `v`
   * and otherwise keeps the lower half. It stays within [lo, hi], and it only
   * returns `hi` after finding the value just below `hi` below `v`.
   */
  function LowerBound(xs: seq<real>, v: real, lo: nat, hi: nat): (r: nat)
    requires lo <= hi <= |xs|
    ensures lo <= r <= hi
    ensures lo < hi && r == hi ==> xs[hi - 1] < v
    decreases hi - lo
  {
    if lo == hi then lo
    else
      var mid := lo + (hi - lo) / 2;
      if xs[mid] < v then LowerBound(xs, v, mid + 1, hi) else LowerBound(xs, v, lo, mid)
  }

  /**
   * When the values in [lo, hi) are below `v` up to position `i` and at least
   * `v` from `i` on, the bisection returns `i`; no other order is needed.
   */
  lemma {:induction false} LowerBoundSplit(xs: seq<real>, v: real, lo: nat, hi: nat, i: nat)
    requires lo <= i <= hi <= |xs|
    requires forall j :: lo <= j < i ==> xs[j] < v
    requires forall j :: i <= j < hi ==> v <= xs[j]
    ensures LowerBound(xs, v, lo, hi) == i
    decreases hi - lo
  {
    if lo < hi {
      var mid := lo + (hi - lo) / 2;
      if xs[mid] < v {
        LowerBoundSplit(xs, v, mid + 1, hi, i);
      } else {
        LowerBoundSplit(xs, v, lo, mid, i);
      }
    }
  }

  /** On a sorted sequence torch's bisection finds the first position whose value is at least `v`. */
  lemma LowerBoundIsSearchSorted(xs: seq<real>, v: real)
    requires Sorted(xs)
    ensures LowerBound(xs, v, 0, |xs|) == SearchSorted(xs, v)
  {
    SearchSortedBrackets(xs, v);
    LowerBoundSplit(xs, v, 0, |xs|, SearchSorted(xs, v));
  }

  /** `.clamp(lo, hi)`. */
  function Clamp(x: real, lo: real, hi: real): real
    requires lo <= hi
  {
    if x < lo then lo else if x > hi then hi else x
  }

  /** The lower bound `.clamp(1e-9)` puts on the bracket width. */
  const Eps: real := 0.000000001

  /**
   * The body of `camera_pose_lerp_bezier` for one sample `t`: the bracket
   * `xs[left] .. xs[right]` found by `searchsorted`, the clamped weight of `t`
   * inside it, and the matching lerp of the y-values scaled to pose indices.
   */
  function PositionFromSamples(xs: seq<real>, ys: seq<real>, t: real, n: nat): (y: real)
    requires 1 <= |xs| == |ys| && t <= xs[|xs| - 1] && 1 <= n
    requires forall k :: 0 <= k < |ys| ==> 0.0 <= ys[k] <= 1.0
    ensures 0.0 <= y <= (n - 1) as real
  {
    var right := LowerBound(xs, t, 0, |xs|);
    var left := if right >= 1 then right - 1 else 0;
    var width := xs[right] - xs[left];
    var xw := Clamp((t - xs[left]) / (if width < Eps then Eps else width), 0.0, 1.0);
    var u := Lerp(ys[left], ys[right], xw);
    LerpBetween(ys[left], ys[right], xw);
    assert 0.0 <= u <= 1.0;
    MulNonneg(u, (n - 1) as real);
    MulNonneg(1.0 - u, (n - 1) as real);
    u * (n - 1) as real
  }

  /**
   * The first sample, t = 0 on a curve starting at (0, 0), lands on pose 0
   * when no sampled x-value is negative.
   */
  lemma PositionAtStart(xs: seq<real>, ys: seq<real>, n: nat)
    requires 1 <= |xs| == |ys| && 1 <= n && xs[0] == 0.0 && ys[0] == 0.0
    requires forall k :: 0 <= k < |xs| ==> 0.0 <= xs[k]
    requires forall k :: 0 <= k < |ys| ==> 0.0 <= ys[k] <= 1.0
    ensures PositionFromSamples(xs, ys, 0.0, n) == 0.0
  {
    LowerBoundSplit(xs, 0.0, 0, |xs|, 0);
  }

  /**
   * The last sample, t = 1 on a curve ending at (1, 1), lands on pose n - 1
   * when every earlier x-value is below 1 and the last bracket is at least
   * 1e-9 wide.
   */
  lemma PositionAtEnd(xs: seq<real>, ys: seq<real>, n: nat)
    requires 2 <= |xs| == |ys| && 1 <= n
    requires xs[|xs| - 1] == 1.0 && ys[|ys| - 1] == 1.0
    requires forall k :: 0 <= k < |ys| ==> 0.0 <= ys[k] <= 1.0
    requires forall j :: 0 <= j < |xs| - 1 ==> xs[j] < 1.0
    requires Eps <= 1.0 - xs[|xs| - 2]
    ensures PositionFromSamples(xs, ys, 1.0, n) == (n - 1) as real
  {
    LowerBoundSplit(xs, 1.0, 0, |xs|, |xs| - 1);
    var width := xs[|xs| - 1] - xs[|xs| - 2];
    assert width == 1.0 - xs[|xs| - 2] && Eps <= width;
    assert (1.0 - xs[|xs| - 2]) / width == 1.0;
  }

  /**
   * `y_weights[k]`: the fractional source position that output frame `k` of
   * `target` samples from a trajectory of `n` poses. Whatever the control
   * values, it lies in [0, n - 1], so both gather indices `floor` and `ceil`
   * are valid pose indices.
   */
  function SourcePosition(k: nat, target: nat, n: nat, a: Option<real>, b: Option<real>): (y: real)
    requires k < target && 1 <= n
    ensures 0.0 <= y <= (n - 1) as real
  {
    var xs := Xs(target, a, b);
    assert Linspace(k, target) <= xs[target - 1];
    PositionFromSamples(xs, Ys(target), Linspace(k, target), n)
  }

  /**
   * `camera_pose_lerp_bezier(c2w, target, a, b)`: output frame k is the lerp
   * between the poses at the floor and the ceiling of its source position,
   * weighted by the fractional part.
   */
  function ResampleBezier(c2w: seq<Mat>, target: nat, a: Option<real>, b: Option<real>): (r: seq<Mat>)
    requires 1 <= |c2w| && AllPoses(c2w)
    ensures |r| == target && AllPoses(r)
  {
    seq(target, k requires 0 <= k < target =>
      var y := SourcePosition(k, target, |c2w|, a, b);
      LerpMat(c2w[y.Floor], c2w[Ceil(y)], Frac(y)))
  }

  /** `m` is a blend, with weight in [0, 1), of pose `i` and the same or the next pose of `c2w`. */
  ghost predicate BlendOfNeighbours(m: Mat, c2w: seq<Mat>)
    requires AllPoses(c2w)
  {
    exists i: nat, j: nat, w: real :: i <= j <= i + 1 && j < |c2w| && 0.0 <= w < 1.0 && m == LerpMat(c2w[i], c2w[j], w)
  }

  /**
   * Every resampled frame lies on the piecewise-linear path through the
   * input poses: it blends two neighbouring poses, moving from the first
   * towards the second, whatever the control values.
   */
  lemma ResampleBlendsNeighbours(c2w: seq<Mat>, target: nat, a: Option<real>, b: Option<real>)
    requires 1 <= |c2w| && AllPoses(c2w)
    ensures forall k :: 0 <= k < target ==> BlendOfNeighbours(ResampleBezier(c2w, target, a, b)[k], c2w)
  {
    var r := ResampleBezier(c2w, target, a, b);
    forall k | 0 <= k < target ensures BlendOfNeighbours(r[k], c2w) {
      var y := SourcePosition(k, target, |c2w|, a, b);
      var i, j, w := y.Floor, Ceil(y), Frac(y);
      assert i <= j <= i + 1 && j < |c2w|;
      assert r[k] == LerpMat(c2w[i], c2w[j], w);
    }
  }

  /** A source position that is a whole number selects that pose exactly. */
  lemma ResampleAtWholePosition(c2w: seq<Mat>, target: nat, a: Option<real>, b: Option<real>, k: nat, i: nat)
    requires 1 <= |c2w| && AllPoses(c2w) && k < target && i < |c2w|
    requires SourcePosition(k, target, |c2w|, a, b) == i as real
    ensures ResampleBezier(c2w, target, a, b)[k] == c2w[i]
  {
    var y := i as real;
    assert y.Floor == i && Ceil(y) == i && Frac(y) == 0.0;
    LerpMatSame(c2w[i], 0.0);
  }

  /** With non-negative control values the curve's x-component is non-negative on [0, 1]. */
  lemma BezierXNonneg(t: real, a: real, b: real)
    requires 0.0 <= t <= 1.0 && 0.0 <= a && 0.0 <= b
    ensures 0.0 <= BezierX(t, a, b)
  {
    var w := Bernstein(t);
    BernsteinNonneg(t);
    assert 0.0 <= w[0] && 0.0 <= w[1] && 0.0 <= w[2] && 0.0 <= w[3];
    BlendNonneg(w[0], w[1], w[2], w[3], 0.0, a, b, 1.0);
  }

  /** So are the sampled x-values. */
  lemma XsNonneg(count: nat, a: Option<real>, b: Option<real>)
    requires 0.0 <= Default(a, 0.5) && 0.0 <= Default(b, 0.5)
    ensures forall k :: 0 <= k < count ==> 0.0 <= Xs(count, a, b)[k]
  {
    var xs := Xs(count, a, b);
    forall k | 0 <= k < count ensures 0.0 <= xs[k] {
      var t := Linspace(k, count);
      assert xs[k] == Curve(t, a, b).0 == BezierX(t, Default(a, 0.5), Default(b, 0.5));
      BezierXNonneg(t, Default(a, 0.5), Default(b, 0.5));
    }
  }

  /**
   * The resampled trajectory starts at the original first pose when the
   * control values are not negative (see `NegativeControlMovesStart` for why
   * the bound is needed).
   */
  lemma ResampleKeepsFirstPose(c2w: seq<Mat>, target: nat, a: Option<real>, b: Option<real>)
    requires 1 <= |c2w| && AllPoses(c2w) && 1 <= target
    requires 0.0 <= Default(a, 0.5) && 0.0 <= Default(b, 0.5)
    ensures ResampleBezier(c2w, target, a, b)[0] == c2w[0]
  {
    var xs, ys := Xs(target, a, b), Ys(target);
    assert xs[0] == 0.0 && ys[0] == 0.0;
    XsNonneg(target, a, b);
    PositionAtStart(xs, ys, |c2w|);
    ResampleAtWholePosition(c2w, target, a, b, 0, 0);
  }

  /**
   * With a negative control value the sampled x-values dip below 0, the
   * bisection for t = 0 passes over the first bracket, and the first output
   * frame is a blend of the first two poses: for a = -1 and three output
   * frames of a two-pose trajectory it sits at position 9/17.
   */
  lemma NegativeControlMovesStart(c2w: seq<Mat>)
    requires |c2w| == 2 && AllPoses(c2w)
    ensures SourcePosition(0, 3, 2, Some(-1.0), None) == 9.0 / 17.0
    ensures ResampleBezier(c2w, 3, Some(-1.0), None)[0] == LerpMat(c2w[0], c2w[1], 9.0 / 17.0)
  {
    var xs, ys := Xs(3, Some(-1.0), None), Ys(3);
    assert Linspace(1, 3) == 0.5;
    assert Bernstein(0.5) == [0.125, 0.375, 0.375, 0.125];
    assert xs[1] == -1.0 / 16.0;
    assert ys[1] == 0.5;
    assert xs[2] == 1.0 && ys[2] == 1.0;
    assert LowerBound(xs, 0.0, 0, 3) == 2 by {
      assert LowerBound(xs, 0.0, 0, 3) == LowerBound(xs, 0.0, 2, 3);
      assert LowerBound(xs, 0.0, 2, 3) == LowerBound(xs, 0.0, 2, 2);
    }
    var width := xs[2] - xs[1];
    assert width == 17.0 / 16.0;
    assert (0.0 - xs[1]) / width == 1.0 / 17.0;
    assert Lerp(ys[1], ys[2], 1.0 / 17.0) == 9.0 / 17.0;
    var y := 9.0 / 17.0;
    assert y.Floor == 0 && Ceil(y) == 1 && Frac(y) == y;
  }

  /** (1 / m)³ is at least 1e-9 when m is at most 1000. */
  lemma CubeGap(m: nat)
    requires 1 <= m <= 1000
    ensures Eps <= (1.0 / m as real) * (1.0 / m as real) * (1.0 / m as real)
  {
    var r := m as real;
    assert r * r <= 1000.0 * r;
    assert r * r * r <= 1000.0 * r * r <= 1000000000.0;
    var inv := 1.0 / r;
    assert inv * inv * inv == 1.0 / (r * r * r);
  }

  /** Before its end the curve's x-component stays below 1, when the control values are at most 1. */
  lemma BezierXBelowOne(t: real, a: real, b: real)
    requires 0.0 <= t < 1.0 && a <= 1.0 && b <= 1.0
    ensures BezierX(t, a, b) < 1.0
  {
    var u := 1.0 - t;
    BezierXGap(t, a, b, u);
    MulNonneg(u, u);
    assert 0.0 < u * u && 0.0 < (u * u) * u;
  }

  /** Every sampled x-value before the last is below 1, when the control values are at most 1. */
  lemma XsBelowOne(target: nat, a: Option<real>, b: Option<real>)
    requires 2 <= target && Default(a, 0.5) <= 1.0 && Default(b, 0.5) <= 1.0
    ensures forall j :: 0 <= j < target - 1 ==> Xs(target, a, b)[j] < 1.0
  {
    var xs := Xs(target, a, b);
    forall j | 0 <= j < target - 1 ensures xs[j] < 1.0 {
      var t := Linspace(j, target);
      assert t < 1.0 by {
        var d := (target - 1) as real;
        assert j as real < d;
        assert t == j as real / d;
      }
      BezierXBelowOne(t, Default(a, 0.5), Default(b, 0.5));
    }
  }

  /** The last two samples of `linspace` are 1 / (count - 1) apart. */
  lemma LinspacePenultimate(count: nat)
    requires 2 <= count
    ensures 1.0 - Linspace(count - 2, count) == 1.0 / (count - 1) as real
  {
    var m := (count - 1) as real;
    assert (count - 2) as real == m - 1.0;
    assert (m - 1.0) / m == 1.0 - 1.0 / m;
  }

  /** The last bracket is at least 1e-9 wide when there are at most 1001 samples. */
  lemma LastBracketWide(target: nat, a: Option<real>, b: Option<real>)
    requires 2 <= target <= 1001 && Default(a, 0.5) <= 1.0 && Default(b, 0.5) <= 1.0
    ensures Eps <= 1.0 - Xs(target, a, b)[target - 2]
  {
    var m := target - 1;
    var t := Linspace(target - 2, target);
    var ca, cb := Default(a, 0.5), Default(b, 0.5);
    var x := BezierX(t, ca, cb);
    assert Xs(target, a, b)[target - 2] == Curve(t, a, b).0 == x;
    LinspacePenultimate(target);
    var inv := 1.0 / m as real;
    assert 1.0 - t == inv;
    var cube := inv * inv * inv;
    assert cube <= 1.0 - x by { BezierXGap(t, ca, cb, inv); }
    assert Eps <= cube by { CubeGap(m); }
  }

  /**
   * The resampled trajectory ends at the original last pose when the control
   * values are at most 1 and there are at most 1001 output frames; past that
   * the 1e-9 floor on the bracket width can keep the last weight below 1.
   */
  lemma ResampleKeepsLastPose(c2w: seq<Mat>, target: nat, a: Option<real>, b: Option<real>)
    requires 1 <= |c2w| && AllPoses(c2w) && 2 <= target <= 1001
    requires Default(a, 0.5) <= 1.0 && Default(b, 0.5) <= 1.0
    ensures ResampleBezier(c2w, target, a, b)[target - 1] == c2w[|c2w| - 1]
  {
    var xs, ys := Xs(target, a, b), Ys(target);
    assert xs[target - 1] == 1.0 && ys[target - 1] == 1.0;
    XsBelowOne(target, a, b);
    LastBracketWide(target, a, b);
    PositionAtEnd(xs, ys, |c2w|);
    ResampleAtWholePosition(c2w, target, a, b, target - 1, |c2w| - 1);
  }
}
