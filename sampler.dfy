/**
 * The clip sampler of the RealEstate10K dataset (`RealEstate10K.__getitem__`):
 * choose a frame stride that fits the clip, pick evenly strided frames,
 * read their camera poses and intrinsics, rescale the intrinsics to the
 * resized and centre-cropped frames, and report the clip's fps and stride.
 *
 * Reading the metadata, the pose file and the video is I/O: the pose-file
 * rows, the video's average fps and its decoded frame size are inputs, and
 * `random.randint` is a drawn value passed in with its range.
 */
module Sampler {
  import opened Runtime
  import opened Pose
  import opened Spatial

  /**
   * `frame_stride`: one int, a `[min, max]` list, another value that has a
   * length (a list of another length), or a value without one (a float,
   * `None`), on which the diagnostic `len(self.frame_stride)` raises
   * `TypeError` before `NotImplementedError` is reached.
   */
  datatype StrideConfig = IntStride(n: int) | RangeStride(lo: int, hi: int) | SizedStride | UnsizedStride

  /** `required_frame_num`: the frames a clip of `videoLength` frames spans at `stride`. */
  function Required(stride: int, videoLength: nat): int
  {
    stride * (videoLength - 1) + 1
  }

  /** A stride of at least 1 spans at least `videoLength` frames, and a larger stride spans more. */
  lemma RequiredGrows(a: int, b: int, videoLength: nat)
    requires 1 <= a <= b && 1 <= videoLength
    ensures videoLength <= Required(a, videoLength) <= Required(b, videoLength)
  {
    MulNonnegInt(a - 1, videoLength - 1);
    MulNonnegInt(b - a, videoLength - 1);
  }

  /** `max(self.frame_stride - frame_stride_drop, 1)`. */
  function Candidate(n: int, drop: nat): (s: int)
    ensures 1 <= s
  {
    Max(n - drop, 1)
  }

  /** The fallback `frame_num // video_length`, with the frames it spans. */
  function Fallback(frameNum: nat, videoLength: nat): (r: Result<(int, int)>)
    ensures videoLength == 0 <==> r == Err(ZeroDivisionError)
    ensures r.Ok? ==> r.value.1 == Required(r.value.0, videoLength)
  {
    if videoLength == 0 then Err(ZeroDivisionError)
    else
      var s := FloorDiv(frameNum, videoLength);
      Ok((s, Required(s, videoLength)))
  }

  /** The fallback stride is 0 exactly when the clip has fewer frames than the video, and its span always fits a non-empty clip. */
  lemma FallbackFits(frameNum: nat, videoLength: nat)
    requires 1 <= videoLength
    ensures var (s, req) := Fallback(frameNum, videoLength).value;
            0 <= s && (s == 0 <==> frameNum < videoLength) && (1 <= frameNum ==> req <= frameNum)
  {
    var s := FloorDiv(frameNum, videoLength);
    assert s * videoLength <= frameNum;
    MulNonnegInt(s, videoLength - 1);
    assert s * (videoLength - 1) + s == s * videoLength;
    if 1 <= s {
      assert frameNum >= videoLength by {
        assert s * videoLength >= 1 * videoLength;
      }
    }
  }

  /**
   * The retry loop with an int stride, as written, from `drop` on: retry with
   * a smaller stride while the clip has fewer than half the frames the
   * stride needs, otherwise fall back to `frame_num // video_length` if it
   * does not fit. It only ends when `2 * frame_num >= video_length` (see
   * `StrideRetryNeverExits`).
   */
  function IntStrideFrom(n: int, drop: nat, frameNum: nat, videoLength: nat): Result<(int, int)>
    requires videoLength <= 2 * frameNum
    decreases Max(n - drop, 0)
  {
    var s := Candidate(n, drop);
    var req := Required(s, videoLength);
    if frameNum < req then
      if 2 * frameNum < req then IntStrideFrom(n, drop + 1, frameNum, videoLength)
      else Fallback(frameNum, videoLength)
    else Ok((s, req))
  }

  /** The stride selection of `__getitem__` as written, for a loop that ends. */
  function StrideOutcome(config: StrideConfig, frameNum: nat, videoLength: nat, draw: int): Result<(int, int)>
    requires config.IntStride? ==> videoLength <= 2 * frameNum
  {
    match config
    case IntStride(n) => IntStrideFrom(n, 0, frameNum, videoLength)
    case RangeStride(lo, hi) =>
      if lo > hi then Err(AssertionError)
      else
        var req := Required(draw, videoLength);
        if frameNum < req then Fallback(frameNum, videoLength) else Ok((draw, req))
    case SizedStride => Err(NotImplementedError)
    case UnsizedStride => Err(TypeError)
  }

  /**
   * The stride loop of `__getitem__` as written. It needs
   * `2 * frame_num >= video_length` for an int stride, as otherwise it never
   * leaves the loop.
   */
  method SelectStrideAsWritten(config: StrideConfig, frameNum: nat, videoLength: nat, draw: int) returns (r: Result<(int, int)>)
    requires config.IntStride? ==> videoLength <= 2 * frameNum
    ensures r == StrideOutcome(config, frameNum, videoLength, draw)
  {
    var drop: nat := 0;
    while true
      invariant config.IntStride? ==> IntStrideFrom(config.n, drop, frameNum, videoLength) == IntStrideFrom(config.n, 0, frameNum, videoLength)
      decreases if config.IntStride? then Max(config.n - drop, 0) else 0
    {
      var stride: int;
      if config.IntStride? {
        stride := Max(config.n - drop, 1);
      } else if config.RangeStride? {
        if config.lo > config.hi {
          return Err(AssertionError);
        }
        stride := draw;
      } else if config.UnsizedStride? {
        return Err(TypeError);
      } else {
        return Err(NotImplementedError);
      }
      var required := Required(stride, videoLength);
      if frameNum < required {
        if config.IntStride? && 2 * frameNum < required {
          drop := drop + 1;
          continue;
        }
        if videoLength == 0 {
          return Err(ZeroDivisionError);
        }
        stride := FloorDiv(frameNum, videoLength);
        required := Required(stride, videoLength);
      }
      return Ok((stride, required));
    }
  }

  /**
   * With an int stride and a clip of fewer than half the video's frames,
   * every pass of the loop retries: the stride drops to 1 and stays there,
   * and 1 still needs `video_length` frames, more than twice the clip.
   */
  lemma StrideRetryNeverExits(n: int, frameNum: nat, videoLength: nat)
    requires 2 * frameNum < videoLength
    ensures forall drop: nat :: frameNum < Required(Candidate(n, drop), videoLength)
    ensures forall drop: nat :: 2 * frameNum < Required(Candidate(n, drop), videoLength)
  {
    forall drop: nat ensures videoLength <= Required(Candidate(n, drop), videoLength) {
      RequiredGrows(1, Candidate(n, drop), videoLength);
    }
  }

  /**
   * With an int stride, the loop as written ends with stride 0 exactly when
   * the clip has fewer frames than the video: the fallback
   * `frame_num // video_length` is then 0, and `fps_ori // 0` fails.
   */
  lemma {:induction false} IntStrideZeroIffShort(n: int, drop: nat, frameNum: nat, videoLength: nat)
    requires 1 <= videoLength <= 2 * frameNum
    ensures IntStrideFrom(n, drop, frameNum, videoLength).Ok?
    ensures var (s, req) := IntStrideFrom(n, drop, frameNum, videoLength).value;
            0 <= s && (s == 0 <==> frameNum < videoLength) && req <= frameNum
    decreases Max(n - drop, 0)
  {
    var s := Candidate(n, drop);
    var req := Required(s, videoLength);
    RequiredGrows(1, s, videoLength);
    if frameNum < req {
      if 2 * frameNum < req {
        IntStrideZeroIffShort(n, drop + 1, frameNum, videoLength);
      } else {
        FallbackFits(frameNum, videoLength);
      }
    }
  }

  /** A short clip: stride 1, 10 frames and a 16-frame video end with stride 0. */
  lemma ZeroStrideExample()
    ensures StrideOutcome(IntStride(1), 10, 16, 0) == Ok((0, 1))
  {
    assert Candidate(1, 0) == 1;
    assert Required(1, 16) == 16;
    assert FloorDiv(10, 16) == 0;
  }

  /**
   * The retry loop with the two defects removed: it stops retrying once the
   * stride is 1, and a clip with fewer frames than the video is rejected
   * instead of getting stride 0.
   */
  function IntStrideCheckedFrom(n: int, drop: nat, frameNum: nat, videoLength: nat): Result<(int, int)>
    decreases Max(n - drop, 0)
  {
    var s := Candidate(n, drop);
    var req := Required(s, videoLength);
    if frameNum < req then
      if 2 * frameNum < req && 1 < s then IntStrideCheckedFrom(n, drop + 1, frameNum, videoLength)
      else if frameNum < videoLength then Err(ValueError)
      else Fallback(frameNum, videoLength)
    else Ok((s, req))
  }

  /** The stride selection with the two defects removed. */
  function StrideOutcomeChecked(config: StrideConfig, frameNum: nat, videoLength: nat, draw: int): Result<(int, int)>
  {
    match config
    case IntStride(n) => IntStrideCheckedFrom(n, 0, frameNum, videoLength)
    case RangeStride(lo, hi) =>
      if lo > hi then Err(AssertionError)
      else
        var req := Required(draw, videoLength);
        if frameNum < req then
          if frameNum < videoLength then Err(ValueError) else Fallback(frameNum, videoLength)
        else Ok((draw, req))
    case SizedStride => Err(NotImplementedError)
    case UnsizedStride => Err(TypeError)
  }

  /**
   * The corrected int-stride loop always ends, accepts a clip exactly when it
   * has at least `video_length` frames, and then yields a stride of at least
   * 1 whose span fits the clip.
   */
  lemma {:induction false} IntStrideCheckedFits(n: int, drop: nat, frameNum: nat, videoLength: nat)
    requires 1 <= videoLength
    ensures IntStrideCheckedFrom(n, drop, frameNum, videoLength).Ok? <==> videoLength <= frameNum
    ensures IntStrideCheckedFrom(n, drop, frameNum, videoLength).Ok? ==>
              var (s, req) := IntStrideCheckedFrom(n, drop, frameNum, videoLength).value;
              1 <= s && req == Required(s, videoLength) && req <= frameNum
    decreases Max(n - drop, 0)
  {
    var s := Candidate(n, drop);
    var req := Required(s, videoLength);
    RequiredGrows(1, s, videoLength);
    if frameNum < req {
      if 2 * frameNum < req && 1 < s {
        IntStrideCheckedFits(n, drop + 1, frameNum, videoLength);
      } else {
        FallbackFits(frameNum, videoLength);
      }
    }
  }

  /**
   * The corrected selection: whenever it succeeds with an int stride or a
   * range starting at 1 or more, the stride is at least 1 and its span fits
   * the clip; and it succeeds exactly when the clip is long enough and the
   * configuration is well formed.
   */
  lemma StrideCheckedFits(config: StrideConfig, frameNum: nat, videoLength: nat, draw: int)
    requires 1 <= videoLength
    requires config.RangeStride? && config.lo <= config.hi ==> config.lo <= draw <= config.hi
    ensures var r := StrideOutcomeChecked(config, frameNum, videoLength, draw);
            r.Ok? ==> r.value.1 == Required(r.value.0, videoLength) && r.value.1 <= frameNum
    ensures var r := StrideOutcomeChecked(config, frameNum, videoLength, draw);
            config.IntStride? ==> (r.Ok? <==> videoLength <= frameNum) && (r.Ok? ==> 1 <= r.value.0)
    ensures var r := StrideOutcomeChecked(config, frameNum, videoLength, draw);
            config.RangeStride? && 1 <= config.lo ==>
              (r.Ok? <==> config.lo <= config.hi && videoLength <= frameNum) && (r.Ok? ==> 1 <= r.value.0)
    ensures config.SizedStride? ==> StrideOutcomeChecked(config, frameNum, videoLength, draw) == Err(NotImplementedError)
    ensures config.UnsizedStride? ==> StrideOutcomeChecked(config, frameNum, videoLength, draw) == Err(TypeError)
  {
    match config
    case IntStride(n) => IntStrideCheckedFits(n, 0, frameNum, videoLength);
    case RangeStride(lo, hi) =>
      if lo <= hi {
        FallbackFits(frameNum, videoLength);
        if 1 <= lo {
          RequiredGrows(1, draw, videoLength);
        }
      }
    case SizedStride =>
    case UnsizedStride =>
  }

  /** On a clip with at least `video_length` frames the correction changes nothing. */
  lemma {:induction false} CheckedAgreesOnLongClips(n: int, drop: nat, frameNum: nat, videoLength: nat)
    requires 1 <= videoLength <= frameNum
    ensures IntStrideCheckedFrom(n, drop, frameNum, videoLength) == IntStrideFrom(n, drop, frameNum, videoLength)
    decreases Max(n - drop, 0)
  {
    var s := Candidate(n, drop);
    RequiredGrows(1, s, videoLength);
    if frameNum < Required(s, videoLength) && 2 * frameNum < Required(s, videoLength) {
      CheckedAgreesOnLongClips(n, drop + 1, frameNum, videoLength);
    }
  }

  /** The stride loop with the two defects removed; `__getitem__` below uses it. */
  method SelectStride(config: StrideConfig, frameNum: nat, videoLength: nat, draw: int) returns (r: Result<(int, int)>)
    ensures r == StrideOutcomeChecked(config, frameNum, videoLength, draw)
  {
    var drop: nat := 0;
    while true
      invariant config.IntStride? ==> IntStrideCheckedFrom(config.n, drop, frameNum, videoLength) == IntStrideCheckedFrom(config.n, 0, frameNum, videoLength)
      decreases if config.IntStride? then Max(config.n - drop, 0) else 0
    {
      var stride: int;
      if config.IntStride? {
        stride := Max(config.n - drop, 1);
      } else if config.RangeStride? {
        if config.lo > config.hi {
          return Err(AssertionError);
        }
        stride := draw;
      } else if config.UnsizedStride? {
        return Err(TypeError);
      } else {
        return Err(NotImplementedError);
      }
      var required := Required(stride, videoLength);
      if frameNum < required {
        if config.IntStride? && 2 * frameNum < required && 1 < stride {
          drop := drop + 1;
          continue;
        }
        if frameNum < videoLength {
          return Err(ValueError);
        }
        if videoLength == 0 {
          return Err(ZeroDivisionError);
        }
        stride := FloorDiv(frameNum, videoLength);
        required := Required(stride, videoLength);
      }
      return Ok((stride, required));
    }
  }

  /** `random.randint(0, random_range) if random_range > 0 else 0`, with the drawn value `pick(random_range)`. */
  function StartIndex(frameNum: nat, required: int, pick: int -> int): (start: int)
    requires forall m :: 0 < m ==> 0 <= pick(m) <= m
    ensures 0 <= start && (required <= frameNum ==> start <= frameNum - required)
  {
    if frameNum - required > 0 then pick(frameNum - required) else 0
  }

  /** `[start_idx + frame_stride * i for i in range(video_length)]`. */
  function FrameIndices(start: int, stride: int, videoLength: nat): (idx: seq<int>)
    ensures |idx| == videoLength
  {
    seq(videoLength, i => start + stride * i)
  }

  /**
   * The picked frames all lie in the clip and, with a stride of at least 1,
   * are strictly increasing, so they are distinct.
   */
  lemma FrameIndicesInClip(start: int, stride: int, videoLength: nat, frameNum: nat)
    requires 1 <= videoLength && 0 <= stride && 0 <= start
    requires start + Required(stride, videoLength) <= frameNum
    ensures forall i :: 0 <= i < videoLength ==> 0 <= FrameIndices(start, stride, videoLength)[i] < frameNum
    ensures 1 <= stride ==> forall i, j :: 0 <= i < j < videoLength ==>
              FrameIndices(start, stride, videoLength)[i] < FrameIndices(start, stride, videoLength)[j]
  {
    var idx := FrameIndices(start, stride, videoLength);
    forall i | 0 <= i < videoLength ensures 0 <= idx[i] < frameNum {
      MulNonnegInt(stride, i);
      MulNonnegInt(stride, videoLength - 1 - i);
      assert stride * (videoLength - 1) == stride * i + stride * (videoLength - 1 - i);
    }
    if 1 <= stride {
      forall i, j | 0 <= i < j < videoLength ensures idx[i] < idx[j] {
        MulNonnegInt(stride - 1, j - i);
        assert stride * j - stride * i == stride * (j - i);
      }
    }
  }

  /** `fps_ori // frame_stride` on a float fps: floor division, failing on stride 0. */
  function ClipFps(fpsOri: real, stride: int): (r: Result<real>)
    ensures stride == 0 <==> r == Err(ZeroDivisionError)
    ensures stride != 0 ==> r.Ok?
  {
    if stride == 0 then Err(ZeroDivisionError) else Ok((fpsOri / stride as real).Floor as real)
  }

  /** With stride at least 1, the clip's fps is the original fps divided by the stride, rounded down. */
  lemma ClipFpsBounds(fpsOri: real, stride: int)
    requires 1 <= stride && 0.0 <= fpsOri
    ensures var fps := ClipFps(fpsOri, stride).value;
            fps * stride as real <= fpsOri && fpsOri < (fps + 1.0) * stride as real && 0.0 <= fps
  {
    var d := stride as real;
    var q := fpsOri / d;
    var f := q.Floor as real;
    assert f <= q < f + 1.0;
    assert q * d == fpsOri;
    assert 0.0 <= q;
    var g := f + 1.0;
    MulMonoReal(f, q, d);
    MulStrictMonoReal(q, g, d);
    assert q * d < g * d;
    assert fpsOri < g * d;
    assert ClipFps(fpsOri, stride).value == f;
  }

  lemma MulMonoReal(a: real, b: real, c: real)
    requires a <= b && 0.0 <= c
    ensures a * c <= b * c
  {
    assert b * c - a * c == (b - a) * c;
  }

  lemma MulStrictMonoReal(a: real, b: real, c: real)
    requires a < b && 0.0 < c
    ensures a * c < b * c
  {
    assert b * c - a * c == (b - a) * c;
  }

  /** The reported `frame_stride`: the stride used, unless a conditioning stride is configured. */
  function ReportedStride(stride: int, strideForCondition: int): (r: int)
    ensures strideForCondition == 0 ==> r == stride
    ensures strideForCondition != 0 ==> r == strideForCondition
  {
    if strideForCondition == 0 then stride else strideForCondition
  }

  /** `(x / 255 - 0.5) * 2`: a pixel value in [0, 255] mapped to [-1, 1]. */
  function NormalizePixel(x: real): real
  {
    (x / 255.0 - 0.5) * 2.0
  }

  /** The inverse map, from [-1, 1] back to [0, 255]. */
  function DenormalizePixel(y: real): real
  {
    (y / 2.0 + 0.5) * 255.0
  }

  /** The normalisation maps [0, 255] onto [-1, 1], keeps order, and is undone by its inverse. */
  lemma NormalizePixelRange(x: real, z: real)
    ensures 0.0 <= x <= 255.0 ==> -1.0 <= NormalizePixel(x) <= 1.0
    ensures NormalizePixel(0.0) == -1.0 && NormalizePixel(255.0) == 1.0
    ensures x <= z ==> NormalizePixel(x) <= NormalizePixel(z)
    ensures DenormalizePixel(NormalizePixel(x)) == x && NormalizePixel(DenormalizePixel(x)) == x
  {
  }

  /** The factor that maps the original frame onto the resized one: `H / ori_H` if `H <= W`, else `W / ori_W`. */
  function IntrinsicsScale(height: int, width: int, oriHeight: nat, oriWidth: nat): real
    requires 1 <= oriHeight && 1 <= oriWidth
  {
    if height <= width then height as real / oriHeight as real else width as real / oriWidth as real
  }

  /**
   * `Resize(min(h, w))` scales the shorter edge of the original frame to the
   * shorter side of the target. When target and original have the same
   * orientation, the intrinsics factor is exactly that resize factor.
   */
  lemma IntrinsicsScaleIsResizeFactor(height: int, width: int, oriHeight: nat, oriWidth: nat)
    requires 1 <= oriHeight && 1 <= oriWidth
    requires (height <= width) == (oriHeight <= oriWidth)
    ensures IntrinsicsScale(height, width, oriHeight, oriWidth) == Runtime.Min(height, width) as real / Runtime.Min(oriHeight, oriWidth) as real
  {
  }

  /** Normalised intrinsics of one frame: focal lengths and principal point as fractions of the frame size. */
  datatype Intrinsics = Intrinsics(fx: real, fy: real, cx: real, cy: real)

  /** `torch.hstack([fx, 0, cx, 0, fy, cy, 0, 0, 1]).reshape(3, 3)`. */
  function IntrinsicsMatrix(k: Intrinsics): (m: Mat)
    ensures IsMat(m, 3, 3)
    ensures m[0] == [k.fx, 0.0, k.cx] && m[1] == [0.0, k.fy, k.cy] && m[2] == [0.0, 0.0, 1.0]
  {
    Unflatten3x3([k.fx, 0.0, k.cx, 0.0, k.fy, k.cy, 0.0, 0.0, 1.0])
  }

  function Unflatten3x3(v: seq<real>): (m: Mat)
    requires |v| == 9
    ensures IsMat(m, 3, 3) && m == [v[0..3], v[3..6], v[6..9]]
  {
    [v[0..3], v[3..6], v[6..9]]
  }

  lemma Dot3(u: seq<real>, v: seq<real>)
    requires |u| == |v| == 3
    ensures Dot(u, v) == u[0] * v[0] + u[1] * v[1] + u[2] * v[2]
  {
    assert u[..2][..1] == u[..1] && v[..2][..1] == v[..1];
    assert Dot(u[..1], v[..1]) == u[0] * v[0] by {
      assert u[..1][..0] == [];
    }
  }

  /** K projects a camera-space direction (x, y, 1) to the pixel (fx·x + cx, fy·y + cy, 1). */
  lemma IntrinsicsProject(k: Intrinsics, x: real, y: real)
    ensures MatVec(IntrinsicsMatrix(k), [x, y, 1.0]) == [k.fx * x + k.cx, k.fy * y + k.cy, 1.0]
  {
    var m := IntrinsicsMatrix(k);
    var v := [x, y, 1.0];
    Dot3(m[0], v);
    Dot3(m[1], v);
    Dot3(m[2], v);
    var r := MatVec(m, v);
    assert r[0] == k.fx * x + k.cx && r[1] == k.fy * y + k.cy && r[2] == 1.0;
  }

  /** `fx *= ori_W * scale; fy *= ori_H * scale; cx *= W; cy *= H` on one frame. */
  function Rescaled(k: Intrinsics, height: int, width: int, oriHeight: nat, oriWidth: nat): (r: Intrinsics)
    requires 1 <= oriHeight && 1 <= oriWidth
  {
    var scale := IntrinsicsScale(height, width, oriHeight, oriWidth);
    Intrinsics(k.fx * (oriWidth as real * scale), k.fy * (oriHeight as real * scale), k.cx * width as real, k.cy * height as real)
  }

  /**
   * After rescaling, K is in pixels of the resized frame: the focal lengths
   * are the normalised ones times the resized frame's width and height.
   * For a frame of the same orientation as the target, the edge that the
   * resize matched is scaled to exactly the target's edge.
   */
  lemma RescaledInPixels(k: Intrinsics, height: int, width: int, oriHeight: nat, oriWidth: nat)
    requires 1 <= oriHeight && 1 <= oriWidth
    requires (height <= width) == (oriHeight <= oriWidth)
    ensures var s := Runtime.Min(height, width) as real / Runtime.Min(oriHeight, oriWidth) as real;
            var r := Rescaled(k, height, width, oriHeight, oriWidth);
            r.fx == k.fx * (oriWidth as real * s) && r.fy == k.fy * (oriHeight as real * s)
    ensures height <= width ==> oriHeight as real * IntrinsicsScale(height, width, oriHeight, oriWidth) == height as real
    ensures width < height ==> oriWidth as real * IntrinsicsScale(height, width, oriHeight, oriWidth) == width as real
  {
    IntrinsicsScaleIsResizeFactor(height, width, oriHeight, oriWidth);
  }

  /**
   * The intrinsics step as written: `ori_H` and `ori_W` are never assigned,
   * so with the `resize_center_crop` transform the first of them read raises
   * `NameError`.
   */
  function RescaleIntrinsicsAsWritten(ks: seq<Intrinsics>, transform: Option<string>, height: int, width: int): (r: Result<seq<Intrinsics>>)
    ensures transform == Some("resize_center_crop") <==> r.Err?
    ensures r.Err? ==> r.error == NameError(if height <= width then "ori_H" else "ori_W")
    ensures r.Ok? ==> r.value == ks
  {
    if transform == Some("resize_center_crop") then Err(NameError(if height <= width then "ori_H" else "ori_W"))
    else Ok(ks)
  }

  /** The intrinsics step with `ori_H`, `ori_W` taken as the decoded frame size, which it evidently means. */
  function RescaleIntrinsics(ks: seq<Intrinsics>, transform: Option<string>, height: int, width: int, oriHeight: nat, oriWidth: nat): (r: seq<Intrinsics>)
    requires 1 <= oriHeight && 1 <= oriWidth
    ensures |r| == |ks|
    ensures transform == Some("resize_center_crop") ==> forall i :: 0 <= i < |ks| ==> r[i] == Rescaled(ks[i], height, width, oriHeight, oriWidth)
    ensures transform != Some("resize_center_crop") ==> r == ks
  {
    if transform == Some("resize_center_crop") then seq(|ks|, i requires 0 <= i < |ks| => Rescaled(ks[i], height, width, oriHeight, oriWidth))
    else ks
  }

  /** `x *= c` on a tensor of one value per frame. */
  method ScaleInPlace(a: array<real>, c: real)
    modifies a
    ensures forall i :: 0 <= i < a.Length ==> a[i] == old(a[i]) * c
  {
    for i := 0 to a.Length
      invariant forall j :: 0 <= j < i ==> a[j] == old(a[j]) * c
      invariant forall j :: i <= j < a.Length ==> a[j] == old(a[j])
    {
      a[i] := a[i] * c;
    }
  }

  method ArrayOf(s: seq<real>) returns (a: array<real>)
    ensures fresh(a) && a[..] == s
  {
    a := new real[|s|](i => if 0 <= i < |s| then s[i] else 0.0);
  }

  /**
   * The intrinsics step on per-frame tensors: `fx`, `fy`, `cx`, `cy` are
   * multiplied in place when the transform is `resize_center_crop`.
   */
  method RescaleIntrinsicsInPlace(ks: seq<Intrinsics>, transform: Option<string>, height: int, width: int, oriHeight: nat, oriWidth: nat)
    returns (rescaled: seq<Intrinsics>)
    requires 1 <= oriHeight && 1 <= oriWidth
    ensures rescaled == RescaleIntrinsics(ks, transform, height, width, oriHeight, oriWidth)
  {
    var apply := transform == Some("resize_center_crop");
    var scale := IntrinsicsScale(height, width, oriHeight, oriWidth);
    var fx := ScaledColumn(seq(|ks|, i requires 0 <= i < |ks| => ks[i].fx), apply, oriWidth as real * scale);
    var fy := ScaledColumn(seq(|ks|, i requires 0 <= i < |ks| => ks[i].fy), apply, oriHeight as real * scale);
    var cx := ScaledColumn(seq(|ks|, i requires 0 <= i < |ks| => ks[i].cx), apply, width as real);
    var cy := ScaledColumn(seq(|ks|, i requires 0 <= i < |ks| => ks[i].cy), apply, height as real);
    rescaled := seq(|ks|, i requires 0 <= i < |ks| => Intrinsics(fx[i], fy[i], cx[i], cy[i]));
    ghost var expected := RescaleIntrinsics(ks, transform, height, width, oriHeight, oriWidth);
    forall i | 0 <= i < |ks| ensures rescaled[i] == expected[i] {
      if apply {
        assert expected[i] == Rescaled(ks[i], height, width, oriHeight, oriWidth);
      } else {
        assert expected[i] == ks[i];
      }
    }
  }

  /** One per-frame tensor, multiplied in place by `c` when `apply` holds. */
  method ScaledColumn(v: seq<real>, apply: bool, c: real) returns (r: seq<real>)
    ensures |r| == |v|
    ensures forall i :: 0 <= i < |v| ==> r[i] == if apply then v[i] * c else v[i]
  {
    var a := ArrayOf(v);
    if apply {
      ScaleInPlace(a, c);
    }
    r := a[..];
  }

  /** The construction arguments of a `RealEstate10K` with one target resolution. */
  datatype DatasetConfig = DatasetConfig(
    metadataCount: nat,
    videoLength: nat,
    height: int,
    width: int,
    frameStride: StrideConfig,
    strideForCondition: int,
    transform: Option<string>,
    countGlobalsteps: bool,
    bsPerGpu: Option<int>)

  /** What `__getitem__` reads for one sample: the pose-file rows after the header, the video's fps and its decoded frame size. */
  datatype Clip = Clip(rows: seq<seq<real>>, fpsOri: real, oriHeight: nat, oriWidth: nat)

  predicate WellFormedClip(clip: Clip)
  {
    (forall k :: 0 <= k < |clip.rows| ==> |clip.rows[k]| == RowWidth) && 1 <= clip.oriHeight && 1 <= clip.oriWidth
  }

  /** The returned sample: fps, reported stride, the frames used, their poses and their intrinsics matrices. */
  datatype Sample = Sample(
    sampleIndex: nat,
    fps: real,
    frameStride: int,
    frameIndices: seq<int>,
    poses: seq<Mat>,
    intrinsics: seq<Mat>)

  /** Intrinsics of the pose-file row: its columns 1 to 4. */
  function RowIntrinsics(row: seq<real>): Intrinsics
    requires |row| == RowWidth
  {
    Intrinsics(row[1], row[2], row[3], row[4])
  }

  /**
   * The frame size after the spatial transform: the decoded size when no
   * transform is configured, otherwise the configured transform's result or
   * its error. The resize and centre crop always reach the target; the random
   * crop reaches it iff the decoded frame is at least that large.
   */
  function FrameSize(cfg: DatasetConfig, clip: Clip): (r: Result<(int, int)>)
    requires WellFormedClip(clip)
    ensures cfg.transform.None? ==> r == Ok((clip.oriHeight, clip.oriWidth))
    ensures cfg.transform.Some? && cfg.transform.value != "random_crop" && cfg.transform.value != "resize_center_crop" ==>
              r == Err(NotImplementedError)
    ensures cfg.transform == Some("resize_center_crop") && 1 <= cfg.height && 1 <= cfg.width ==>
              r == Ok((cfg.height, cfg.width))
    ensures cfg.transform == Some("random_crop") && 1 <= cfg.height && 1 <= cfg.width ==>
              r == if cfg.height <= clip.oriHeight && cfg.width <= clip.oriWidth then Ok((cfg.height, cfg.width)) else Err(ValueError)
  {
    if cfg.transform.None? then Ok((clip.oriHeight, clip.oriWidth))
    else
      match MakeSpatialTransform(cfg.height, cfg.width, cfg.transform.value)
      case Err(e) => Err(e)
      case Ok(ts) =>
        var hw := ApplyAll(ts, clip.oriHeight, clip.oriWidth);
        if 1 <= cfg.height && 1 <= cfg.width then
          SpatialTransformReachesResolution(cfg.height, cfg.width, cfg.transform.value, clip.oriHeight, clip.oriWidth);
          hw
        else hw
  }

  /**
   * One sample of `__getitem__` after the step counter: wrap the index,
   * choose the stride (corrected), pick the frames, read and rescale their
   * camera data, transform the frames and assert they have the configured
   * resolution, and derive fps and the reported stride.
   */
  function SampleClip(cfg: DatasetConfig, index: int, clip: Clip, draw: int, pick: int -> int): (r: Result<Sample>)
    requires WellFormedClip(clip)
    requires forall m :: 0 < m ==> 0 <= pick(m) <= m
    ensures cfg.metadataCount == 0 ==> r == Err(ZeroDivisionError)
    ensures StrideOutcomeChecked(cfg.frameStride, |clip.rows|, cfg.videoLength, draw).Err? ==> r.Err?
    ensures r.Ok? ==> FrameSize(cfg, clip) == Ok((cfg.height, cfg.width))
  {
    if cfg.metadataCount == 0 then Err(ZeroDivisionError)
    else
      match StrideOutcomeChecked(cfg.frameStride, |clip.rows|, cfg.videoLength, draw)
      case Err(e) => Err(e)
      case Ok((stride, required)) =>
        var frameNum := |clip.rows|;
        var start := StartIndex(frameNum, required, pick);
        var idx := FrameIndices(start, stride, cfg.videoLength);
        if exists i :: 0 <= i < |idx| && !(0 <= idx[i] < frameNum) then Err(IndexError)
        else
          var picked := seq(|idx|, i requires 0 <= i < |idx| => clip.rows[idx[i]]);
          var ks := seq(|picked|, i requires 0 <= i < |picked| => RowIntrinsics(picked[i]));
          var rescaled := RescaleIntrinsics(ks, cfg.transform, cfg.height, cfg.width, clip.oriHeight, clip.oriWidth);
          match FrameSize(cfg, clip)
          case Err(e) => Err(e)
          case Ok(hw) =>
            if hw != (cfg.height, cfg.width) then Err(AssertionError)
            else
              match ClipFps(clip.fpsOri, stride)
              case Err(e) => Err(e)
              case Ok(fps) =>
                Ok(Sample(index % cfg.metadataCount, fps, ReportedStride(stride, cfg.strideForCondition), idx,
                          PosesFromRows(picked), seq(|rescaled|, i requires 0 <= i < |rescaled| => IntrinsicsMatrix(rescaled[i]))))
  }

  /**
   * A successful sample wraps the index into the metadata (Python's `%`,
   * never negative for a positive count), uses `video_length` distinct frames
   * of the clip in increasing order, `stride` apart for the chosen stride,
   * and carries one world-to-camera pose and one 3×3 K per frame, both read
   * from that frame's row, K rescaled to the resized frame for
   * `resize_center_crop`; its fps is the original fps floor-divided by the
   * chosen stride, its reported stride the chosen or the conditioning one;
   * and the index step never fails once the stride fits.
   */
  lemma SampleClipProperties(cfg: DatasetConfig, index: int, clip: Clip, draw: int, pick: int -> int)
    requires WellFormedClip(clip) && 1 <= cfg.videoLength
    requires forall m :: 0 < m ==> 0 <= pick(m) <= m
    requires cfg.frameStride.RangeStride? && cfg.frameStride.lo <= cfg.frameStride.hi ==> cfg.frameStride.lo <= draw <= cfg.frameStride.hi
    requires cfg.frameStride.RangeStride? ==> 1 <= cfg.frameStride.lo
    ensures var r := SampleClip(cfg, index, clip, draw, pick);
            r.Ok? ==> 1 <= cfg.metadataCount && r.value.sampleIndex == index % cfg.metadataCount && |r.value.frameIndices| == cfg.videoLength
    ensures var r := SampleClip(cfg, index, clip, draw, pick);
            r.Ok? ==> forall i :: 0 <= i < cfg.videoLength ==> 0 <= r.value.frameIndices[i] < |clip.rows|
    ensures var r := SampleClip(cfg, index, clip, draw, pick);
            r.Ok? ==> forall i, j :: 0 <= i < j < cfg.videoLength ==> r.value.frameIndices[i] < r.value.frameIndices[j]
    ensures var r := SampleClip(cfg, index, clip, draw, pick);
            var so := StrideOutcomeChecked(cfg.frameStride, |clip.rows|, cfg.videoLength, draw);
            r.Ok? ==> so.Ok? && 1 <= so.value.0 &&
                      (forall i :: 0 <= i < cfg.videoLength - 1 ==> r.value.frameIndices[i + 1] == r.value.frameIndices[i] + so.value.0) &&
                      r.value.fps == (clip.fpsOri / so.value.0 as real).Floor as real &&
                      r.value.frameStride == ReportedStride(so.value.0, cfg.strideForCondition)
    ensures var r := SampleClip(cfg, index, clip, draw, pick);
            r.Ok? ==> |r.value.poses| == cfg.videoLength && AllPoses(r.value.poses) &&
                      forall i :: 0 <= i < cfg.videoLength ==> r.value.poses[i] == PosesFromRows([clip.rows[r.value.frameIndices[i]]])[0]
    ensures var r := SampleClip(cfg, index, clip, draw, pick);
            r.Ok? ==> |r.value.intrinsics| == cfg.videoLength &&
                      forall i :: 0 <= i < cfg.videoLength ==>
                        var k := RowIntrinsics(clip.rows[r.value.frameIndices[i]]);
                        r.value.intrinsics[i] ==
                          IntrinsicsMatrix(if cfg.transform == Some("resize_center_crop")
                                           then Rescaled(k, cfg.height, cfg.width, clip.oriHeight, clip.oriWidth) else k)
    ensures var r := SampleClip(cfg, index, clip, draw, pick);
            1 <= cfg.metadataCount && StrideOutcomeChecked(cfg.frameStride, |clip.rows|, cfg.videoLength, draw).Ok? ==>
              (r.Ok? <==> FrameSize(cfg, clip) == Ok((cfg.height, cfg.width)))
    ensures var r := SampleClip(cfg, index, clip, draw, pick);
            (1 <= cfg.metadataCount && StrideOutcomeChecked(cfg.frameStride, |clip.rows|, cfg.videoLength, draw).Ok? &&
             cfg.transform == Some("resize_center_crop") && 1 <= cfg.height && 1 <= cfg.width) ==> r.Ok?
    ensures var r := SampleClip(cfg, index, clip, draw, pick);
            (1 <= cfg.metadataCount && StrideOutcomeChecked(cfg.frameStride, |clip.rows|, cfg.videoLength, draw).Ok? &&
             cfg.transform.None? && (clip.oriHeight, clip.oriWidth) != (cfg.height, cfg.width)) ==> r == Err(AssertionError)
    ensures var r := SampleClip(cfg, index, clip, draw, pick);
            (1 <= cfg.metadataCount && StrideOutcomeChecked(cfg.frameStride, |clip.rows|, cfg.videoLength, draw).Ok? &&
             cfg.transform == Some("random_crop") && 1 <= cfg.height && 1 <= cfg.width &&
             (clip.oriHeight < cfg.height || clip.oriWidth < cfg.width)) ==> r == Err(ValueError)
  {
    var frameNum := |clip.rows|;
    if 1 <= cfg.metadataCount {
      StrideCheckedFits(cfg.frameStride, frameNum, cfg.videoLength, draw);
      var so := StrideOutcomeChecked(cfg.frameStride, frameNum, cfg.videoLength, draw);
      if so.Ok? {
        var (stride, required) := so.value;
        var start := StartIndex(frameNum, required, pick);
        FrameIndicesInClip(start, stride, cfg.videoLength, frameNum);
        var idx := FrameIndices(start, stride, cfg.videoLength);
        forall i | 0 <= i < cfg.videoLength - 1 ensures idx[i + 1] == idx[i] + stride {
          assert stride * (i + 1) == stride * i + stride;
        }
        var picked := seq(|idx|, i requires 0 <= i < |idx| => clip.rows[idx[i]]);
        forall i | 0 <= i < cfg.videoLength ensures PosesFromRows(picked)[i] == PosesFromRows([clip.rows[idx[i]]])[0] {
          var a, b := PosesFromRows(picked)[i], PosesFromRows([clip.rows[idx[i]]])[0];
          forall x, y | 0 <= x < 4 && 0 <= y < 4 ensures a[x][y] == b[x][y] {
            if x == 3 {
              assert a[3] == b[3] == BottomRow;
            }
          }
          MatExt(a, b);
        }
      }
    }
  }

  class RealEstate10K {
    const cfg: DatasetConfig
    /** `self.counter`, counted only with `count_globalsteps`. */
    var counter: int
    /** `self.global_step`: `counter // bs_per_gpu`, or None when steps are not counted. */
    var globalStep: Option<int>

    /** `count_globalsteps` demands a batch size; the configured transform must exist. */
    predicate Valid()
      reads this
    {
      (cfg.countGlobalsteps ==> cfg.bsPerGpu.Some?) &&
      (cfg.transform.Some? ==> MakeSpatialTransform(cfg.height, cfg.width, cfg.transform.value).Ok?)
    }

    constructor (config: DatasetConfig)
      requires config.countGlobalsteps ==> config.bsPerGpu.Some?
      requires config.transform.Some? ==> MakeSpatialTransform(config.height, config.width, config.transform.value).Ok?
      ensures cfg == config && counter == 0 && globalStep == None
      ensures Valid()
    {
      cfg := config;
      counter := 0;
      globalStep := None;
    }

    /**
     * `__getitem__`: advance the step counter, then draw one sample. The
     * per-frame intrinsics are scaled in place, as the source's `*=` does.
     */
    method GetItem(index: int, clip: Clip, draw: int, pick: int -> int) returns (r: Result<Sample>)
      requires Valid() && WellFormedClip(clip)
      requires forall m :: 0 < m ==> 0 <= pick(m) <= m
      modifies this
      ensures Valid()
      ensures cfg.countGlobalsteps ==> counter == old(counter) + 1
      ensures !cfg.countGlobalsteps ==> counter == old(counter) && globalStep == None
      ensures cfg.countGlobalsteps && cfg.bsPerGpu.value == 0 ==> r == Err(ZeroDivisionError) && globalStep == old(globalStep)
      ensures cfg.countGlobalsteps && cfg.bsPerGpu.value != 0 ==> globalStep == Some(FloorDiv(counter, cfg.bsPerGpu.value))
      ensures !(cfg.countGlobalsteps && cfg.bsPerGpu.value == 0) ==> r == SampleClip(cfg, index, clip, draw, pick)
    {
      if cfg.countGlobalsteps {
        counter := counter + 1;
        if cfg.bsPerGpu.value == 0 {
          return Err(ZeroDivisionError);
        }
        globalStep := Some(FloorDiv(counter, cfg.bsPerGpu.value));
      } else {
        globalStep := None;
      }
      if cfg.metadataCount == 0 {
        return Err(ZeroDivisionError);
      }
      var sampleIndex := index % cfg.metadataCount;
      var chosen := SelectStride(cfg.frameStride, |clip.rows|, cfg.videoLength, draw);
      if chosen.Err? {
        return Err(chosen.error);
      }
      var (stride, required) := chosen.value;
      var frameNum := |clip.rows|;
      var start := StartIndex(frameNum, required, pick);
      var idx := FrameIndices(start, stride, cfg.videoLength);
      if exists i :: 0 <= i < |idx| && !(0 <= idx[i] < frameNum) {
        return Err(IndexError);
      }
      var picked := seq(|idx|, i requires 0 <= i < |idx| => clip.rows[idx[i]]);
      var ks := seq(|picked|, i requires 0 <= i < |picked| => RowIntrinsics(picked[i]));
      var rescaled := RescaleIntrinsicsInPlace(ks, cfg.transform, cfg.height, cfg.width, clip.oriHeight, clip.oriWidth);
      var size := FrameSize(cfg, clip);
      if size.Err? {
        return Err(size.error);
      }
      if size.value != (cfg.height, cfg.width) {
        return Err(AssertionError);
      }
      var fps := ClipFps(clip.fpsOri, stride);
      if fps.Err? {
        return Err(fps.error);
      }
      r := Ok(Sample(sampleIndex, fps.value, ReportedStride(stride, cfg.strideForCondition), idx,
                     PosesFromRows(picked), seq(|rescaled|, i requires 0 <= i < |rescaled| => IntrinsicsMatrix(rescaled[i]))));
    }
  }
}
