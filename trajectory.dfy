/**
 * The camera-trajectory policy of the inference script's `get_image`: read
 * the world-to-camera poses of a pose file, invert them, keep a prefix,
 * optionally time-warp it with the Bézier curve, optionally loop it back,
 * interpolate it to the clip length, make it relative to the condition
 * frame and scale its translations.
 *
 * The batched `.inverse()`, `camera_pose_lerp` and `relative_pose` are not
 * part of this model; they are passed in as functions.
 */
module Trajectory {
  import opened Runtime
  import opened Pose
  import opened Bezier

  /** The batched `.inverse()`: the given matrix inverse applied pose by pose. */
  function InverseAll(ps: seq<Mat>, inverse: Mat -> Mat): (r: seq<Mat>)
    requires AllPoses(ps)
    requires forall m :: IsMat(m, 4, 4) ==> IsMat(inverse(m), 4, 4)
    ensures |r| == |ps| && AllPoses(r)
    ensures forall k :: 0 <= k < |ps| ==> r[k] == inverse(ps[k])
  {
    seq(|ps|, k requires 0 <= k < |ps| => inverse(ps[k]))
  }

  /** `max(1, int(T * ratio))` as a slice bound on `T` poses. */
  function PrefixLength(count: nat, ratio: real): (n: nat)
    ensures 1 <= count ==> 1 <= n <= count
    ensures n <= count
  {
    Min(count, Max(1, Trunc(count as real * ratio)))
  }

  /** `c2ws[:max(1, int(T * ratio))]`. */
  function ExtractTrace(c2ws: seq<Mat>, ratio: real): (r: seq<Mat>)
    ensures |r| == PrefixLength(|c2ws|, ratio)
  {
    c2ws[..PrefixLength(|c2ws|, ratio)]
  }

  /**
   * Trace extraction keeps a non-empty prefix of the trajectory, of length
   * `max(1, floor(T * ratio))` while that does not exceed `T`, and the whole
   * trajectory for a ratio of at least 1.
   */
  lemma ExtractTraceIsPrefix(c2ws: seq<Mat>, ratio: real)
    requires 1 <= |c2ws|
    ensures var r := ExtractTrace(c2ws, ratio);
            1 <= |r| <= |c2ws| && r == c2ws[..|r|]
    ensures 0.0 <= ratio ==> |ExtractTrace(c2ws, ratio)| == Min(|c2ws|, Max(1, (|c2ws| as real * ratio).Floor))
    ensures 1.0 <= ratio ==> ExtractTrace(c2ws, ratio) == c2ws
  {
    if 1.0 <= ratio {
      TruncOfStretch(|c2ws|, ratio);
    }
  }

  /** `x.flip(0)`: the same poses in the opposite order. */
  function Reversed<T>(s: seq<T>): (r: seq<T>)
    ensures |r| == |s|
    ensures forall i :: 0 <= i < |s| ==> r[i] == s[|s| - 1 - i]
  {
    seq(|s|, i requires 0 <= i < |s| => s[|s| - 1 - i])
  }

  /** Flipping twice gives the sequence back. */
  lemma ReversedReversed<T>(s: seq<T>)
    ensures Reversed(Reversed(s)) == s
  {
    var r := Reversed(Reversed(s));
    forall i | 0 <= i < |s| ensures r[i] == s[i] {
      assert r[i] == Reversed(s)[|s| - 1 - i];
    }
  }

  /** `torch.cat([c2ws, c2ws.flip(0)], dim=0)`: the trajectory and then its way back. */
  function Looped(c: seq<Mat>): (r: seq<Mat>)
  {
    c + Reversed(c)
  }

  /**
   * Looping doubles the length, keeps the trajectory as the first half, makes
   * the second half the first half backwards, and so returns to where it
   * started: the looped trajectory reads the same in both directions.
   */
  lemma LoopedShape(c: seq<Mat>)
    ensures |Looped(c)| == 2 * |c|
    ensures Looped(c)[..|c|] == c
    ensures Looped(c)[|c|..] == Reversed(c)
    ensures Reversed(Looped(c)) == Looped(c)
    ensures 1 <= |c| ==> Looped(c)[2 * |c| - 1] == c[0]
  {
    var l := Looped(c);
    assert l[..|c|] == c;
    assert l[|c|..] == Reversed(c);
    var r := Reversed(l);
    forall i | 0 <= i < |l| ensures r[i] == l[i] {
      if i < |c| {
        assert r[i] == l[2 * |c| - 1 - i] == Reversed(c)[|c| - 1 - i] == c[i];
      } else {
        assert r[i] == l[2 * |c| - 1 - i] == c[2 * |c| - 1 - i];
      }
    }
  }

  /** The options of `get_image` that shape the trajectory. */
  datatype TraceOptions = TraceOptions(
    extractRatio: real,
    useBezier: bool,
    bezierA: Option<real>,
    bezierB: Option<real>,
    loop: bool)

  /** The inverted pose-file poses cut to a prefix and, optionally, time-warped to the same number of poses. */
  function WarpedPrefix(rows: seq<seq<real>>, opts: TraceOptions, inverse: Mat -> Mat): (c: seq<Mat>)
    requires 1 <= |rows|
    requires forall k :: 0 <= k < |rows| ==> |rows[k]| == RowWidth
    requires forall m :: IsMat(m, 4, 4) ==> IsMat(inverse(m), 4, 4)
    ensures AllPoses(c) && |c| == PrefixLength(|rows|, opts.extractRatio)
  {
    var all := InverseAll(PosesFromRows(rows), inverse);
    var cut := ExtractTrace(all, opts.extractRatio);
    assert AllPoses(cut) by {
      forall k | 0 <= k < |cut| ensures IsMat(cut[k], 4, 4) {
        assert cut[k] == all[k];
      }
    }
    if opts.useBezier then ResampleBezier(cut, |cut|, opts.bezierA, opts.bezierB) else cut
  }

  /**
   * The camera-to-world trajectory handed to `camera_pose_lerp`: the inverted
   * pose-file poses, cut to a prefix, optionally time-warped to the same
   * number of poses, optionally looped.
   */
  function TraceKeyframes(rows: seq<seq<real>>, opts: TraceOptions, inverse: Mat -> Mat): (c2ws: seq<Mat>)
    requires 1 <= |rows|
    requires forall k :: 0 <= k < |rows| ==> |rows[k]| == RowWidth
    requires forall m :: IsMat(m, 4, 4) ==> IsMat(inverse(m), 4, 4)
    ensures AllPoses(c2ws)
    ensures var n := PrefixLength(|rows|, opts.extractRatio);
            |c2ws| == if opts.loop then 2 * n else n
  {
    var warped := WarpedPrefix(rows, opts, inverse);
    if opts.loop then LoopedShape(warped); LoopedPoses(warped); Looped(warped) else warped
  }

  /** A looped trajectory of poses is a trajectory of poses. */
  lemma LoopedPoses(c: seq<Mat>)
    requires AllPoses(c)
    ensures AllPoses(Looped(c))
  {
    var l := Looped(c);
    forall k | 0 <= k < |l| ensures IsMat(l[k], 4, 4) {
      if k < |c| {
        assert l[k] == c[k];
      } else {
        assert l[k] == c[2 * |c| - 1 - k];
      }
    }
  }

  /** The Bézier control values are not negative, or the warp is off. */
  predicate WarpStartsAtZero(opts: TraceOptions)
  {
    opts.useBezier ==> 0.0 <= Default(opts.bezierA, 0.5) && 0.0 <= Default(opts.bezierB, 0.5)
  }

  /**
   * The cut and warped trajectory starts at the camera of the first row,
   * unless a negative control value moves the warped start.
   */
  lemma WarpedPrefixStarts(rows: seq<seq<real>>, opts: TraceOptions, inverse: Mat -> Mat)
    requires 1 <= |rows|
    requires forall k :: 0 <= k < |rows| ==> |rows[k]| == RowWidth
    requires forall m :: IsMat(m, 4, 4) ==> IsMat(inverse(m), 4, 4)
    requires WarpStartsAtZero(opts)
    ensures WarpedPrefix(rows, opts, inverse)[0] == inverse(PosesFromRows(rows)[0])
  {
    var all := InverseAll(PosesFromRows(rows), inverse);
    var cut := ExtractTrace(all, opts.extractRatio);
    ExtractTraceIsPrefix(all, opts.extractRatio);
    assert cut[0] == all[0];
    assert AllPoses(cut) by {
      forall k | 0 <= k < |cut| ensures IsMat(cut[k], 4, 4) {
        assert cut[k] == all[k];
      }
    }
    if opts.useBezier {
      ResampleKeepsFirstPose(cut, |cut|, opts.bezierA, opts.bezierB);
    }
  }

  /**
   * Whatever the ratio and the loop flag, and for any non-negative Bézier
   * control values, the keyframes start at the camera of the pose file's
   * first row; a looped trajectory also ends there.
   */
  lemma TraceStartsAtFirstCamera(rows: seq<seq<real>>, opts: TraceOptions, inverse: Mat -> Mat)
    requires 1 <= |rows|
    requires forall k :: 0 <= k < |rows| ==> |rows[k]| == RowWidth
    requires forall m :: IsMat(m, 4, 4) ==> IsMat(inverse(m), 4, 4)
    requires WarpStartsAtZero(opts)
    ensures var c2ws := TraceKeyframes(rows, opts, inverse);
            c2ws[0] == inverse(PosesFromRows(rows)[0])
    ensures var c2ws := TraceKeyframes(rows, opts, inverse);
            opts.loop ==> c2ws[|c2ws| - 1] == inverse(PosesFromRows(rows)[0])
  {
    var warped := WarpedPrefix(rows, opts, inverse);
    WarpedPrefixStarts(rows, opts, inverse);
    LoopedShape(warped);
  }

  /**
   * The relative, translation-scaled trajectory of `get_image`: the
   * keyframes interpolated to `videoLength` poses, made relative to the
   * condition frame, then (in place, on a copy) every translation scaled by
   * `traceScale`.
   */
  method RelativeTrace(rows: seq<seq<real>>, opts: TraceOptions, videoLength: nat, condFrame: int, traceScale: real,
                       inverse: Mat -> Mat, poseLerp: (seq<Mat>, nat) -> seq<Mat>, relativePose: (seq<Mat>, int) -> seq<Mat>)
    returns (rel: seq<Mat>)
    requires 1 <= |rows|
    requires forall k :: 0 <= k < |rows| ==> |rows[k]| == RowWidth
    requires forall m :: IsMat(m, 4, 4) ==> IsMat(inverse(m), 4, 4)
    requires forall ps, n :: AllPoses(ps) ==> AllPoses(poseLerp(ps, n)) && |poseLerp(ps, n)| == n
    requires forall ps, i :: AllPoses(ps) ==> AllPoses(relativePose(ps, i)) && |relativePose(ps, i)| == |ps|
    ensures |rel| == videoLength && AllPoses(rel)
    ensures rel == ScaleTrace(relativePose(poseLerp(TraceKeyframes(rows, opts, inverse), videoLength), condFrame), traceScale)
  {
    var keyframes := TraceKeyframes(rows, opts, inverse);
    var lerped := poseLerp(keyframes, videoLength);
    var relative := relativePose(lerped, condFrame);
    var buffer := new Mat[|relative|](i => if 0 <= i < |relative| then relative[i] else Identity(4));
    assert buffer[..] == relative;
    ScaleTraceInPlace(buffer, traceScale);
    rel := buffer[..];
  }

  /** `list(range(0, n))`. */
  function FrameRange(n: nat): (idx: seq<nat>)
    ensures |idx| == n
    ensures forall i :: 0 <= i < n ==> idx[i] == i
  {
    seq(n, i requires 0 <= i < n => i)
  }

  /** `ps[idx]`: the poses at the given indices, in the order of the indices. */
  function Gather(ps: seq<Mat>, idx: seq<nat>): (r: seq<Mat>)
    requires forall i :: 0 <= i < |idx| ==> idx[i] < |ps|
    ensures |r| == |idx|
  {
    seq(|idx|, i requires 0 <= i < |idx| => ps[idx[i]])
  }

  /** Gathering at every index in order gives the trajectory back. */
  lemma GatherRange(ps: seq<Mat>)
    ensures Gather(ps, FrameRange(|ps|)) == ps
  {
    var r := Gather(ps, FrameRange(|ps|));
    forall i | 0 <= i < |ps| ensures r[i] == ps[i] {
      assert FrameRange(|ps|)[i] == i;
    }
  }

  /**
   * `w2cs_lerp_4x4[frame_indices, :3]` with `frame_indices = range(video_length)`:
   * the interpolated trajectory inverted back to world-to-camera poses, each
   * cut to its top 3×4 block. This, not the relative trace, is the camera
   * input that `get_batch_input` passes to the network.
   */
  function ConditioningTrace(rows: seq<seq<real>>, opts: TraceOptions, videoLength: nat,
                             inverse: Mat -> Mat, poseLerp: (seq<Mat>, nat) -> seq<Mat>): (w2cs: seq<Mat>)
    requires 1 <= |rows|
    requires forall k :: 0 <= k < |rows| ==> |rows[k]| == RowWidth
    requires forall m :: IsMat(m, 4, 4) ==> IsMat(inverse(m), 4, 4)
    requires forall ps, n :: AllPoses(ps) ==> AllPoses(poseLerp(ps, n)) && |poseLerp(ps, n)| == n
    ensures |w2cs| == videoLength
    ensures forall k :: 0 <= k < videoLength ==> IsMat(w2cs[k], 3, 4)
  {
    var lerped := poseLerp(TraceKeyframes(rows, opts, inverse), videoLength);
    var picked := Gather(InverseAll(lerped, inverse), FrameRange(videoLength));
    seq(videoLength, k requires 0 <= k < videoLength => picked[k][..3])
  }

  /**
   * Frame k of the network's camera input is the inverse of interpolated
   * camera k: appending the row [0, 0, 0, 1] to its 3×4 block gives that
   * inverse back whenever the inverse of a rigid pose is again one.
   */
  lemma ConditioningTraceIsInverse(rows: seq<seq<real>>, opts: TraceOptions, videoLength: nat,
                                   inverse: Mat -> Mat, poseLerp: (seq<Mat>, nat) -> seq<Mat>)
    requires 1 <= |rows|
    requires forall k :: 0 <= k < |rows| ==> |rows[k]| == RowWidth
    requires forall m :: IsMat(m, 4, 4) ==> IsMat(inverse(m), 4, 4)
    requires forall m :: IsMat(m, 4, 4) && m[3] == BottomRow ==> |inverse(m)| == 4 && inverse(m)[3] == BottomRow
    requires forall ps, n :: AllPoses(ps) ==> AllPoses(poseLerp(ps, n)) && |poseLerp(ps, n)| == n
    ensures var lerped := poseLerp(TraceKeyframes(rows, opts, inverse), videoLength);
            var w2cs := ConditioningTrace(rows, opts, videoLength, inverse, poseLerp);
            forall k :: 0 <= k < videoLength && lerped[k][3] == BottomRow ==> Homogeneous(w2cs[k]) == inverse(lerped[k])
  {
    var lerped := poseLerp(TraceKeyframes(rows, opts, inverse), videoLength);
    var all := InverseAll(lerped, inverse);
    GatherRange(all);
    var w2cs := ConditioningTrace(rows, opts, videoLength, inverse, poseLerp);
    forall k | 0 <= k < videoLength && lerped[k][3] == BottomRow ensures Homogeneous(w2cs[k]) == inverse(lerped[k]) {
      var m := inverse(lerped[k]);
      assert w2cs[k] == m[..3];
      assert m == m[..3] + [m[3]];
    }
  }

  /**
   * Translation scaling leaves the rotation block and the bottom row of
   * every relative pose as they were, and a reference pose that is the
   * identity stays the identity.
   */
  lemma ScaleTraceKeepsRotation(ps: seq<Mat>, s: real)
    requires AllPoses(ps)
    ensures forall k, i, j :: 0 <= k < |ps| && 0 <= i < 4 && 0 <= j < 3 ==> ScaleTrace(ps, s)[k][i][j] == ps[k][i][j]
    ensures forall k :: 0 <= k < |ps| ==> ScaleTrace(ps, s)[k][3] == ps[k][3]
    ensures forall k, i :: 0 <= k < |ps| && 0 <= i < 3 ==> ScaleTrace(ps, s)[k][i][3] == s * ps[k][i][3]
    ensures forall k :: 0 <= k < |ps| && ps[k] == Identity(4) ==> ScaleTrace(ps, s)[k] == Identity(4)
  {
    var r := ScaleTrace(ps, s);
    forall k | 0 <= k < |ps| ensures r[k] == ScaleTranslation(ps[k], s) && r[k][3] == ps[k][3] {
      var m, n := r[k], ps[k];
      assert |m[3]| == |n[3]| == 4;
      forall j | 0 <= j < 4 ensures m[3][j] == n[3][j] { }
    }
    forall k | 0 <= k < |ps| && ps[k] == Identity(4) ensures r[k] == Identity(4) {
      ScaleTranslationKeepsIdentity(s);
    }
  }
}
