/**
 * The conditioning side of `MotionCtrl.get_batch_input`: the
 * classifier-free-guidance masks, the condition-frame index, the camera
 * condition handed to the UNet and the list of outputs.
 *
 * The encoders, the text and image embedders, the batched `.inverse()` and
 * `get_relative_pose` are not part of this model; the last two are passed in
 * as functions, and the random draws as inputs.
 */
module Conditioning {
  import opened Runtime
  import opened Pose

  // ---------------------------------------------------------------------
  // Classifier-free guidance masks
  // ---------------------------------------------------------------------

  /** `prompt_mask` for one draw `r` and `p = uncond_prob`: the prompt is replaced by the null prompt. */
  predicate PromptDropped(r: real, p: real)
  {
    r < 2.0 * p
  }

  /** `input_mask` for one draw: `1 - [r >= p] * [r < 3p]`, the factor the condition image is multiplied by. */
  function ImageMask(r: real, p: real): (m: real)
    ensures m == 0.0 || m == 1.0
  {
    1.0 - (if r >= p then 1.0 else 0.0) * (if r < 3.0 * p then 1.0 else 0.0)
  }

  /**
   * The four-way partition of the draw: below `p` only the text is dropped,
   * in `[p, 2p)` both, in `[2p, 3p)` only the image, and from `3p` on
   * neither. The image is zeroed exactly for `p <= r < 3p`.
   */
  lemma GuidancePartition(r: real, p: real)
    requires 0.0 <= p && 0.0 <= r
    ensures ImageMask(r, p) == 0.0 <==> p <= r < 3.0 * p
    ensures r < p ==> PromptDropped(r, p) && ImageMask(r, p) == 1.0
    ensures p <= r < 2.0 * p ==> PromptDropped(r, p) && ImageMask(r, p) == 0.0
    ensures 2.0 * p <= r < 3.0 * p ==> !PromptDropped(r, p) && ImageMask(r, p) == 0.0
    ensures 3.0 * p <= r ==> !PromptDropped(r, p) && ImageMask(r, p) == 1.0
  {
  }

  /** `torch.rand(B)` under `random_uncond`, and `torch.ones(B)` otherwise. */
  function GuidanceDraws(randomUncond: bool, batchSize: nat, draws: seq<real>): (rs: seq<real>)
    requires randomUncond ==> |draws| == batchSize
    ensures |rs| == batchSize
    ensures !randomUncond ==> forall i :: 0 <= i < batchSize ==> rs[i] == 1.0
  {
    if randomUncond then draws else seq(batchSize, i => 1.0)
  }

  /** Both masks of a batch: which prompts are nulled, and the factor on each condition image. */
  function GuidanceMasks(randomUncond: bool, batchSize: nat, draws: seq<real>, p: real): (masks: (seq<bool>, seq<real>))
    requires randomUncond ==> |draws| == batchSize
    ensures |masks.0| == batchSize && |masks.1| == batchSize
  {
    var rs := GuidanceDraws(randomUncond, batchSize, draws);
    (seq(batchSize, i requires 0 <= i < batchSize => PromptDropped(rs[i], p)),
     seq(batchSize, i requires 0 <= i < batchSize => ImageMask(rs[i], p)))
  }

  /**
   * Without `random_uncond` every draw is 1, and then nothing is dropped
   * exactly when `uncond_prob` is at most one third: each prompt is kept
   * and each image is multiplied by 1.
   */
  lemma DeterministicKeepsEverything(batchSize: nat, draws: seq<real>, p: real)
    requires 1 <= batchSize
    ensures var masks := GuidanceMasks(false, batchSize, draws, p);
            p <= 1.0 / 3.0 <==> forall i :: 0 <= i < batchSize ==> !masks.0[i] && masks.1[i] == 1.0
  {
    var masks := GuidanceMasks(false, batchSize, draws, p);
    if p <= 1.0 / 3.0 {
      forall i | 0 <= i < batchSize ensures !masks.0[i] && masks.1[i] == 1.0 {
        assert masks.0[i] == PromptDropped(1.0, p);
        assert masks.1[i] == ImageMask(1.0, p);
      }
    } else {
      assert masks.0[0] == PromptDropped(1.0, p);
      assert masks.1[0] == ImageMask(1.0, p);
    }
  }

  // ---------------------------------------------------------------------
  // Condition frame
  // ---------------------------------------------------------------------

  /**
   * The condition-frame index of each batch element: a given index is used
   * as it is; otherwise every element uses frame 0, unless random condition
   * frames are on (the argument, else the model's setting), in which case
   * each uses its draw of `torch.randint(0, temporal_length)`.
   */
  function CondFrameIndex(given: Option<seq<int>>, batchSize: nat, randArg: Option<bool>, randDefault: bool,
                          temporalLength: nat, draws: seq<int>): (idx: seq<int>)
    requires given.None? && (if randArg.Some? then randArg.value else randDefault) ==>
               |draws| == batchSize && forall i :: 0 <= i < |draws| ==> 0 <= draws[i] < temporalLength
    ensures given.Some? ==> idx == given.value
    ensures given.None? ==> |idx| == batchSize && forall i :: 0 <= i < batchSize ==> 0 <= idx[i] < Max(temporalLength, 1)
    ensures given.None? && !(if randArg.Some? then randArg.value else randDefault) ==>
              forall i :: 0 <= i < batchSize ==> idx[i] == 0
  {
    if given.Some? then given.value
    else if (if randArg.Some? then randArg.value else randDefault) then draws
    else seq(batchSize, i => 0)
  }

  // ---------------------------------------------------------------------
  // Camera condition
  // ---------------------------------------------------------------------

  /** Every trajectory of the batch is a sequence of 4×4 poses. */
  predicate AllTraces(cs: seq<seq<Mat>>)
  {
    forall b :: 0 <= b < |cs| ==> AllPoses(cs[b])
  }

  /** Two batches have the same batch size and the same number of frames per element. */
  predicate SameLengths(a: seq<seq<Mat>>, c: seq<seq<Mat>>)
  {
    |a| == |c| && forall b :: 0 <= b < |a| ==> |a[b]| == |c[b]|
  }

  /** What is assumed of the helpers: `.inverse()` and `get_relative_pose` keep the shapes. */
  ghost predicate ShapeKeeping(inverse: Mat -> Mat, getRelativePose: (seq<seq<Mat>>, seq<int>) -> seq<seq<Mat>>)
  {
    (forall m :: IsMat(m, 4, 4) ==> IsMat(inverse(m), 4, 4)) &&
    (forall cs, idx :: AllTraces(cs) ==> AllTraces(getRelativePose(cs, idx)) && SameLengths(getRelativePose(cs, idx), cs))
  }

  /** `w2c_RT_4x4.inverse()`: the camera-to-world poses of the batch. */
  function CameraToWorld(w2cs: seq<seq<Mat>>, inverse: Mat -> Mat): (c2ws: seq<seq<Mat>>)
    requires AllTraces(w2cs)
    requires forall m :: IsMat(m, 4, 4) ==> IsMat(inverse(m), 4, 4)
    ensures AllTraces(c2ws) && SameLengths(c2ws, w2cs)
    ensures forall b, t :: 0 <= b < |w2cs| && 0 <= t < |w2cs[b]| ==> c2ws[b][t] == inverse(w2cs[b][t])
  {
    seq(|w2cs|, b requires 0 <= b < |w2cs| =>
      seq(|w2cs[b]|, t requires 0 <= t < |w2cs[b]| => inverse(w2cs[b][t])))
  }

  /** The relative camera-to-world poses of the batch, with respect to the condition frames. */
  function RelativePoses(w2cs: seq<seq<Mat>>, condIdx: seq<int>, inverse: Mat -> Mat,
                         getRelativePose: (seq<seq<Mat>>, seq<int>) -> seq<seq<Mat>>): (rel: seq<seq<Mat>>)
    requires AllTraces(w2cs) && ShapeKeeping(inverse, getRelativePose)
    ensures AllTraces(rel) && SameLengths(rel, w2cs)
  {
    getRelativePose(CameraToWorld(w2cs, inverse), condIdx)
  }

  /** A relative pose with its translation scaled, inverted back to world-to-camera. */
  function ScaledWorldToCamera(m: Mat, traceScale: real, inverse: Mat -> Mat): (w: Mat)
    requires IsMat(m, 4, 4)
    requires forall m :: IsMat(m, 4, 4) ==> IsMat(inverse(m), 4, 4)
    ensures IsMat(w, 4, 4) && HasTop3x4(w)
  {
    inverse(ScaleTranslation(m, traceScale))
  }

  /**
   * The camera condition of one trajectory: each relative pose with its
   * translation scaled, inverted back to world-to-camera, and its top 3×4
   * block flattened row by row into 12 values.
   */
  function FlattenedTrace(rel: seq<Mat>, traceScale: real, inverse: Mat -> Mat): (rt: seq<seq<real>>)
    requires AllPoses(rel)
    requires forall m :: IsMat(m, 4, 4) ==> IsMat(inverse(m), 4, 4)
    ensures |rt| == |rel|
    ensures forall t :: 0 <= t < |rel| ==> |rt[t]| == 12
    ensures forall t, x, y :: 0 <= t < |rel| && 0 <= x < 3 && 0 <= y < 4 ==>
              rt[t][4 * x + y] == ScaledWorldToCamera(rel[t], traceScale, inverse)[x][y]
  {
    seq(|rel|, t requires 0 <= t < |rel| => Flatten3x4(ScaledWorldToCamera(rel[t], traceScale, inverse)))
  }

  /** `cond["camera_condition"]["RT"]`: one flattened trace per batch element. */
  function CameraCondition(w2cs: seq<seq<Mat>>, condIdx: seq<int>, traceScale: real, inverse: Mat -> Mat,
                           getRelativePose: (seq<seq<Mat>>, seq<int>) -> seq<seq<Mat>>): (rt: seq<seq<seq<real>>>)
    requires AllTraces(w2cs) && ShapeKeeping(inverse, getRelativePose)
    ensures |rt| == |w2cs|
    ensures forall b :: 0 <= b < |w2cs| ==> |rt[b]| == |w2cs[b]| && forall t :: 0 <= t < |w2cs[b]| ==> |rt[b][t]| == 12
  {
    var rel := RelativePoses(w2cs, condIdx, inverse, getRelativePose);
    seq(|rel|, b requires 0 <= b < |rel| => FlattenedTrace(rel[b], traceScale, inverse))
  }

  /**
   * The camera-condition block of `get_batch_input`: invert, take the
   * relative poses, scale the translations of each trajectory in place,
   * invert again and flatten.
   */
  method BuildCameraCondition(w2cs: seq<seq<Mat>>, condIdx: seq<int>, traceScale: real, inverse: Mat -> Mat,
                              getRelativePose: (seq<seq<Mat>>, seq<int>) -> seq<seq<Mat>>)
    returns (rt: seq<seq<seq<real>>>)
    requires AllTraces(w2cs) && ShapeKeeping(inverse, getRelativePose)
    ensures rt == CameraCondition(w2cs, condIdx, traceScale, inverse, getRelativePose)
  {
    var rel := RelativePoses(w2cs, condIdx, inverse, getRelativePose);
    rt := [];
    for b := 0 to |rel|
      invariant |rt| == b
      invariant forall i :: 0 <= i < b ==> rt[i] == FlattenedTrace(rel[i], traceScale, inverse)
    {
      var trace := rel[b];
      var buffer := new Mat[|trace|](i => if 0 <= i < |trace| then trace[i] else Identity(4));
      assert buffer[..] == trace;
      ScaleTraceInPlace(buffer, traceScale);
      var scaled := buffer[..];
      assert forall t :: 0 <= t < |scaled| ==> scaled[t] == ScaleTranslation(trace[t], traceScale);
      rt := rt + [seq(|scaled|, t requires 0 <= t < |scaled| => Flatten3x4(inverse(scaled[t])))];
    }
  }

  /**
   * At the condition frame the relative pose is the identity, so its
   * condition is the flattened identity whatever the translation scale.
   */
  lemma ConditionAtReferenceFrame(w2cs: seq<seq<Mat>>, condIdx: seq<int>, traceScale: real, inverse: Mat -> Mat,
                                  getRelativePose: (seq<seq<Mat>>, seq<int>) -> seq<seq<Mat>>, b: nat)
    requires AllTraces(w2cs) && ShapeKeeping(inverse, getRelativePose)
    requires b < |w2cs| && b < |condIdx| && 0 <= condIdx[b] < |w2cs[b]|
    requires RelativePoses(w2cs, condIdx, inverse, getRelativePose)[b][condIdx[b]] == Identity(4)
    requires inverse(Identity(4)) == Identity(4)
    ensures CameraCondition(w2cs, condIdx, traceScale, inverse, getRelativePose)[b][condIdx[b]] ==
              [1.0, 0.0, 0.0, 0.0, 0.0, 1.0, 0.0, 0.0, 0.0, 0.0, 1.0, 0.0]
  {
    ScaleTranslationKeepsIdentity(traceScale);
    FlattenIdentity();
  }

  /**
   * The 12 values lose nothing: for rigid poses (bottom row `[0, 0, 0, 1]`,
   * kept by the inverse, which undoes itself) and a non-zero scale, the
   * relative camera-to-world pose is recovered from its condition by
   * restoring the bottom row, inverting and undoing the scaling.
   */
  lemma ConditionDeterminesRelativePose(w2cs: seq<seq<Mat>>, condIdx: seq<int>, traceScale: real, inverse: Mat -> Mat,
                                        getRelativePose: (seq<seq<Mat>>, seq<int>) -> seq<seq<Mat>>, b: nat, t: nat)
    requires AllTraces(w2cs) && ShapeKeeping(inverse, getRelativePose)
    requires b < |w2cs| && t < |w2cs[b]| && traceScale != 0.0
    requires RelativePoses(w2cs, condIdx, inverse, getRelativePose)[b][t][3] == BottomRow
    requires forall m :: IsMat(m, 4, 4) && m[3] == BottomRow ==> inverse(m)[3] == BottomRow && inverse(inverse(m)) == m
    ensures var rt := CameraCondition(w2cs, condIdx, traceScale, inverse, getRelativePose);
            ScaleTranslation(inverse(Homogeneous(Unflatten3x4(rt[b][t]))), 1.0 / traceScale) ==
              RelativePoses(w2cs, condIdx, inverse, getRelativePose)[b][t]
  {
    var rel := RelativePoses(w2cs, condIdx, inverse, getRelativePose)[b][t];
    var scaled := ScaleTranslation(rel, traceScale);
    assert scaled[3] == rel[3] by {
      forall j | 0 <= j < 4 ensures scaled[3][j] == rel[3][j] { }
    }
    var w2c := inverse(scaled);
    var v := CameraCondition(w2cs, condIdx, traceScale, inverse, getRelativePose)[b][t];
    assert v == Flatten3x4(w2c);
    UnflattenFlatten(w2c);
    assert Homogeneous(Unflatten3x4(v)) == w2c[..3] + [w2c[3]];
    assert w2c[..3] + [w2c[3]] == w2c;
    ScaleTranslationInverse(rel, traceScale);
  }

  // ---------------------------------------------------------------------
  // Output list
  // ---------------------------------------------------------------------

  /** The items `get_batch_input` can return; the frame-rate item records the batch key it was read from. */
  datatype OutItem =
    | Latents
    | Cond
    | Reconstruction
    | OriginalCond
    | FrameRate(key: string)
    | CondFrameIndexItem
    | CondFrame
    | OriginalInput
    | CameraData
    | VideoPath

  /** The `return_*` flags, in the order the items are appended. */
  datatype OutputFlags = OutputFlags(
    firstStageOutputs: bool,
    originalCond: bool,
    fs: bool,
    condFrameIndex: bool,
    condFrame: bool,
    originalInput: bool,
    cameraData: bool,
    videoPath: bool)

  /** Position of an item kind in the fixed output order. */
  function Rank(item: OutItem): nat
  {
    match item
    case Latents => 0
    case Cond => 1
    case Reconstruction => 2
    case OriginalCond => 3
    case FrameRate(_) => 4
    case CondFrameIndexItem => 5
    case CondFrame => 6
    case OriginalInput => 7
    case CameraData => 8
    case VideoPath => 9
  }

  /** Number of positions in the output order. */
  const Positions: nat := 10

  /** The item at position `k` of the order (the frame-rate item read from `key`). */
  function ItemAt(k: nat, key: string): (item: OutItem)
    requires k < Positions
    ensures Rank(item) == k
  {
    match k
    case 0 => Latents
    case 1 => Cond
    case 2 => Reconstruction
    case 3 => OriginalCond
    case 4 => FrameRate(key)
    case 5 => CondFrameIndexItem
    case 6 => CondFrame
    case 7 => OriginalInput
    case 8 => CameraData
    case _ => VideoPath
  }

  /** Whether position `k` is returned: `z` and `cond` always, the others by their flag. */
  function Wanted(f: OutputFlags, k: nat): bool
    requires k < Positions
  {
    match k
    case 0 => true
    case 1 => true
    case 2 => f.firstStageOutputs
    case 3 => f.originalCond
    case 4 => f.fs
    case 5 => f.condFrameIndex
    case 6 => f.condFrame
    case 7 => f.originalInput
    case 8 => f.cameraData
    case _ => f.videoPath
  }

  function Count(flag: bool): nat { if flag then 1 else 0 }

  /** The number of optional items asked for. */
  function EnabledCount(f: OutputFlags): nat
  {
    Count(f.firstStageOutputs) + Count(f.originalCond) + Count(f.fs) + Count(f.condFrameIndex) +
    Count(f.condFrame) + Count(f.originalInput) + Count(f.cameraData) + Count(f.videoPath)
  }

  /** The item when its flag is set, nothing otherwise. */
  function Optional(flag: bool, item: OutItem): (s: seq<OutItem>)
  {
    if flag then [item] else []
  }

  /** The list after the appends for positions below `k`. */
  function OutputUpTo(f: OutputFlags, key: string, k: nat): seq<OutItem>
    requires k <= Positions
  {
    if k == 0 then [] else OutputUpTo(f, key, k - 1) + Optional(Wanted(f, k - 1), ItemAt(k - 1, key))
  }

  /** The whole output list. */
  function ExpectedOutput(f: OutputFlags, key: string): seq<OutItem>
  {
    OutputUpTo(f, key, Positions)
  }

  /** Items appear in the fixed order, each kind at most once. */
  predicate InOrder(out: seq<OutItem>)
  {
    forall i, j :: 0 <= i < j < |out| ==> Rank(out[i]) < Rank(out[j])
  }

  /** Number of positions below `k` that are returned. */
  function CountUpTo(f: OutputFlags, k: nat): nat
    requires k <= Positions
  {
    if k == 0 then 0 else CountUpTo(f, k - 1) + Count(Wanted(f, k - 1))
  }

  /** The list so far is in order, ranked below `k`, and as long as the positions returned. */
  lemma {:induction false} OutputUpToOrdered(f: OutputFlags, key: string, k: nat)
    requires k <= Positions
    ensures var out := OutputUpTo(f, key, k);
            InOrder(out) && |out| == CountUpTo(f, k) && forall i :: 0 <= i < |out| ==> Rank(out[i]) < k
  {
    if k > 0 {
      OutputUpToOrdered(f, key, k - 1);
    }
  }

  /** An item is in the list so far exactly when its position is below `k` and returned. */
  lemma {:induction false} OutputUpToMembers(f: OutputFlags, key: string, k: nat, x: OutItem)
    requires k <= Positions
    ensures x in OutputUpTo(f, key, k) <==> Rank(x) < k && Wanted(f, Rank(x)) && x == ItemAt(Rank(x), key)
  {
    if k > 0 {
      OutputUpToMembers(f, key, k - 1, x);
    }
  }

  /** Later appends keep what is already there. */
  lemma {:induction false} OutputUpToExtends(f: OutputFlags, key: string, j: nat, k: nat)
    requires j <= k <= Positions
    ensures |OutputUpTo(f, key, j)| <= |OutputUpTo(f, key, k)|
    ensures OutputUpTo(f, key, k)[..|OutputUpTo(f, key, j)|] == OutputUpTo(f, key, j)
  {
    if j < k {
      OutputUpToExtends(f, key, j, k - 1);
      var a, b, c := OutputUpTo(f, key, j), OutputUpTo(f, key, k - 1), OutputUpTo(f, key, k);
      assert c[..|b|] == b;
      assert c[..|a|] == b[..|a|];
    }
  }

  /** The first two positions are always returned: the list opens with `[z, cond]`. */
  lemma OutputHead(f: OutputFlags, key: string)
    ensures OutputUpTo(f, key, 2) == [Latents, Cond]
  {
    assert Wanted(f, 0) && ItemAt(0, key) == Latents;
    assert Wanted(f, 1) && ItemAt(1, key) == Cond;
    assert OutputUpTo(f, key, 1) == [Latents];
  }

  /** Counting the positions returned: the two fixed ones and one per flag set. */
  lemma CountAllPositions(f: OutputFlags)
    ensures CountUpTo(f, Positions) == 2 + EnabledCount(f)
  {
    assert CountUpTo(f, 1) == CountUpTo(f, 0) + Count(Wanted(f, 0));
    assert CountUpTo(f, 2) == CountUpTo(f, 1) + Count(Wanted(f, 1));
    assert CountUpTo(f, 3) == CountUpTo(f, 2) + Count(Wanted(f, 2));
    assert CountUpTo(f, 4) == CountUpTo(f, 3) + Count(Wanted(f, 3));
    assert CountUpTo(f, 5) == CountUpTo(f, 4) + Count(Wanted(f, 4));
    assert CountUpTo(f, 6) == CountUpTo(f, 5) + Count(Wanted(f, 5));
    assert CountUpTo(f, 7) == CountUpTo(f, 6) + Count(Wanted(f, 6));
    assert CountUpTo(f, 8) == CountUpTo(f, 7) + Count(Wanted(f, 7));
    assert CountUpTo(f, 9) == CountUpTo(f, 8) + Count(Wanted(f, 8));
    assert CountUpTo(f, 10) == CountUpTo(f, 9) + Count(Wanted(f, 9));
  }

  /**
   * The output list starts with `[z, cond]`, holds one item per flag set,
   * in the fixed order, so its length is 2 plus the number of flags set.
   */
  lemma ExpectedOutputShape(f: OutputFlags, key: string)
    ensures var out := ExpectedOutput(f, key);
            |out| == 2 + EnabledCount(f) && out[..2] == [Latents, Cond] && InOrder(out)
  {
    OutputUpToOrdered(f, key, Positions);
    OutputUpToExtends(f, key, 2, Positions);
    OutputHead(f, key);
    CountAllPositions(f);
  }

  /** Each optional item is in the list exactly when its flag is set. */
  lemma ExpectedOutputMembers(f: OutputFlags, key: string)
    ensures var out := ExpectedOutput(f, key);
            (Reconstruction in out <==> f.firstStageOutputs) &&
            (OriginalCond in out <==> f.originalCond) &&
            (FrameRate(key) in out <==> f.fs) &&
            (CondFrameIndexItem in out <==> f.condFrameIndex) &&
            (CondFrame in out <==> f.condFrame) &&
            (OriginalInput in out <==> f.originalInput) &&
            (CameraData in out <==> f.cameraData) &&
            (VideoPath in out <==> f.videoPath)
  {
    OutputUpToMembers(f, key, Positions, Reconstruction);
    OutputUpToMembers(f, key, Positions, OriginalCond);
    OutputUpToMembers(f, key, Positions, FrameRate(key));
    OutputUpToMembers(f, key, Positions, CondFrameIndexItem);
    OutputUpToMembers(f, key, Positions, CondFrame);
    OutputUpToMembers(f, key, Positions, OriginalInput);
    OutputUpToMembers(f, key, Positions, CameraData);
    OutputUpToMembers(f, key, Positions, VideoPath);
  }

  /** The batch key the frame-rate item is read from, for the fps condition types that have one. */
  function FrameRateKey(fpsConditionType: string): Option<string>
  {
    if fpsConditionType == "fs" then Some("frame_stride")
    else if fpsConditionType == "fps" then Some("fps")
    else None
  }

  /** `if return_...: out.append(...)` for the item at position `k`. */
  method AppendAt(out: seq<OutItem>, flags: OutputFlags, key: string, k: nat) returns (r: seq<OutItem>)
    requires k < Positions && out == OutputUpTo(flags, key, k)
    ensures r == OutputUpTo(flags, key, k + 1)
  {
    r := out;
    if Wanted(flags, k) {
      r := r + [ItemAt(k, key)];
    }
  }

  /** The appends of `get_batch_input` once the frame-rate key is known, in their order. */
  method AppendRequested(flags: OutputFlags, key: string) returns (out: seq<OutItem>)
    ensures out == OutputUpTo(flags, key, Positions)
  {
    out := [Latents, Cond];
    OutputHead(flags, key);
    out := AppendAt(out, flags, key, 2);  // xrec
    out := AppendAt(out, flags, key, 3);  // cond_input
    out := AppendAt(out, flags, key, 4);  // fs
    out := AppendAt(out, flags, key, 5);  // cond_frame_index
    out := AppendAt(out, flags, key, 6);  // cond frame
    out := AppendAt(out, flags, key, 7);  // x
    out := AppendAt(out, flags, key, 8);  // camera_data
    out := AppendAt(out, flags, key, 9);  // video_path
  }

  /**
   * The output list: `[z, cond]`, then each optional item whose flag is set,
   * in the fixed order. Asking for the frame rate with an fps condition type
   * other than `fs` or `fps` leaves `fs` unbound, which raises.
   */
  method AssembleOutput(flags: OutputFlags, fpsConditionType: string) returns (r: Result<seq<OutItem>>)
    ensures r.Err? <==> flags.fs && FrameRateKey(fpsConditionType).None?
    ensures r.Err? ==> r.error == UnboundLocalError("fs")
    ensures r.Ok? ==> r.value == ExpectedOutput(flags, if flags.fs then FrameRateKey(fpsConditionType).value else "")
  {
    var key := "";
    if flags.fs {
      if fpsConditionType == "fs" {
        key := "frame_stride";
      } else if fpsConditionType == "fps" {
        key := "fps";
      } else {
        return Err(UnboundLocalError("fs"));
      }
    }
    var out := AppendRequested(flags, key);
    return Ok(out);
  }
}
