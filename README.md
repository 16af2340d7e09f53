# CamI2V camera conditioning, modelled in Dafny

This project models the camera-handling core of CamI2V, a camera-controlled
image-to-video diffusion system. The model has three parts.

- **Inference script** (`scripts/gradio/cami2v_test.py`), modules `Bezier`, `Trajectory`, `Registry`, `Checkpoint`:
  - the Bézier time-warp of a camera trajectory (`bezier_curve`, `camera_pose_lerp_bezier`), with `torch.searchsorted` as the bisection torch runs;
  - the trajectory policy of `get_image`: inverse, prefix extraction, Bézier warp, loop-by-reversal and interpolation; the network's camera input, which is the interpolated trajectory inverted back to world-to-camera 3×4 blocks; and the relative, translation-scaled trajectory drawn as the camera path;
  - the model registry, which keeps at most one network on the accelerator;
  - checkpoint loading: the state-dict unwrap, the `framestride_embed` → `fps_embedding` key rename, and a strict load with a non-strict fallback.
- **Dataset** (`CameraControl/data/realestate10k.py`), modules `Spatial`, `Sampler`:
  - the spatial-transform dispatch;
  - in `RealEstate10K.__getitem__`: the global-step counter, the frame-stride retry loop, the frame indices, the pose rows, the rescaling of the intrinsics and the 3×3 K matrix, the pixel normalisation, the clip's fps and the reported frame stride.
- **MotionCtrl** (`CameraControl/motionctrl/motionctrl.py`), modules `Patching`, `Conditioning`:
  - the walk that rebinds forwards and adds an identity-initialised `cc_projection` to every self-attention-only transformer block;
  - the classifier-free-guidance masks;
  - the conditioning-frame index;
  - the flattened 3×4 camera condition;
  - the output list of `get_batch_input` in its fixed order.

`Runtime` holds the Python-side vocabulary:
- `Option`, `Result` and the exceptions the code raises;
- floor division, `int()` truncation, ceil and frac.

`Pose` holds 4×4 matrices as `seq<seq<real>>`, with these operations:
- `torch.lerp`;
- translation scaling;
- homogeneous completion;
- the row-major 3×4 flatten.

Some operations are not shown in the source. They are parameters of the members that use them:
- the matrix inverse;
- `camera_pose_lerp`;
- `relative_pose`;
- `get_relative_pose`.

Each one's requires states only the shape it keeps. Inputs that the source reads or draws are parameters too:
- random draws;
- file contents (pose rows, metadata);
- the decoded video's fps and frame size;
- freshly loaded networks.

Code that updates state step by step is modelled imperatively:
- **Classes:**
  - `Registry.Image2Video` holds the `models` and `processors` maps;
  - `Sampler.RealEstate10K` holds the step counter;
  - `Patching.NetModule` holds the forwards and the projection.
- **Methods with loops:**
  - the registry's offload loop;
  - the stride `while True` loop;
  - the in-place `*=` on the intrinsics;
  - the `zeros_`/`eye_` weight initialisation on an array;
  - the module walk;
  - the in-place translation scaling;
  - the `append`s of the output list.

Each method's contract ties its result or its new state to a function on values. The properties are proved about those functions.

## Model

| member | source | states |
|---|---|---|
| Runtime.FloorDiv | CameraControl/data/realestate10k.py:123 | Python `//` on ints rounds toward negative infinity: `q*b <= a < q*b + b` for b > 0, and the mirror image for b < 0 |
| Runtime.Trunc | scripts/gradio/cami2v_test.py:160 | `int(x)` truncates toward zero: within one of x, on the side of zero |
| Runtime.Ceil | scripts/gradio/cami2v_test.py:45 | `ceil(x)` is the least integer not below x |
| Runtime.Frac | scripts/gradio/cami2v_test.py:47 | the fractional part lies in [0, 1) and is 0 exactly on integers |
| Pose.Lerp | scripts/gradio/cami2v_test.py:42 | `torch.lerp` gives a at weight 0 and b at weight 1, and a when a == b |
| Pose.LerpBetween | scripts/gradio/cami2v_test.py:42 | for a weight in [0, 1], the lerp lies between its two ends |
| Pose.LerpMat | scripts/gradio/cami2v_test.py:47 | elementwise lerp of two poses keeps the shape, and each entry is the scalar lerp |
| Pose.LerpMatSame | scripts/gradio/cami2v_test.py:47 | interpolating a pose with itself gives the pose, whatever the weight (what a whole-number y-position gathers) |
| Pose.ScaleTranslation | scripts/gradio/cami2v_test.py:168 | only rows 0..2 of column 3 are multiplied by the scale; every other entry is kept |
| Pose.ScaleTranslationCompose | scripts/gradio/cami2v_test.py:168 | scaling by a then by b is scaling by a*b |
| Pose.ScaleTranslationInverse | scripts/gradio/cami2v_test.py:168 | scaling by s then by 1/s restores the pose, for s ≠ 0 |
| Pose.ScaleTranslationKeepsIdentity | scripts/gradio/cami2v_test.py:168 | the identity pose is unchanged by any scale |
| Pose.ScaleTrace | scripts/gradio/cami2v_test.py:168 | scaling a trace keeps its length and keeps every entry a 4×4 pose |
| Pose.ScaleTraceInPlace | scripts/gradio/cami2v_test.py:168 | the in-place slice assignment leaves the array equal to the scaled trace of its old contents |
| Pose.Homogeneous | scripts/gradio/cami2v_test.py:157-159 | appending `[0, 0, 0, 1]` to a 3×4 block gives a 4×4 pose whose top rows are the block |
| Pose.Flatten3x4 | CameraControl/motionctrl/motionctrl.py:145 | `rearrange(b t x y -> b t (x y))` on the top 3×4 block: 12 values, and entry 4x+y is m[x][y] |
| Pose.FlattenUnflatten | CameraControl/motionctrl/motionctrl.py:145 | flatten undoes unflatten on every 12-vector |
| Pose.UnflattenFlatten | CameraControl/motionctrl/motionctrl.py:145 | unflatten of the flatten of a 4×4 pose is its top three rows |
| Pose.FlattenIdentity | CameraControl/motionctrl/motionctrl.py:145 | the flattened identity is `[1,0,0,0, 0,1,0,0, 0,0,1,0]` |
| Pose.PosesFromRows | scripts/gradio/cami2v_test.py:155-159 | each pose-file row gives a 4×4 pose: entry (x, y) is column 7+4x+y, and the bottom row is `[0,0,0,1]` |
| Bezier.Default | scripts/gradio/cami2v_test.py:23-24 | `default(a, b)` is a unless a is None, else b |
| Bezier.Bernstein | scripts/gradio/cami2v_test.py:29 | the four cubic Bernstein weights sum to 1 |
| Bezier.BernsteinNonneg | scripts/gradio/cami2v_test.py:29 | on [0, 1] every Bernstein weight is non-negative |
| Bezier.CurveEnds | scripts/gradio/cami2v_test.py:27-31 | the curve through `(0,0), (a,0), (b,1), (1,1)` starts at (0,0) and ends at (1,1) |
| Bezier.BezierYBounds | scripts/gradio/cami2v_test.py:27-31 | on [0, 1] the curve's y lies in [0, 1] |
| Bezier.Curve | scripts/gradio/cami2v_test.py:27-31 | `bezier_curve` is (0,0) at t=0 and (1,1) at t=1, its y stays in [0, 1], and missing control values default to 0.5 |
| Bezier.BezierXMonotone | scripts/gradio/cami2v_test.py:27-31 | with control x-values in [0, 1], the curve's x never decreases in t |
| Bezier.BezierXGap | scripts/gradio/cami2v_test.py:27-31 | with control x-values at most 1, x(t) stays at least (1-t)³ below 1 |
| Bezier.BezierXBelowOne | scripts/gradio/cami2v_test.py:27-31 | x(t) < 1 for every t < 1 |
| Bezier.Linspace | scripts/gradio/cami2v_test.py:35 | `linspace(0, 1, n)` lies in [0, 1], starts at 0 and ends at 1 |
| Bezier.LinspaceMonotone | scripts/gradio/cami2v_test.py:35 | linspace never decreases |
| Bezier.Ys | scripts/gradio/cami2v_test.py:36 | the sampled y-values all lie in [0, 1] |
| Bezier.XsSorted | scripts/gradio/cami2v_test.py:35-36 | with control x-values in [0, 1], the sampled x-values are sorted, as `searchsorted` needs |
| Bezier.XsBelowOne | scripts/gradio/cami2v_test.py:35-36 | every sampled x except the last is below 1 |
| Bezier.SearchSorted | scripts/gradio/cami2v_test.py:38 | reference for the left insertion point: every earlier sample is below v, and the one found is at least v |
| Bezier.SearchSortedBrackets | scripts/gradio/cami2v_test.py:38 | on a sorted sequence, j is before the insertion point iff xs[j] < v |
| Bezier.LowerBound | scripts/gradio/cami2v_test.py:38 | `torch.searchsorted` as torch's bisection computes it, sorted input or not: the result lies in [lo, hi], and it is hi only after the sample just below hi was found below v |
| Bezier.LowerBoundSplit | scripts/gradio/cami2v_test.py:38 | when the samples are below v up to i and at least v from i on, the bisection returns i, with no other order needed |
| Bezier.LowerBoundIsSearchSorted | scripts/gradio/cami2v_test.py:38 | on sorted samples the bisection returns the first index whose sample reaches v |
| Bezier.PositionFromSamples | scripts/gradio/cami2v_test.py:38-42 | after the clamps, the y-position lies in [0, N-1], so both floor and ceil gather valid pose indices |
| Bezier.PositionAtStart | scripts/gradio/cami2v_test.py:38-42 | at t = 0 the y-position is 0 when no sampled x is negative |
| Bezier.PositionAtEnd | scripts/gradio/cami2v_test.py:38-42 | at t = 1 the y-position is N-1, given that the last bracket is wider than the 1e-9 clamp |
| Bezier.LastBracketWide | scripts/gradio/cami2v_test.py:41 | for at most 1001 target frames, the last x-bracket is at least 1e-9 wide |
| Bezier.SourcePosition | scripts/gradio/cami2v_test.py:35-44 | the source position of every output frame lies in [0, N-1] |
| Bezier.ResampleBezier | scripts/gradio/cami2v_test.py:34-47 | `camera_pose_lerp_bezier` returns `target_frames` 4×4 poses |
| Bezier.ResampleBlendsNeighbours | scripts/gradio/cami2v_test.py:38-47 | every output frame is a lerp, with weight in [0, 1), of input pose i and pose i or i+1, for any control values |
| Bezier.ResampleAtWholePosition | scripts/gradio/cami2v_test.py:44-47 | an output frame whose source position is a whole number i is exactly input pose i |
| Bezier.BezierXNonneg | scripts/gradio/cami2v_test.py:27-31 | with non-negative control x-values, x(t) ≥ 0 on [0, 1] |
| Bezier.XsNonneg | scripts/gradio/cami2v_test.py:35-36 | with non-negative control x-values, no sampled x is negative |
| Bezier.ResampleKeepsFirstPose | scripts/gradio/cami2v_test.py:34-47 | the first output pose is the first input pose, for non-negative control values |
| Bezier.NegativeControlMovesStart | scripts/gradio/cami2v_test.py:35-47 | with a = -1, three output frames and two input poses, the first frame sits at source position 9/17, a blend of the first two poses |
| Bezier.ResampleKeepsLastPose | scripts/gradio/cami2v_test.py:34-47 | the last output pose is the last input pose |
| Trajectory.InverseAll | scripts/gradio/cami2v_test.py:160 | the batched `.inverse()` inverts each pose, position by position |
| Trajectory.PrefixLength | scripts/gradio/cami2v_test.py:160 | `max(1, int(T * ratio))` is capped by T, and lies in [1, T] for a non-empty trace |
| Trajectory.ExtractTrace | scripts/gradio/cami2v_test.py:160 | the extracted trace is as long as the prefix length |
| Trajectory.ExtractTraceIsPrefix | scripts/gradio/cami2v_test.py:160 | the result is a non-empty prefix of length min(T, max(1, ⌊T·ratio⌋)), and the whole trace when ratio ≥ 1 |
| Trajectory.Reversed | scripts/gradio/cami2v_test.py:164 | `flip(0)`: the same length, and element i is element T-1-i |
| Trajectory.ReversedReversed | scripts/gradio/cami2v_test.py:164 | flipping twice restores the trace |
| Trajectory.LoopedShape | scripts/gradio/cami2v_test.py:163-164 | looping doubles the length: the first half is the trace, the second half is its reverse, the result is a palindrome, and it ends at the first pose |
| Trajectory.LoopedPoses | scripts/gradio/cami2v_test.py:163-164 | looping keeps every entry a 4×4 pose |
| Trajectory.WarpedPrefix | scripts/gradio/cami2v_test.py:155-162 | inverse, prefix and optional Bézier warp give 4×4 poses, as many as the prefix length |
| Trajectory.WarpedPrefixStarts | scripts/gradio/cami2v_test.py:155-162 | the warped prefix starts at the inverse of the first world-to-camera pose, when the warp is off or its control values are not negative |
| Trajectory.TraceKeyframes | scripts/gradio/cami2v_test.py:155-164 | the keyframes are 4×4 poses: the prefix length of them, or twice that when looped |
| Trajectory.TraceStartsAtFirstCamera | scripts/gradio/cami2v_test.py:155-164 | the keyframes start at the first camera, and a looped trace also ends there, when the warp is off or its control values are not negative |
| Trajectory.RelativeTrace | scripts/gradio/cami2v_test.py:165-168 | `video_length` relative poses: the scaled relative pose of the interpolated keyframes (used for the path visualisation) |
| Trajectory.GatherRange | scripts/gradio/cami2v_test.py:203-206 | indexing with `range(video_length)` gives the whole trajectory back, in order |
| Trajectory.ConditioningTrace | scripts/gradio/cami2v_test.py:203-206 | the camera input of `get_batch_input` has `video_length` 3×4 blocks |
| Trajectory.ConditioningTraceIsInverse | scripts/gradio/cami2v_test.py:165-166 | block k, completed with `[0,0,0,1]`, is the inverse of interpolated camera k, for rigid poses |
| Trajectory.ScaleTraceKeepsRotation | scripts/gradio/cami2v_test.py:168 | translation scaling keeps the rotation block and the bottom row, scales rows 0..2 of column 3, and keeps identity poses |
| Registry.SelectedProperties | scripts/gradio/cami2v_test.py:170-184 | after selection the name is present and on the accelerator, and it is the only network there; no network present before is reloaded; an absent one is the newly loaded network |
| Registry.SelectedIdempotent | scripts/gradio/cami2v_test.py:173-183 | selecting the same name twice loads nothing the second time |
| Registry.SelectedAfterOffload | scripts/gradio/cami2v_test.py:170-183 | selection is offloading the others, loading the name if absent, then moving it to the accelerator |
| Registry.Image2Video.constructor | scripts/gradio/cami2v_test.py:67-68 | both dictionaries start empty |
| Registry.Image2Video.OffloadOthers | scripts/gradio/cami2v_test.py:170-171 | the loop moves every network other than the name to the CPU and leaves the processors alone |
| Registry.Image2Video.SelectModel | scripts/gradio/cami2v_test.py:170-184 | the new models map is the selection of the old one; a processor is added only for a newly loaded name; the two maps keep the same names; the returned pair is the stored pair |
| Checkpoint.Lookup | scripts/gradio/cami2v_test.py:92-95 | a key is found iff some entry carries it, and the found value is that entry's |
| Checkpoint.Unwrap | scripts/gradio/cami2v_test.py:91-96 | a loaded bare tensor fails at the `in` test with RuntimeError, and only a tensor does; any other failure is the missing `.items()` of a non-dictionary |
| Checkpoint.UnwrapOrder | scripts/gradio/cami2v_test.py:92-96 | `"module"` is unwrapped first, otherwise `"state_dict"`, otherwise the dictionary is used as loaded; a tensor under `"module"` fails at `.items()` |
| Checkpoint.ReplaceAbsent | scripts/gradio/cami2v_test.py:96 | `str.replace` leaves a key without the pattern unchanged |
| Checkpoint.ReplacePrefix | scripts/gradio/cami2v_test.py:96 | a leading occurrence is replaced, and replacement continues after it |
| Checkpoint.ReplaceAfterPlainPrefix | scripts/gradio/cami2v_test.py:96 | a prefix with no occurrence of the pattern starting in it is kept unchanged |
| Checkpoint.RenameExample | scripts/gradio/cami2v_test.py:96 | `framestride_embed.0.weight` becomes `fps_embedding.0.weight` |
| Checkpoint.RenameEntries | scripts/gradio/cami2v_test.py:96 | every key is renamed and every value is kept, in order |
| Checkpoint.ToMap | scripts/gradio/cami2v_test.py:96 | the dict comprehension's keys are exactly the keys of the entries |
| Checkpoint.ToMapLastWins | scripts/gradio/cami2v_test.py:96 | a key's value is that of its last entry |
| Checkpoint.RenamedStateDict | scripts/gradio/cami2v_test.py:96 | the renamed dictionary's keys are the renamed keys |
| Checkpoint.RenamedKeepsValues | scripts/gradio/cami2v_test.py:96 | renaming keeps values: each renamed key maps to its entry's value, and keys without the pattern keep their name and value |
| Checkpoint.LoadStateDict | scripts/gradio/cami2v_test.py:97-102 | the strict load succeeds iff the keys match exactly; otherwise the non-strict load partitions expected keys into loaded and missing, and given keys into loaded and unexpected |
| Checkpoint.LoadCheckpoint | scripts/gradio/cami2v_test.py:91-102 | loading fails only when the unwrap fails; otherwise it loads the renamed state dict |
| Spatial.MakeSpatialTransformAsWritten | CameraControl/data/realestate10k.py:12-32 | as written: `random_crop` raises AttributeError (`RandomCropss`), `resize_center_crop` builds the resize and crop, and any other type raises NotImplementedError |
| Spatial.ResizeCenterCrop | CameraControl/data/realestate10k.py:18-29 | Resize(min(h, w)) then CenterCrop(h, w); a square target resizes with antialias on |
| Spatial.MakeSpatialTransform | CameraControl/data/realestate10k.py:12-32 | the dispatch with `RandomCrop`: the crop for `random_crop`, the resize and crop for `resize_center_crop`, NotImplementedError otherwise |
| Spatial.AsWrittenDiffersOnlyOnRandomCrop | CameraControl/data/realestate10k.py:16-17 | the written and corrected dispatch agree on every type but `random_crop` |
| Spatial.ResizeCenterCropReaches | CameraControl/data/realestate10k.py:18-29 | resize-and-centre-crop turns a frame of any size into the target resolution; the resize brings the shorter edge to the target's shorter side |
| Spatial.SpatialTransformReachesResolution | CameraControl/data/realestate10k.py:208-214 | the resize and centre crop always reach the target resolution the later assert demands; the (corrected) random crop reaches it iff the frame is at least as large, and raises ValueError otherwise; `Sampler.FrameSize` relies on it, and through it `Sampler.SampleClipProperties` |
| Sampler.RequiredGrows | CameraControl/data/realestate10k.py:159 | `required_frame_num` is at least `video_length` and grows with the stride |
| Sampler.Candidate | CameraControl/data/realestate10k.py:149 | `max(stride - drop, 1)` is at least 1 |
| Sampler.Fallback | CameraControl/data/realestate10k.py:165-166 | the fallback `frame_num // video_length` fails iff video_length is 0, and recomputes the required span |
| Sampler.FallbackFits | CameraControl/data/realestate10k.py:165-166 | the fallback stride is 0 iff the clip is shorter than the video, and its span fits a non-empty clip |
| Sampler.SelectStrideAsWritten | CameraControl/data/realestate10k.py:146-167 | the `while True` loop as written returns the as-written stride outcome |
| Sampler.StrideRetryNeverExits | CameraControl/data/realestate10k.py:159-163 | with an int stride and a clip under half the video length, every pass retries: the loop never exits |
| Sampler.IntStrideZeroIffShort | CameraControl/data/realestate10k.py:159-167 | when the loop does end, the stride is 0 exactly when the clip has fewer frames than the video |
| Sampler.ZeroStrideExample | CameraControl/data/realestate10k.py:159-167 | stride 1, a 10-frame clip and a 16-frame video end with stride 0 |
| Sampler.IntStrideCheckedFits | CameraControl/data/realestate10k.py:147-167 | the corrected int-stride loop accepts exactly the clips with at least `video_length` frames, and then gives a stride ≥ 1 whose span fits |
| Sampler.StrideCheckedFits | CameraControl/data/realestate10k.py:147-167 | corrected selection: a chosen stride's span fits the clip, an int or range stride succeeds iff the clip is long enough (and the range is ordered), another value with a length raises NotImplementedError, and one without raises TypeError at the diagnostic `len` |
| Sampler.CheckedAgreesOnLongClips | CameraControl/data/realestate10k.py:147-167 | on clips at least as long as the video, the corrected loop is the loop as written |
| Sampler.SelectStride | CameraControl/data/realestate10k.py:146-167 | the corrected loop returns the corrected stride outcome |
| Sampler.StartIndex | CameraControl/data/realestate10k.py:170-171 | the start index lies in [0, frame_num - required] |
| Sampler.FrameIndices | CameraControl/data/realestate10k.py:172 | there are `video_length` frame indices |
| Sampler.FrameIndicesInClip | CameraControl/data/realestate10k.py:170-172 | every index lies in [0, frame_num), and they strictly increase for a stride ≥ 1 |
| Sampler.ClipFps | CameraControl/data/realestate10k.py:216 | `fps_ori // frame_stride` fails with ZeroDivisionError iff the stride is 0 |
| Sampler.ClipFpsBounds | CameraControl/data/realestate10k.py:216 | for stride ≥ 1 the fps is ⌊fps_ori / stride⌋ |
| Sampler.ReportedStride | CameraControl/data/realestate10k.py:229 | the returned `frame_stride` is the effective stride unless `frame_stride_for_condition` is non-zero |
| Sampler.NormalizePixelRange | CameraControl/data/realestate10k.py:215 | `(x/255 - 0.5) * 2` maps [0, 255] onto [-1, 1], monotonically and invertibly |
| Sampler.IntrinsicsScaleIsResizeFactor | CameraControl/data/realestate10k.py:197-202 | when target and frame have the same orientation, `scale` is the resize factor min(H, W) / min(ori_H, ori_W) |
| Sampler.IntrinsicsMatrix | CameraControl/data/realestate10k.py:221-222 | K is `[[fx, 0, cx], [0, fy, cy], [0, 0, 1]]` |
| Sampler.IntrinsicsProject | CameraControl/data/realestate10k.py:221-222 | K maps a normalised point (x, y, 1) to (fx·x + cx, fy·y + cy, 1) |
| Sampler.RescaledInPixels | CameraControl/data/realestate10k.py:197-206 | fx and fy are scaled by the frame's edge times the resize factor, and the resized shorter edge equals the target's |
| Sampler.RescaleIntrinsicsAsWritten | CameraControl/data/realestate10k.py:196-206 | as written: with `resize_center_crop`, reading the unassigned `ori_H` or `ori_W` raises NameError; otherwise the intrinsics are unchanged |
| Sampler.RescaleIntrinsics | CameraControl/data/realestate10k.py:196-206 | with `resize_center_crop` every frame's intrinsics are rescaled; otherwise they are unchanged |
| Sampler.ScaledColumn | CameraControl/data/realestate10k.py:203-206 | the in-place `*=` on one column multiplies every frame's value, or leaves the column alone |
| Sampler.RescaleIntrinsicsInPlace | CameraControl/data/realestate10k.py:196-206 | the four in-place `*=` updates give the rescaled intrinsics |
| Sampler.FrameSize | CameraControl/data/realestate10k.py:196-208 | the frame size after the spatial transform: the decoded size when none is configured (the default), NotImplementedError for an unknown kind, the target resolution for `resize_center_crop`, and for the (corrected) `random_crop` the target iff the decoded frame is at least as large, ValueError otherwise |
| Sampler.SampleClip | CameraControl/data/realestate10k.py:130-229 | the corrected sampler (see Findings): an empty metadata list fails on the modulo, a failed stride selection fails the sample, and a sample is returned only when the transformed frame has the configured resolution (the assert at :210-214) |
| Sampler.SampleClipProperties | CameraControl/data/realestate10k.py:130-229 | of the corrected sampler: the sample index is `index % len(metadata)`; `video_length` frame indices inside the clip, increasing by the chosen stride; per frame the pose of that frame's row and K built from its row's intrinsics, rescaled for `resize_center_crop`; fps is `fps_ori` floor-divided by the stride and the reported stride is the chosen or the conditioning one; once the stride fits, it succeeds iff the transformed frame has the configured resolution: always for `resize_center_crop`, AssertionError without a transform on a frame of another size, ValueError for a random crop larger than the frame |
| Sampler.RealEstate10K.constructor | CameraControl/data/realestate10k.py:102-115 | the counter starts at 0 with no global step |
| Sampler.RealEstate10K.GetItem | CameraControl/data/realestate10k.py:119-229 | the corrected `__getitem__`: the counter advances only when steps are counted; `global_step` is `counter // bs_per_gpu` or None; the sample is the corrected sampler's sample, including its transform and resolution assert |
| Patching.ApplyLinear | CameraControl/motionctrl/motionctrl.py:62 | `nn.Linear` computes one dot product plus bias per output |
| Patching.CcProjectionInit | CameraControl/motionctrl/motionctrl.py:62-66 | the projection is d × (d + pose_dim), with weight 1 exactly on the diagonal and 0 elsewhere, zero bias, trainable |
| Patching.CcProjectionIgnoresCamera | CameraControl/motionctrl/motionctrl.py:62-65 | at init, projecting the concatenation of a hidden vector h and any camera vector gives h |
| Patching.NewCcProjection | CameraControl/motionctrl/motionctrl.py:62-66 | `zeros_`, `eye_` and `zeros_` overwrite every random initial value and give the initial projection |
| Patching.PatchedDecision | CameraControl/motionctrl/motionctrl.py:45-68 | a module changes only if it is a temporal transformer, a timestep-embed sequential, or a block without context; only such a block gains the projection; patching twice is patching once |
| Patching.PatchDiffusionModel | CameraControl/motionctrl/motionctrl.py:39-68 | the UNet's forward is replaced, and every module yielded by the walk is patched by its class name |
| Conditioning.ImageMask | CameraControl/motionctrl/motionctrl.py:95 | the image mask is 0 or 1 |
| Conditioning.GuidancePartition | CameraControl/motionctrl/motionctrl.py:89-95 | the image is zeroed iff p ≤ r < 3p; [0,p) drops text only, [p,2p) both, [2p,3p) image only, [3p,∞) neither |
| Conditioning.GuidanceDraws | CameraControl/motionctrl/motionctrl.py:90-93 | one draw per batch element, all 1 without `random_uncond` |
| Conditioning.GuidanceMasks | CameraControl/motionctrl/motionctrl.py:90-95 | one prompt mask and one image mask per batch element |
| Conditioning.DeterministicKeepsEverything | CameraControl/motionctrl/motionctrl.py:92-95 | without `random_uncond`, nothing is dropped iff p ≤ 1/3 |
| Conditioning.CondFrameIndex | CameraControl/motionctrl/motionctrl.py:102-106 | a given index is used as-is; otherwise one per batch element, all 0 unless `rand_cond_frame`, and within [0, temporal_length) |
| Conditioning.CameraToWorld | CameraControl/motionctrl/motionctrl.py:135-136 | every world-to-camera pose is inverted, position by position, keeping the batch's shape |
| Conditioning.RelativePoses | CameraControl/motionctrl/motionctrl.py:139 | the relative poses have the batch's shape |
| Conditioning.ScaledWorldToCamera | CameraControl/motionctrl/motionctrl.py:140-142 | the scaled, inverted relative pose is 4×4 |
| Conditioning.FlattenedTrace | CameraControl/motionctrl/motionctrl.py:142-146 | 12 values per frame, entry 4x+y being (x, y) of the scaled inverted relative pose |
| Conditioning.CameraCondition | CameraControl/motionctrl/motionctrl.py:132-146 | the condition has one 12-vector per frame of every batch element |
| Conditioning.BuildCameraCondition | CameraControl/motionctrl/motionctrl.py:132-146 | the in-place translation scaling per batch element, then the flatten, gives the camera condition |
| Conditioning.ConditionAtReferenceFrame | CameraControl/motionctrl/motionctrl.py:139-146 | at the conditioning frame, where the relative pose is the identity, the condition is the flattened identity |
| Conditioning.ConditionDeterminesRelativePose | CameraControl/motionctrl/motionctrl.py:140-146 | the 12 values determine the relative pose: completing, inverting and unscaling by 1/s recovers it |
| Conditioning.ItemAt | CameraControl/motionctrl/motionctrl.py:150-174 | the item at each position of the output list has that rank |
| Conditioning.OutputUpToOrdered | CameraControl/motionctrl/motionctrl.py:150-174 | the list so far is in rank order, as long as the count of enabled positions, and holds only earlier positions |
| Conditioning.OutputUpToMembers | CameraControl/motionctrl/motionctrl.py:150-174 | an item is in the list so far iff its position is earlier, wanted, and it is the item for that position |
| Conditioning.OutputUpToExtends | CameraControl/motionctrl/motionctrl.py:150-174 | appending only extends: a shorter list is a prefix of a longer one |
| Conditioning.OutputHead | CameraControl/motionctrl/motionctrl.py:150 | the list starts `[z, cond]` |
| Conditioning.CountAllPositions | CameraControl/motionctrl/motionctrl.py:150-176 | all positions together count 2 plus the number of enabled flags |
| Conditioning.ExpectedOutputShape | CameraControl/motionctrl/motionctrl.py:150-176 | the output has 2 + enabled-flags items, starts `[z, cond]` and is in the fixed order |
| Conditioning.ExpectedOutputMembers | CameraControl/motionctrl/motionctrl.py:150-176 | each optional item is present iff its flag is set |
| Conditioning.AppendAt | CameraControl/motionctrl/motionctrl.py:151-174 | one `if flag: out.append(item)` step extends the list by one position |
| Conditioning.AppendRequested | CameraControl/motionctrl/motionctrl.py:150-176 | the sequence of appends gives the expected output |
| Conditioning.AssembleOutput | CameraControl/motionctrl/motionctrl.py:150-176 | `return_fs` with a frame-rate type other than `fs`/`fps` leaves `fs` unbound (UnboundLocalError); otherwise the output is the expected list with the frame-rate entry read under that key |

## Left out

- Video decoding (decord), reading the meta list, the pose files and the JSON metadata, and `torch.load`: file I/O. Their contents are inputs.
- open3d point-cloud export, video saving and the ray visualisation: I/O and rendering.
- Floating point: every quantity is a `real`. The `1e-9` clamp is kept as a constant. Float floor/ceil rounding and bit-exact results are not modelled.
- Bezier.ResampleKeepsLastPose: proved only for at most 1001 target frames and control x-values at most 1. Beyond that, the last x-bracket of the real-valued curve can be narrower than the `1e-9` clamp. With reals the last pose is then no longer exactly reached.
- Bezier.PositionAtEnd: assumes the last bracket is at least `1e-9` wide, which `LastBracketWide` establishes under the bound above.
- Bezier.ResampleKeepsFirstPose: proved only for non-negative control x-values. A negative one makes the sampled x-values dip below 0, and torch's bisection then passes over the first bracket (`NegativeControlMovesStart`).
- Bezier.PositionAtStart: assumes no sampled x-value is negative, which `XsNonneg` establishes for non-negative control values.
- Trajectory.WarpedPrefixStarts: proved when the Bézier warp is off or its control values are not negative, for the reason above.
- Trajectory.TraceStartsAtFirstCamera: the same premise on the control values.
- Bezier.ResampleBezier: its contract gives the length and the shape. What each frame is, is stated by `ResampleBlendsNeighbours`, `ResampleKeepsFirstPose` and `ResampleKeepsLastPose`. That the camera never moves backwards along the trajectory is not proved.
- The `antialias` argument of a non-square resize is left at torchvision's default. The transforms are modelled by output size only. A centre crop always yields its own size, since torchvision pads a smaller frame. A random crop does not pad by default and raises ValueError on a smaller frame.
- Spatial.ApplyAll: a transform that would leave an empty frame is reported as ValueError. The exception torchvision raises there is not modelled; the dispatch never builds such a transform for a positive resolution.
- Multiple-resolution training (a list of resolutions, `global_step % 3` and the per-step transform): only one target resolution is modelled. It is always set, so the resolution assert always runs.
- The `invert_video` frame flip and the random draw that decides it: frames themselves are not modelled, only their indices.
- The `load_raw_resolution=False` branch: the decoded frame size is an input. Its assert at `realestate10k.py:140` is inverted (it demands a clip shorter than the video). That branch is not modelled.
- `per_frame_scale`, the caption and the video path of the dataset item: read straight from files.
- A negative stride drawn from a `[min, max]` range gives indices outside the clip. The model reports these as IndexError, where Python's negative indexing would wrap.
- Sampler.RealEstate10K.constructor: the construction-time checks (`count_globalsteps` needs `bs_per_gpu`, and the dispatch must not raise) are preconditions rather than modelled exceptions.
- The encoders, the embedders, the decoder, the sampler and `get_learned_conditioning`: foreign model calls. The null-prompt cache is left out with them.
- The bodies of the replacement forwards: not part of this model. Only which forward each module is bound to is modelled.
- `nn.Linear`'s random initial weight and bias: parameters of `NewCcProjection`, all overwritten.
- The hybrid `c_concat` conditioning, including `interp_mode`, and the gather of the conditioning frame: tensor plumbing over latents.
- Conditioning.CondFrameIndex: `torch.randint(0, 0)` with a temporal length of 0 raises in torch. The model requires the draws to lie in the range instead.
- The camera condition is modelled as the value built when `enable_camera_condition` is set. When it is off, the dictionary entry is simply absent.
- `get_relative_pose` is taken as a batch-level function that keeps shapes (`ShapeKeeping`). `camera_pose_lerp` and `relative_pose` are functions that keep poses and lengths. The matrix inverse maps 4×4 to 4×4. None of their bodies are part of this model.
- `get_batch_input` of the single-image preprocessor, which turns the 3×4 world-to-camera blocks of `ConditioningTrace` into the batch: not part of this model. The cond-frame-index tensor built beside it is the index itself.
- The returned `camera_data` tensor. `chunk` returns views, so the in-place `*=` on `fx`, `fy`, `cx`, `cy` also rescales columns 1 to 4 of `camera_data`. The model's sample does not carry `camera_data`, so this aliasing is not modelled; the rescaled values are in `intrinsics`.
- Sampler.SampleClip: models the corrected program. The stride comes from the corrected selection, and `ori_H` and `ori_W` are the decoded frame size. As written, the loop can retry forever, a short clip divides by zero, and `resize_center_crop` raises NameError (see Findings).
- Sampler.SampleClipProperties: states the properties of the corrected sampler, as above.
- Sampler.RealEstate10K.GetItem: runs the same corrected program, through `SelectStride` and `RescaleIntrinsicsInPlace`. Its `Valid` checks the configured transform against the corrected dispatch, in which `random_crop` builds `RandomCrop`.
- A state dict whose tensor shapes disagree with the model makes even the non-strict load raise. Values are opaque here, so only key matching is modelled.
- Loading a network, `.to(device)`, `eval`, `requires_grad`, `autocast`, `no_grad`, `empty_cache`, `seed_everything`: device and precision plumbing. A loaded network is an input, and devices are CPU or accelerator.
- An empty pose file: the trajectory members require at least one row, since `get_image` indexes its first pose.

## Findings

| source | as written | input that shows it | evidently intended | confidence | as-written member | corrected member |
|---|---|---|---|---|---|---|
| CameraControl/data/realestate10k.py:159-163 | with an int stride the loop retries while `frame_num < 0.5 * required_frame_num`; the stride stops dropping at 1, so a clip under half the video length retries forever | `frame_stride=4`, 7 frames, `video_length=16` | stop retrying at stride 1 and reject the clip | not executed; follows from the loop as written | Sampler.StrideRetryNeverExits | Sampler.IntStrideCheckedFits |
| CameraControl/data/realestate10k.py:165, 216 | the fallback `frame_num // video_length` is 0 for a clip shorter than the video, and `fps_ori // frame_stride` then divides by zero | `frame_stride=1`, 10 frames, `video_length=16` | reject a clip shorter than `video_length` | not executed; follows from the arithmetic | Sampler.ZeroStrideExample | Sampler.StrideCheckedFits |
| CameraControl/data/realestate10k.py:197-204 | `ori_H` and `ori_W` are read but never assigned, so `resize_center_crop` raises NameError | any sample with `spatial_transform="resize_center_crop"` | the decoded frame's height and width | not executed; the names have no binding in the file | Sampler.RescaleIntrinsicsAsWritten | Sampler.RescaledInPixels |
| CameraControl/data/realestate10k.py:16-17 | `transforms.RandomCropss` is not a torchvision class, so `random_crop` raises AttributeError | `type="random_crop"` | `transforms.RandomCrop(resolution)` | not executed; the attribute does not exist in torchvision | Spatial.MakeSpatialTransformAsWritten | Spatial.SpatialTransformReachesResolution |
