/**
 * The set-up of `MotionCtrl.__init__`: the diffusion UNet's forward is
 * replaced, and the walk over its submodules rebinds the forwards of the
 * temporal transformers, the timestep-embedding sequentials and the
 * self-attention-only transformer blocks, giving each such block a camera
 * projection `cc_projection` initialised so that it ignores the camera.
 *
 * The replacement forwards themselves are not part of this model; only which
 * one a module is bound to is.
 */
module Patching {
  import opened Runtime
  import opened Pose

  /** The forward a module is bound to. */
  datatype Forward =
    | Original
    | UnetForward
    | TemporalTransformerForward
    | TimestepEmbedSequentialForward
    | BlockForward
    | BlockInnerForward

  /** An `nn.Linear`: weight (out × in), bias (out) and whether it is trained. */
  datatype Linear = Linear(weight: Mat, bias: seq<real>, trainable: bool)

  /** `linear(x) = W x + b`. */
  function ApplyLinear(l: Linear, x: seq<real>): (y: seq<real>)
    requires |l.weight| == |l.bias| && forall i :: 0 <= i < |l.weight| ==> |l.weight[i]| == |x|
    ensures |y| == |l.bias|
    ensures forall i :: 0 <= i < |y| ==> y[i] == Dot(l.weight[i], x) + l.bias[i]
  {
    seq(|l.bias|, i requires 0 <= i < |l.bias| => Dot(l.weight[i], x) + l.bias[i])
  }

  /** Row `i` of the d×n identity-plus-zero weight. */
  function UnitRow(i: int, n: nat): (r: seq<real>)
    ensures |r| == n
  {
    seq(n, j => if i == j then 1.0 else 0.0)
  }

  /**
   * The `cc_projection` right after initialisation: `d + poseDim` inputs, `d`
   * outputs, weight zero except the leading d×d identity, bias zero, trained.
   */
  function CcProjectionInit(d: nat, poseDim: nat): (l: Linear)
    ensures IsMat(l.weight, d, d + poseDim) && |l.bias| == d && l.trainable
    ensures forall i, j :: 0 <= i < d && 0 <= j < d + poseDim ==> l.weight[i][j] == if i == j then 1.0 else 0.0
    ensures forall i :: 0 <= i < d ==> l.bias[i] == 0.0
  {
    Linear(seq(d, i => UnitRow(i, d + poseDim)), seq(d, i => 0.0), true)
  }

  /** A unit row picks one entry out of the vector. */
  lemma {:induction false} DotUnitRow(i: nat, v: seq<real>)
    requires i < |v|
    ensures Dot(UnitRow(i, |v|), v) == v[i]
    decreases |v|
  {
    var n := |v|;
    var u := UnitRow(i, n);
    assert u[..n - 1] == UnitRow(i, n - 1);
    if i < n - 1 {
      DotUnitRow(i, v[..n - 1]);
    } else {
      DotZeroRow(i, v[..n - 1]);
    }
  }

  /** A unit row whose one lies beyond the vector contributes nothing. */
  lemma {:induction false} DotZeroRow(i: nat, v: seq<real>)
    requires |v| <= i
    ensures Dot(UnitRow(i, |v|), v) == 0.0
    decreases |v|
  {
    if |v| > 0 {
      var n := |v|;
      assert UnitRow(i, n)[..n - 1] == UnitRow(i, n - 1);
      DotZeroRow(i, v[..n - 1]);
    }
  }

  /**
   * At initialisation the camera channels contribute nothing: for every
   * hidden vector `h` and every camera vector `c`, the projection of their
   * concatenation is `h`.
   */
  lemma CcProjectionIgnoresCamera(d: nat, poseDim: nat, h: seq<real>, c: seq<real>)
    requires |h| == d && |c| == poseDim
    ensures ApplyLinear(CcProjectionInit(d, poseDim), h + c) == h
  {
    var l := CcProjectionInit(d, poseDim);
    var y := ApplyLinear(l, h + c);
    forall i | 0 <= i < d ensures y[i] == h[i] {
      assert l.weight[i] == UnitRow(i, |h + c|);
      DotUnitRow(i, h + c);
    }
  }

  /**
   * `nn.Linear(d + poseDim, d)` followed by `zeros_` on the weight, `eye_` on
   * its leading d×d block and `zeros_` on the bias. The layer's own random
   * initial values are `initWeight` and `initBias`; every one of them is
   * overwritten.
   */
  method NewCcProjection(d: nat, poseDim: nat, initWeight: (int, int) -> real, initBias: int -> real) returns (l: Linear)
    ensures l == CcProjectionInit(d, poseDim)
  {
    var n := d + poseDim;
    var w := new real[d, n]((i, j) => initWeight(i, j));
    var b := new real[d](i => initBias(i));
    for i := 0 to d
      invariant forall p, q :: 0 <= p < i && 0 <= q < n ==> w[p, q] == 0.0
    {
      for j := 0 to n
        invariant forall p, q :: 0 <= p < i && 0 <= q < n ==> w[p, q] == 0.0
        invariant forall q :: 0 <= q < j ==> w[i, q] == 0.0
      {
        w[i, j] := 0.0;
      }
    }
    for i := 0 to d
      invariant forall p, q :: 0 <= p < d && 0 <= q < n ==> w[p, q] == if p < i && p == q then 1.0 else 0.0
    {
      for j := 0 to d
        invariant forall p, q :: 0 <= p < d && 0 <= q < n ==> w[p, q] == if (p < i || (p == i && q < j)) && p == q then 1.0 else 0.0
      {
        w[i, j] := if i == j then 1.0 else 0.0;
      }
    }
    for i := 0 to d
      modifies b
      invariant forall p :: 0 <= p < i ==> b[p] == 0.0
    {
      b[i] := 0.0;
    }
    var weight := seq(d, i requires 0 <= i < d reads w => seq(n, j requires 0 <= j < n reads w => w[i, j]));
    l := Linear(weight, b[..], true);
    var expected := CcProjectionInit(d, poseDim);
    forall i | 0 <= i < d ensures weight[i] == expected.weight[i] {
      assert |weight[i]| == |expected.weight[i]| == n;
      forall j | 0 <= j < n ensures weight[i][j] == expected.weight[i][j] {
        assert weight[i][j] == w[i, j];
      }
    }
    assert b[..] == expected.bias;
  }

  /** The part of a module that the walk may change. */
  datatype ModuleState = ModuleState(forward: Forward, innerForward: Forward, ccProjection: Option<Linear>)

  /**
   * What the walk does to one module, by class name: temporal transformers
   * and timestep-embedding sequentials get a new forward; a transformer
   * block without cross-attention context gets new `forward` and `_forward`
   * and a fresh `cc_projection`; anything else is left alone.
   */
  function Patched(kind: string, contextDim: Option<int>, keyInFeatures: nat, poseDim: nat, s: ModuleState): (r: ModuleState)
  {
    if kind == "TemporalTransformer" then s.(forward := TemporalTransformerForward)
    else if kind == "TimestepEmbedSequential" then s.(forward := TimestepEmbedSequentialForward)
    else if kind == "BasicTransformerBlock" && contextDim.None? then
      ModuleState(BlockForward, BlockInnerForward, Some(CcProjectionInit(keyInFeatures, poseDim)))
    else s
  }

  /**
   * The walk's decision: a module changes only when it is one of the three
   * patched classes (a block only without context), a projection is added
   * exactly to self-attention-only blocks, and patching twice is patching
   * once.
   */
  lemma PatchedDecision(kind: string, contextDim: Option<int>, d: nat, poseDim: nat, s: ModuleState)
    ensures Patched(kind, contextDim, d, poseDim, s) != s ==>
              kind in {"TemporalTransformer", "TimestepEmbedSequential"} || (kind == "BasicTransformerBlock" && contextDim.None?)
    ensures kind !in {"TemporalTransformer", "TimestepEmbedSequential", "BasicTransformerBlock"} ==> Patched(kind, contextDim, d, poseDim, s) == s
    ensures kind == "BasicTransformerBlock" && contextDim.Some? ==> Patched(kind, contextDim, d, poseDim, s) == s
    ensures kind == "BasicTransformerBlock" ==>
              (Patched(kind, contextDim, d, poseDim, s).ccProjection == Some(CcProjectionInit(d, poseDim)) <==> contextDim.None? || s.ccProjection == Some(CcProjectionInit(d, poseDim)))
    ensures Patched(kind, contextDim, d, poseDim, Patched(kind, contextDim, d, poseDim, s)) == Patched(kind, contextDim, d, poseDim, s)
  {
  }

  class NetModule {
    /** `_module.__class__.__name__`. */
    const kind: string
    /** `context_dim` of a transformer block. */
    const contextDim: Option<int>
    /** `attn2.to_k.in_features` of a transformer block. */
    const keyInFeatures: nat
    var forward: Forward
    var innerForward: Forward
    var ccProjection: Option<Linear>

    constructor (kind: string, contextDim: Option<int>, keyInFeatures: nat)
      ensures this.kind == kind && this.contextDim == contextDim && this.keyInFeatures == keyInFeatures
      ensures forward == Original && innerForward == Original && ccProjection == None
    {
      this.kind := kind;
      this.contextDim := contextDim;
      this.keyInFeatures := keyInFeatures;
      forward := Original;
      innerForward := Original;
      ccProjection := None;
    }

    function State(): ModuleState
      reads this
    {
      ModuleState(forward, innerForward, ccProjection)
    }
  }

  /**
   * `MotionCtrl.__init__` after the base class: bind the UNet's new forward,
   * then walk `named_modules()`, which yields the UNet itself first and then
   * every submodule, and patch each one by its class name.
   */
  method PatchDiffusionModel(modules: seq<NetModule>, poseDim: nat, initWeight: (int, int) -> real, initBias: int -> real)
    requires 1 <= |modules|
    requires forall i, j :: 0 <= i < j < |modules| ==> modules[i] != modules[j]
    modifies set i | 0 <= i < |modules| :: modules[i]
    ensures modules[0].State() == Patched(modules[0].kind, modules[0].contextDim, modules[0].keyInFeatures, poseDim,
                                          old(modules[0].State()).(forward := UnetForward))
    ensures forall i :: 1 <= i < |modules| ==>
              modules[i].State() == Patched(modules[i].kind, modules[i].contextDim, modules[i].keyInFeatures, poseDim, old(modules[i].State()))
  {
    modules[0].forward := UnetForward;
    for k := 0 to |modules|
      invariant forall i :: 0 <= i < |modules| ==>
                  modules[i].State() ==
                    var start := if i == 0 then old(modules[0].State()).(forward := UnetForward) else old(modules[i].State());
                    if i < k then Patched(modules[i].kind, modules[i].contextDim, modules[i].keyInFeatures, poseDim, start) else start
    {
      var m := modules[k];
      if m.kind == "TemporalTransformer" {
        m.forward := TemporalTransformerForward;
      } else if m.kind == "TimestepEmbedSequential" {
        m.forward := TimestepEmbedSequentialForward;
      } else if m.kind == "BasicTransformerBlock" {
        if m.contextDim.None? {
          m.forward := BlockForward;
          m.innerForward := BlockInnerForward;
          var projection := NewCcProjection(m.keyInFeatures, poseDim, initWeight, initBias);
          m.ccProjection := Some(projection);
        }
      }
    }
  }
}
