/**
 * `make_spatial_transformations` of the RealEstate10K dataset: the
 * torchvision transforms applied to every clip, chosen by transform type and
 * target resolution [h, w].
 */
module Spatial {
  import opened Runtime

  /** The torchvision transforms used; `Resize` with one size matches the shorter edge to it. */
  datatype Transform =
    | Resize(size: int, antialias: Option<bool>)
    | CenterCrop(height: int, width: int)
    | RandomCrop(height: int, width: int)

  /**
   * `make_spatial_transformations(resolution, type)` as written: the
   * `random_crop` branch names `transforms.RandomCropss`, which torchvision
   * does not have, so it raises `AttributeError` instead of building a crop.
   */
  function MakeSpatialTransformAsWritten(height: int, width: int, kind: string): (r: Result<seq<Transform>>)
    ensures kind == "random_crop" ==> r == Err(AttributeError("RandomCropss"))
    ensures kind == "resize_center_crop" ==> r.Ok?
    ensures kind != "random_crop" && kind != "resize_center_crop" ==> r == Err(NotImplementedError)
  {
    if kind == "random_crop" then Err(AttributeError("RandomCropss"))
    else if kind == "resize_center_crop" then Ok(ResizeCenterCrop(height, width))
    else Err(NotImplementedError)
  }

  /** The `resize_center_crop` branch: a square target keeps `antialias=True` on its resize. */
  function ResizeCenterCrop(height: int, width: int): (ts: seq<Transform>)
    ensures |ts| == 2 && ts[0].Resize? && ts[1] == CenterCrop(height, width)
    ensures ts[0].size == Runtime.Min(height, width)
    ensures ts[0].antialias == if height == width then Some(true) else None
  {
    if height == width then [Resize(height, Some(true)), CenterCrop(height, height)]
    else [Resize(Runtime.Min(height, width), None), CenterCrop(height, width)]
  }

  /**
   * `make_spatial_transformations` with the crop class it evidently means:
   * `random_crop` gives one random crop to the target size.
   */
  function MakeSpatialTransform(height: int, width: int, kind: string): (r: Result<seq<Transform>>)
    ensures kind == "random_crop" ==> r == Ok([RandomCrop(height, width)])
    ensures kind == "resize_center_crop" ==> r == Ok(ResizeCenterCrop(height, width))
    ensures kind != "random_crop" && kind != "resize_center_crop" ==> r == Err(NotImplementedError)
  {
    if kind == "random_crop" then Ok([RandomCrop(height, width)])
    else if kind == "resize_center_crop" then Ok(ResizeCenterCrop(height, width))
    else Err(NotImplementedError)
  }

  /** The two versions differ only on `random_crop`. */
  lemma AsWrittenDiffersOnlyOnRandomCrop(height: int, width: int, kind: string)
    ensures kind != "random_crop" ==> MakeSpatialTransformAsWritten(height, width, kind) == MakeSpatialTransform(height, width, kind)
    ensures MakeSpatialTransformAsWritten(height, width, "random_crop").Err?
    ensures MakeSpatialTransform(height, width, "random_crop").Ok?
  {
  }

  /**
   * Frame size (height, width) after one transform. `CenterCrop` pads a
   * smaller frame, so it always yields its own size; `RandomCrop` does not
   * pad by default and raises `ValueError` when the crop is larger than the
   * frame.
   */
  function Apply(t: Transform, h: nat, w: nat): (hw: Result<(int, int)>)
    requires 1 <= h && 1 <= w
  {
    match t
    case Resize(s, _) =>
      if h <= w then Ok((s, Trunc(s as real * (w as real / h as real)))) else Ok((Trunc(s as real * (h as real / w as real)), s))
    case CenterCrop(ch, cw) => Ok((ch, cw))
    case RandomCrop(ch, cw) => if h < ch || w < cw then Err(ValueError) else Ok((ch, cw))
  }

  /** Frame size after a sequence of transforms: the first error, or `ValueError` once a size is no longer positive. */
  function ApplyAll(ts: seq<Transform>, h: nat, w: nat): Result<(int, int)>
    requires 1 <= h && 1 <= w
    decreases |ts|
  {
    if |ts| == 0 then Ok((h, w))
    else
      match Apply(ts[0], h, w)
      case Err(e) => Err(e)
      case Ok((h2, w2)) => if h2 < 1 || w2 < 1 then Err(ValueError) else ApplyAll(ts[1..], h2, w2)
  }

  /** The longer edge over the shorter one is at least 1. */
  lemma RatioAtLeastOne(short: nat, long: nat)
    requires 1 <= short <= long
    ensures 1.0 <= long as real / short as real
  {
    var q := long as real / short as real;
    assert q * short as real == long as real;
  }

  /**
   * The resize-and-centre-crop transform turns a frame of any size into a
   * frame of the target resolution, its resize matching the shorter edge to
   * the shorter side of the target.
   */
  lemma ResizeCenterCropReaches(height: int, width: int, h: nat, w: nat)
    requires 1 <= height && 1 <= width && 1 <= h && 1 <= w
    ensures ApplyAll(ResizeCenterCrop(height, width), h, w) == Ok((height, width))
    ensures var first := Apply(ResizeCenterCrop(height, width)[0], h, w);
            first.Ok? && Runtime.Min(first.value.0, first.value.1) == Runtime.Min(height, width)
  {
    var ts := ResizeCenterCrop(height, width);
    var s := Runtime.Min(height, width);
    var first := Apply(ts[0], h, w);
    var (h1, w1) := first.value;
    if h <= w {
      RatioAtLeastOne(h, w);
      TruncOfStretch(s, w as real / h as real);
      assert h1 == s <= w1;
    } else {
      RatioAtLeastOne(w, h);
      TruncOfStretch(s, h as real / w as real);
      assert w1 == s <= h1;
    }
    assert 1 <= h1 && 1 <= w1;
    assert ApplyAll(ts[1..], h1, w1) == Ok((height, width));
  }

  /**
   * Every transform the dispatch builds turns a frame into one of the target
   * resolution, which is what `__getitem__` asserts afterwards: the resize
   * and centre crop always, its resize matching the shorter edge to the
   * shorter side of the target; the random crop exactly when the frame is at
   * least as large as the target, raising `ValueError` otherwise.
   */
  lemma SpatialTransformReachesResolution(height: int, width: int, kind: string, h: nat, w: nat)
    requires 1 <= height && 1 <= width && 1 <= h && 1 <= w
    requires MakeSpatialTransform(height, width, kind).Ok?
    ensures kind == "resize_center_crop" ==>
              ApplyAll(MakeSpatialTransform(height, width, kind).value, h, w) == Ok((height, width))
    ensures kind == "resize_center_crop" ==>
              var first := Apply(MakeSpatialTransform(height, width, kind).value[0], h, w);
              first.Ok? && Runtime.Min(first.value.0, first.value.1) == Runtime.Min(height, width)
    ensures kind == "random_crop" ==>
              ApplyAll(MakeSpatialTransform(height, width, kind).value, h, w) ==
                if height <= h && width <= w then Ok((height, width)) else Err(ValueError)
  {
    if kind == "resize_center_crop" {
      ResizeCenterCropReaches(height, width, h, w);
    } else if kind == "random_crop" {
      var ts := [RandomCrop(height, width)];
      assert ts[1..] == [];
    }
  }
}
