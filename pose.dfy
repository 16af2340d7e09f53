/**
 * Camera poses as matrices of reals, and the elementwise operations that the
 * trajectory policy, the clip sampler and the camera condition share:
 * `torch.lerp`, the translation-only scaling of a relative pose, the
 * homogeneous completion of a 3×4 [R|t] block and its row-major flatten.
 */
module Pose {

  type Mat = seq<seq<real>>

  /** `m` has `rows` rows of `cols` entries each. */
  predicate IsMat(m: Mat, rows: nat, cols: nat)
  {
    |m| == rows && forall i :: 0 <= i < rows ==> |m[i]| == cols
  }

  predicate AllPoses(ps: seq<Mat>)
  {
    forall k :: 0 <= k < |ps| ==> IsMat(ps[k], 4, 4)
  }

  const BottomRow: seq<real> := [0.0, 0.0, 0.0, 1.0]

  /** The n×n identity matrix. */
  function Identity(n: nat): (m: Mat)
    ensures IsMat(m, n, n)
    ensures forall i, j :: 0 <= i < n && 0 <= j < n ==> m[i][j] == if i == j then 1.0 else 0.0
  {
    seq(n, i => seq(n, j => if i == j then 1.0 else 0.0))
  }

  /** `torch.lerp(a, b, w)`. */
  function Lerp(a: real, b: real, w: real): (r: real)
    ensures w == 0.0 ==> r == a
    ensures w == 1.0 ==> r == b
    ensures a == b ==> r == a
  {
    a + w * (b - a)
  }

  /** A weight in [0, 1] times a non-negative distance lies between 0 and that distance. */
  lemma WeightedDistance(w: real, d: real)
    requires 0.0 <= w <= 1.0 && 0.0 <= d
    ensures 0.0 <= w * d <= d
  {
    assert (1.0 - w) * d >= 0.0;
  }

  /** With a weight in [0, 1], `torch.lerp` stays between its two ends. */
  lemma LerpBetween(a: real, b: real, w: real)
    requires 0.0 <= w <= 1.0
    ensures a <= b ==> a <= Lerp(a, b, w) <= b
    ensures b <= a ==> b <= Lerp(a, b, w) <= a
  {
    var d := b - a;
    assert Lerp(a, b, w) == a + w * d;
    if a <= b {
      WeightedDistance(w, d);
    } else {
      WeightedDistance(w, -d);
      assert w * (-d) == -(w * d);
    }
  }

  predicate SameShape(a: Mat, b: Mat)
  {
    |a| == |b| && forall i :: 0 <= i < |a| ==> |a[i]| == |b[i]|
  }

  /** `torch.lerp` on two matrices of the same shape, entry by entry. */
  function LerpMat(a: Mat, b: Mat, w: real): (r: Mat)
    requires SameShape(a, b)
    ensures SameShape(r, a)
    ensures forall i, j :: 0 <= i < |a| && 0 <= j < |a[i]| ==> r[i][j] == Lerp(a[i][j], b[i][j], w)
  {
    seq(|a|, i requires 0 <= i < |a| => seq(|a[i]|, j requires 0 <= j < |a[i]| => Lerp(a[i][j], b[i][j], w)))
  }

  /** Interpolating a matrix with itself gives it back, whatever the weight. */
  lemma LerpMatSame(a: Mat, w: real)
    ensures SameShape(a, a) && LerpMat(a, a, w) == a
  {
    var r := LerpMat(a, a, w);
    assert |r| == |a|;
    forall i | 0 <= i < |a| ensures r[i] == a[i] {
      assert |r[i]| == |a[i]|;
    }
  }

  /**
   * `m[:3, 3] * s` written back into `m`: the three translation entries of a
   * 4×4 pose are scaled, the rotation block and the bottom row are kept.
   */
  function ScaleTranslation(m: Mat, s: real): (r: Mat)
    requires IsMat(m, 4, 4)
    ensures IsMat(r, 4, 4)
    ensures forall i, j :: 0 <= i < 4 && 0 <= j < 4 ==>
              r[i][j] == if i < 3 && j == 3 then s * m[i][j] else m[i][j]
  {
    seq(4, i requires 0 <= i < 4 => if i < 3 then m[i][..3] + [s * m[i][3]] else m[i])
  }

  /** Two entrywise-equal 4×4 matrices are equal. */
  lemma MatExt(a: Mat, b: Mat)
    requires IsMat(a, 4, 4) && IsMat(b, 4, 4)
    requires forall i, j :: 0 <= i < 4 && 0 <= j < 4 ==> a[i][j] == b[i][j]
    ensures a == b
  {
    forall i | 0 <= i < 4 ensures a[i] == b[i] {
      assert |a[i]| == |b[i]| == 4;
    }
  }

  /** Scaling by `a` and then by `b` is scaling by `a * b`. */
  lemma ScaleTranslationCompose(m: Mat, a: real, b: real)
    requires IsMat(m, 4, 4)
    ensures ScaleTranslation(ScaleTranslation(m, a), b) == ScaleTranslation(m, a * b)
  {
    var l, r := ScaleTranslation(ScaleTranslation(m, a), b), ScaleTranslation(m, a * b);
    forall i, j | 0 <= i < 4 && 0 <= j < 4 ensures l[i][j] == r[i][j] {
      if i < 3 && j == 3 {
        assert l[i][j] == b * (a * m[i][j]);
      }
    }
    MatExt(l, r);
  }

  /** A non-zero scale is undone by its reciprocal. */
  lemma ScaleTranslationInverse(m: Mat, s: real)
    requires IsMat(m, 4, 4) && s != 0.0
    ensures ScaleTranslation(ScaleTranslation(m, s), 1.0 / s) == m
  {
    var inv := 1.0 / s;
    ScaleTranslationCompose(m, s, inv);
    assert s * inv == 1.0;
    var r := ScaleTranslation(m, s * inv);
    forall i, j | 0 <= i < 4 && 0 <= j < 4 ensures r[i][j] == m[i][j] { }
    MatExt(r, m);
  }

  /** A pose without translation, the identity of a relative trajectory's
      reference frame among them, is not changed by any scale. */
  lemma ScaleTranslationKeepsIdentity(s: real)
    ensures ScaleTranslation(Identity(4), s) == Identity(4)
  {
    var r, e := ScaleTranslation(Identity(4), s), Identity(4);
    forall i, j | 0 <= i < 4 && 0 <= j < 4 ensures r[i][j] == e[i][j] { }
    MatExt(r, e);
  }

  /** `rel[:, :3, 3] = rel[:, :3, 3] * s` over a whole trajectory. */
  function ScaleTrace(ps: seq<Mat>, s: real): (r: seq<Mat>)
    requires AllPoses(ps)
    ensures |r| == |ps| && AllPoses(r)
  {
    seq(|ps|, k requires 0 <= k < |ps| => ScaleTranslation(ps[k], s))
  }

  /**
   * The slice assignment `rel[:, :3, 3] = rel[:, :3, 3] * s`, done in place on
   * the array of poses.
   */
  method ScaleTraceInPlace(ps: array<Mat>, s: real)
    requires AllPoses(ps[..])
    modifies ps
    ensures ps[..] == ScaleTrace(old(ps[..]), s)
  {
    ghost var was := ps[..];
    for k := 0 to ps.Length
      invariant forall i :: 0 <= i < k ==> ps[i] == ScaleTranslation(was[i], s)
      invariant forall i :: k <= i < ps.Length ==> ps[i] == was[i]
    {
      ps[k] := ScaleTranslation(ps[k], s);
    }
  }

  /** The 4×4 pose made from a 3×4 [R|t] block by appending [0, 0, 0, 1]. */
  function Homogeneous(top: Mat): (m: Mat)
    requires IsMat(top, 3, 4)
    ensures IsMat(m, 4, 4) && m[3] == BottomRow
    ensures forall i, j :: 0 <= i < 3 && 0 <= j < 4 ==> m[i][j] == top[i][j]
  {
    top + [BottomRow]
  }

  /** At least three rows, each with at least four entries. */
  predicate HasTop3x4(m: Mat)
  {
    |m| >= 3 && forall i :: 0 <= i < 3 ==> |m[i]| >= 4
  }

  /** `rearrange(m[:3, :4], 'x y -> (x y)')`: the row-major flatten of the top 3×4 block. */
  function Flatten3x4(m: Mat): (v: seq<real>)
    requires HasTop3x4(m)
    ensures |v| == 12
    ensures forall x, y :: 0 <= x < 3 && 0 <= y < 4 ==> v[4 * x + y] == m[x][y]
  {
    m[0][..4] + m[1][..4] + m[2][..4]
  }

  /** `reshape(3, 4)` of twelve values, row by row. */
  function Unflatten3x4(v: seq<real>): (m: Mat)
    requires |v| == 12
    ensures IsMat(m, 3, 4)
  {
    [v[0..4], v[4..8], v[8..12]]
  }

  /** Reshaping twelve values and flattening them again gives them back. */
  lemma FlattenUnflatten(v: seq<real>)
    requires |v| == 12
    ensures Flatten3x4(Unflatten3x4(v)) == v
  {
    var m := Unflatten3x4(v);
    assert m[0][..4] == v[0..4] && m[1][..4] == v[4..8] && m[2][..4] == v[8..12];
    assert v == v[0..4] + v[4..8] + v[8..12];
  }

  /** Flattening the top block of a pose and reshaping it recovers that block. */
  lemma UnflattenFlatten(m: Mat)
    requires IsMat(m, 4, 4)
    ensures Unflatten3x4(Flatten3x4(m)) == m[..3]
  {
    var v := Flatten3x4(m);
    var u := Unflatten3x4(v);
    forall x | 0 <= x < 3 ensures u[x] == m[x] {
      forall y | 0 <= y < 4 ensures u[x][y] == m[x][y] {
        assert u[x][y] == v[4 * x + y];
      }
    }
  }

  /** The flattened [R|t] block of the identity pose. */
  lemma FlattenIdentity()
    ensures Flatten3x4(Identity(4)) == [1.0, 0.0, 0.0, 0.0, 0.0, 1.0, 0.0, 0.0, 0.0, 0.0, 1.0, 0.0]
  {
    var v, e := Flatten3x4(Identity(4)), [1.0, 0.0, 0.0, 0.0, 0.0, 1.0, 0.0, 0.0, 0.0, 0.0, 1.0, 0.0];
    forall k | 0 <= k < 12 ensures v[k] == e[k] {
      assert v[4 * (k / 4) + k % 4] == Identity(4)[k / 4][k % 4];
    }
  }

  /** The dot product of two vectors of the same length. */
  function Dot(u: seq<real>, v: seq<real>): real
    requires |u| == |v|
  {
    if |u| == 0 then 0.0 else Dot(u[..|u| - 1], v[..|v| - 1]) + u[|u| - 1] * v[|v| - 1]
  }

  /** The matrix–vector product `m @ v`. */
  function MatVec(m: Mat, v: seq<real>): (r: seq<real>)
    requires forall i :: 0 <= i < |m| ==> |m[i]| == |v|
    ensures |r| == |m|
    ensures forall i :: 0 <= i < |m| ==> r[i] == Dot(m[i], v)
  {
    seq(|m|, i requires 0 <= i < |m| => Dot(m[i], v))
  }

  /**
   * Each row of a pose file holds 19 numbers: a timestamp, the four
   * normalised intrinsics fx, fy, cx, cy, two unused values, then the
   * row-major 3×4 world-to-camera [R|t] block.
   */
  const RowWidth: nat := 19

  /** `camera_data[:, 7:].reshape(-1, 3, 4)` followed by appending the row [0, 0, 0, 1]. */
  function PosesFromRows(rows: seq<seq<real>>): (w2cs: seq<Mat>)
    requires forall k :: 0 <= k < |rows| ==> |rows[k]| == RowWidth
    ensures |w2cs| == |rows| && AllPoses(w2cs)
    ensures forall k :: 0 <= k < |rows| ==> w2cs[k][3] == BottomRow
    ensures forall k, x, y :: 0 <= k < |rows| && 0 <= x < 3 && 0 <= y < 4 ==> w2cs[k][x][y] == rows[k][7 + 4 * x + y]
  {
    seq(|rows|, k requires 0 <= k < |rows| => Homogeneous(Unflatten3x4(rows[k][7..])))
  }
}
