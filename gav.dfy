/** The data shared by the BVH-to-GAV converter and its decoder: the parser's per-joint
    pose samples, ndarray's three-dimensional array in row-major (C) order, and the decoded
    `Animation`. */
module Gav {
  import opened Common

  /** A parser quaternion: scalar part `s` and vector part `v`. */
  datatype Quaternion = Quaternion(s: real, v: Vec3)

  /** The parser's `BvhData`: per joint, one local position and one local rotation per
      frame. Only the root's positions (joint 0) are read. */
  datatype BvhData = BvhData(poseLocalPositions: seq<seq<Vec3>>, poseLocalRotations: seq<seq<Quaternion>>)

  /** The kinds of ndarray's `ShapeError` a reshape of a plain buffer can give: the shape
      needs more elements than the buffer holds (`OutOfBounds`), or the buffer holds more
      than the shape needs (`IncompatibleShape`). */
  datatype ShapeError = IncompatibleShape | OutOfBounds

  /** An `anyhow::Error`; the decoder never produces one. */
  datatype AnyError = AnyError(message: string)

  datatype RawArray3 = RawArray3(dim0: nat, dim1: nat, dim2: nat, elems: seq<real>)

  /** An `Array3<f32>`: elements in row-major order, the last index varying fastest. */
  type Array3 = a: RawArray3 | |a.elems| == a.dim0 * a.dim1 * a.dim2
    witness RawArray3(0, 0, 0, [])

  /** Multiplying by a natural number keeps the order. */
  lemma MulMonotone(a: nat, b: nat, c: nat)
    requires a <= b
    ensures a * c <= b * c
  {
    var d := b - a;
    assert b * c == a * c + d * c;
  }

  /** The row-major position of element `[i, j, k]` lies inside the buffer. */
  lemma IndexInRange(d0: nat, d1: nat, d2: nat, i: nat, j: nat, k: nat)
    requires i < d0 && j < d1 && k < d2
    ensures 0 <= (i * d1 + j) * d2 + k < d0 * d1 * d2
  {
    var row := i * d1 + j;
    MulMonotone(i + 1, d0, d1);
    assert (i + 1) * d1 == i * d1 + d1;
    assert row + 1 <= d0 * d1;
    MulMonotone(row + 1, d0 * d1, d2);
    assert (row + 1) * d2 == row * d2 + d2;
    assert d0 * d1 * d2 == (d0 * d1) * d2;
  }

  /** Element `a[[i, j, k]]`. */
  function At(a: Array3, i: nat, j: nat, k: nat): real
    requires i < a.dim0 && j < a.dim1 && k < a.dim2
  {
    IndexInRange(a.dim0, a.dim1, a.dim2, i, j, k);
    a.elems[(i * a.dim1 + j) * a.dim2 + k]
  }

  /** `Array3::from_shape_vec`: the buffer read in row-major order, provided its length is
      the number of elements of the shape. The shape is first checked against the buffer
      (too few elements is `OutOfBounds`) and then the lengths are compared (too many is
      `IncompatibleShape`). */
  function FromShapeVec(d0: nat, d1: nat, d2: nat, data: seq<real>): (r: Outcome<Array3, ShapeError>)
    ensures r.Ok? <==> |data| == d0 * d1 * d2
    ensures r.Ok? ==> r.value.dim0 == d0 && r.value.dim1 == d1 && r.value.dim2 == d2 && r.value.elems == data
    ensures r.Err? <==> !r.Ok?
    ensures r == Err(OutOfBounds) <==> |data| < d0 * d1 * d2
    ensures r == Err(IncompatibleShape) <==> |data| > d0 * d1 * d2
  {
    if d0 * d1 * d2 > |data| then Err(OutOfBounds)
    else if |data| == d0 * d1 * d2 then Ok(RawArray3(d0, d1, d2, data))
    else Err(IncompatibleShape)
  }

  /** The decoded animation: root positions and, per joint, its rotations. */
  datatype Animation = Animation(rootPositions: seq<Vec3>, jointRotations: seq<seq<Quat>>) {
    /** `Animation::joint_count`. */
    function JointCount(): nat {
      |jointRotations|
    }

    /** `Animation::frame_count`. */
    function FrameCount(): nat {
      |rootPositions|
    }
  }

  /** Component `k` (x, y, z) of a vector. */
  function Component(v: Vec3, k: nat): real
    requires k < 3
  {
    if k == 0 then v.x else if k == 1 then v.y else v.z
  }
}
