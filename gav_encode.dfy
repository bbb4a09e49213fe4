/** `bvh_to_gav`: the root's positions, then every joint's rotations reduced to their vector
    part, each sample cast to `f32` and flattened to three numbers, read into an array of
    shape (joints + 1, frames, 3). The cast is the parameter `toF32`. */
module GavEncode {
  import opened Common
  import opened Gav

  /** Three samples per vector, in order, each cast. */
  function Samples(vs: seq<Vec3>, toF32: real -> real): (r: seq<real>)
    ensures |r| == 3 * |vs|
    decreases |vs|
  {
    if |vs| == 0 then []
    else
      var n := |vs| - 1;
      Samples(vs[..n], toF32) + [toF32(vs[n].x), toF32(vs[n].y), toF32(vs[n].z)]
  }

  /** Sample `3 * i + k` is component `k` of vector `i`, cast. */
  lemma {:induction false} SamplesLayout(vs: seq<Vec3>, toF32: real -> real)
    ensures forall i, k :: 0 <= i < |vs| && 0 <= k < 3 ==> Samples(vs, toF32)[3 * i + k] == toF32(Component(vs[i], k))
    decreases |vs|
  {
    if |vs| > 0 {
      SamplesLayout(vs[..|vs| - 1], toF32);
    }
  }

  /** The vector parts of a joint's rotations. */
  function VectorParts(qs: seq<Quaternion>): (r: seq<Vec3>)
    ensures |r| == |qs| && forall i :: 0 <= i < |qs| ==> r[i] == qs[i].v
  {
    seq(|qs|, i requires 0 <= i < |qs| => qs[i].v)
  }

  /** The rotation samples of the joints, joint after joint. */
  function JointSamples(rotations: seq<seq<Quaternion>>, toF32: real -> real): seq<real>
    decreases |rotations|
  {
    if |rotations| == 0 then []
    else
      var n := |rotations| - 1;
      JointSamples(rotations[..n], toF32) + Samples(VectorParts(rotations[n]), toF32)
  }

  /** The number of rotation samples over all joints. */
  function TotalFrames(rotations: seq<seq<Quaternion>>): nat
    decreases |rotations|
  {
    if |rotations| == 0 then 0 else TotalFrames(rotations[..|rotations| - 1]) + |rotations[|rotations| - 1]|
  }

  /** The buffer `bvh_to_gav` fills. */
  function GavBuffer(bvh: BvhData, toF32: real -> real): seq<real>
    requires |bvh.poseLocalPositions| > 0
  {
    Samples(bvh.poseLocalPositions[0], toF32) + JointSamples(bvh.poseLocalRotations, toF32)
  }

  /** What `bvh_to_gav` returns; indexing the missing root panics. */
  function GavOf(bvh: BvhData, frameCount: nat, toF32: real -> real): Outcome<Array3, ShapeError> {
    if |bvh.poseLocalPositions| == 0 then Panic(IndexOutOfBounds)
    else FromShapeVec(|bvh.poseLocalRotations| + 1, frameCount, 3, GavBuffer(bvh, toF32))
  }

  /** The root loop of `bvh_to_gav`: push the three cast coordinates of every position. */
  method PushPositions(data: seq<real>, positions: seq<Vec3>, toF32: real -> real) returns (out: seq<real>)
    ensures out == data + Samples(positions, toF32)
  {
    out := data;
    var f := 0;
    while f < |positions|
      invariant 0 <= f <= |positions|
      invariant out == data + Samples(positions[..f], toF32)
    {
      assert positions[..f + 1][..f] == positions[..f];
      out := out + [toF32(positions[f].x), toF32(positions[f].y), toF32(positions[f].z)];
      f := f + 1;
    }
    assert positions[..f] == positions;
  }

  /** The inner joint loop of `bvh_to_gav`: push the three cast coordinates of the vector
      part of every rotation. */
  method PushVectorParts(data: seq<real>, rotations: seq<Quaternion>, toF32: real -> real) returns (out: seq<real>)
    ensures out == data + Samples(VectorParts(rotations), toF32)
  {
    out := data;
    var q := 0;
    while q < |rotations|
      invariant 0 <= q <= |rotations|
      invariant out == data + Samples(VectorParts(rotations[..q]), toF32)
    {
      assert VectorParts(rotations[..q + 1])[..q] == VectorParts(rotations[..q]);
      out := out + [toF32(rotations[q].v.x), toF32(rotations[q].v.y), toF32(rotations[q].v.z)];
      q := q + 1;
    }
    assert rotations[..q] == rotations;
  }

  /** The joint loop of `bvh_to_gav`: every joint's samples, joint after joint. */
  method PushJoints(data: seq<real>, rotations: seq<seq<Quaternion>>, toF32: real -> real) returns (out: seq<real>)
    ensures out == data + JointSamples(rotations, toF32)
  {
    out := data;
    var j := 0;
    while j < |rotations|
      invariant 0 <= j <= |rotations|
      invariant out == data + JointSamples(rotations[..j], toF32)
    {
      ghost var before := out;
      out := PushVectorParts(out, rotations[j], toF32);
      PushJointStep(data, rotations, j, toF32, before, out);
      j := j + 1;
    }
    assert rotations[..j] == rotations;
  }

  /** One more joint adds its samples at the end. */
  lemma JointSamplesStep(rotations: seq<seq<Quaternion>>, j: nat, toF32: real -> real)
    requires j < |rotations|
    ensures JointSamples(rotations[..j + 1], toF32)
         == JointSamples(rotations[..j], toF32) + Samples(VectorParts(rotations[j]), toF32)
  {
    assert rotations[..j + 1][..j] == rotations[..j];
  }

  /** Appending joint `j`'s samples to the buffer holding those of the joints before it
      gives the buffer holding those of the joints up to `j`. */
  lemma PushJointStep(data: seq<real>, rotations: seq<seq<Quaternion>>, j: nat, toF32: real -> real,
                      before: seq<real>, after: seq<real>)
    requires j < |rotations|
    requires before == data + JointSamples(rotations[..j], toF32)
    requires after == before + Samples(VectorParts(rotations[j]), toF32)
    ensures after == data + JointSamples(rotations[..j + 1], toF32)
  {
    JointSamplesStep(rotations, j, toF32);
    var done, next := JointSamples(rotations[..j], toF32), Samples(VectorParts(rotations[j]), toF32);
    assert (data + done) + next == data + (done + next);
  }

  /** `bvh_to_gav` as the source writes it: the root's samples, each joint's, then the
      reshape. */
  method BvhToGav(bvh: BvhData, frameCount: nat, toF32: real -> real) returns (r: Outcome<Array3, ShapeError>)
    ensures r == GavOf(bvh, frameCount, toF32)
  {
    if |bvh.poseLocalPositions| == 0 {
      return Panic(IndexOutOfBounds);
    }
    var data := PushPositions([], bvh.poseLocalPositions[0], toF32);
    data := PushJoints(data, bvh.poseLocalRotations, toF32);
    assert data == GavBuffer(bvh, toF32);
    r := FromShapeVec(|bvh.poseLocalRotations| + 1, frameCount, 3, data);
  }

  // ---------------------------------------------------------------------------------
  // Layout

  /** The rotation samples hold three numbers per rotation. */
  lemma {:induction false} JointSamplesLength(rotations: seq<seq<Quaternion>>, toF32: real -> real)
    ensures |JointSamples(rotations, toF32)| == 3 * TotalFrames(rotations)
    decreases |rotations|
  {
    if |rotations| > 0 {
      JointSamplesLength(rotations[..|rotations| - 1], toF32);
    }
  }

  /** Rotation `q` of joint `j` sits after the rotations of the joints before it. */
  lemma {:induction false} JointSamplesLayout(rotations: seq<seq<Quaternion>>, toF32: real -> real, j: nat, q: nat, k: nat)
    requires j < |rotations| && q < |rotations[j]| && k < 3
    ensures 3 * (TotalFrames(rotations[..j]) + q) + k < |JointSamples(rotations, toF32)|
    ensures JointSamples(rotations, toF32)[3 * (TotalFrames(rotations[..j]) + q) + k]
         == toF32(Component(rotations[j][q].v, k))
    decreases |rotations|
  {
    var n := |rotations| - 1;
    if j < n {
      JointSamplesLayout(rotations[..n], toF32, j, q, k);
      EarlierJointLayout(rotations, toF32, j, q, k);
    } else {
      LastJointLayout(rotations, toF32, q, k);
    }
  }

  /** The samples of a joint before the last are where they were without the last. */
  lemma EarlierJointLayout(rotations: seq<seq<Quaternion>>, toF32: real -> real, j: nat, q: nat, k: nat)
    requires j + 1 < |rotations| && q < |rotations[j]| && k < 3
    requires var pre := rotations[..|rotations| - 1];
      && 3 * (TotalFrames(pre[..j]) + q) + k < |JointSamples(pre, toF32)|
      && JointSamples(pre, toF32)[3 * (TotalFrames(pre[..j]) + q) + k] == toF32(Component(pre[j][q].v, k))
    ensures 3 * (TotalFrames(rotations[..j]) + q) + k < |JointSamples(rotations, toF32)|
    ensures JointSamples(rotations, toF32)[3 * (TotalFrames(rotations[..j]) + q) + k]
         == toF32(Component(rotations[j][q].v, k))
  {
    var n := |rotations| - 1;
    var pre := rotations[..n];
    var front, last := JointSamples(pre, toF32), Samples(VectorParts(rotations[n]), toF32);
    assert JointSamples(rotations, toF32) == front + last;
    assert pre[..j] == rotations[..j];
    var index := 3 * (TotalFrames(rotations[..j]) + q) + k;
    assert (front + last)[index] == front[index];
  }

  /** The samples of the last joint come after those of all the others. */
  lemma LastJointLayout(rotations: seq<seq<Quaternion>>, toF32: real -> real, q: nat, k: nat)
    requires 0 < |rotations| && q < |rotations[|rotations| - 1]| && k < 3
    ensures var n := |rotations| - 1;
      && 3 * (TotalFrames(rotations[..n]) + q) + k < |JointSamples(rotations, toF32)|
      && JointSamples(rotations, toF32)[3 * (TotalFrames(rotations[..n]) + q) + k]
         == toF32(Component(rotations[n][q].v, k))
  {
    var n := |rotations| - 1;
    var pre := rotations[..n];
    var front, last := JointSamples(pre, toF32), Samples(VectorParts(rotations[n]), toF32);
    assert JointSamples(rotations, toF32) == front + last;
    JointSamplesLength(pre, toF32);
    var index := 3 * (TotalFrames(pre) + q) + k;
    assert index == |front| + (3 * q + k);
    SamplesLayout(VectorParts(rotations[n]), toF32);
    assert last[3 * q + k] == toF32(Component(rotations[n][q].v, k));
    assert (front + last)[index] == last[3 * q + k];
  }

  /** The reshape succeeds exactly when the root and the joints together supply
      `(joints + 1) * frameCount` samples, fails with `OutOfBounds` when they supply fewer
      and with `IncompatibleShape` when they supply more; it panics exactly when there is
      no root. */
  lemma GavShape(bvh: BvhData, frameCount: nat, toF32: real -> real)
    ensures GavOf(bvh, frameCount, toF32).Panic? <==> |bvh.poseLocalPositions| == 0
    ensures GavOf(bvh, frameCount, toF32).Panic? ==> GavOf(bvh, frameCount, toF32).message == IndexOutOfBounds
    ensures GavOf(bvh, frameCount, toF32).Ok? <==>
              |bvh.poseLocalPositions| > 0
              && |bvh.poseLocalPositions[0]| + TotalFrames(bvh.poseLocalRotations)
                 == (|bvh.poseLocalRotations| + 1) * frameCount
    ensures GavOf(bvh, frameCount, toF32) == Err(OutOfBounds) <==>
              |bvh.poseLocalPositions| > 0
              && |bvh.poseLocalPositions[0]| + TotalFrames(bvh.poseLocalRotations)
                 < (|bvh.poseLocalRotations| + 1) * frameCount
    ensures GavOf(bvh, frameCount, toF32) == Err(IncompatibleShape) <==>
              |bvh.poseLocalPositions| > 0
              && |bvh.poseLocalPositions[0]| + TotalFrames(bvh.poseLocalRotations)
                 > (|bvh.poseLocalRotations| + 1) * frameCount
  {
    JointSamplesLength(bvh.poseLocalRotations, toF32);
  }

  /** A root with one position, one joint without rotations and a frame count of 1: the
      shape asks for six numbers, the buffer holds three, and the reshape reports
      `OutOfBounds`. */
  lemma ShortBufferOutOfBounds(p0: Vec3, toF32: real -> real)
    ensures GavOf(BvhData([[p0]], [[]]), 1, toF32) == Err(OutOfBounds)
  {
  }

  /** When every joint has `frames` rotations, the joints contribute `joints * frames` samples,
      and joint `j`'s come after `j * frames` others. */
  lemma {:induction false} UniformTotal(rotations: seq<seq<Quaternion>>, frames: nat)
    requires forall j :: 0 <= j < |rotations| ==> |rotations[j]| == frames
    ensures TotalFrames(rotations) == |rotations| * frames
    decreases |rotations|
  {
    if |rotations| > 0 {
      UniformTotal(rotations[..|rotations| - 1], frames);
    }
  }

  /** In a buffer of shape (curves, `frames`, 3) that starts with the root's samples,
      element `[0, f, k]` is the root's position `f`, component `k`. */
  lemma RootAt(g: Array3, root: seq<Vec3>, rest: seq<real>, toF32: real -> real, f: nat, k: nat)
    requires 0 < g.dim0 && g.dim1 == |root| && g.dim2 == 3 && g.elems == Samples(root, toF32) + rest
    requires f < |root| && k < 3
    ensures At(g, 0, f, k) == toF32(Component(root[f], k))
  {
    SamplesLayout(root, toF32);
    assert (0 * g.dim1 + f) * 3 + k == 3 * f + k;
    assert g.elems[3 * f + k] == Samples(root, toF32)[3 * f + k];
  }

  /** Row-major position of `[j + 1, f, k]` in shape (_, `frames`, 3). */
  lemma JointOffset(j: nat, frames: nat, f: nat, k: nat)
    ensures ((j + 1) * frames + f) * 3 + k == 3 * frames + (3 * (j * frames + f) + k)
  {
    assert (j + 1) * frames == j * frames + frames;
  }

  /** Element `i` of the back part of a concatenation. */
  lemma AppendAt(front: seq<real>, back: seq<real>, i: nat)
    requires i < |back|
    ensures |front| + i < |front + back| && (front + back)[|front| + i] == back[i]
  {
  }

  /** After the root's samples, sample `3 * (TotalFrames(rotations[..j]) + f) + k` of the
      joints' part is component `k` of the vector part of joint `j`'s rotation `f`. */
  lemma JointSample(root: seq<Vec3>, rotations: seq<seq<Quaternion>>, toF32: real -> real, j: nat, f: nat, k: nat)
    requires j < |rotations| && f < |rotations[j]| && k < 3
    ensures var offset := 3 * (TotalFrames(rotations[..j]) + f) + k;
      && 3 * |root| + offset < |Samples(root, toF32) + JointSamples(rotations, toF32)|
      && (Samples(root, toF32) + JointSamples(rotations, toF32))[3 * |root| + offset]
         == toF32(Component(rotations[j][f].v, k))
  {
    JointSamplesLayout(rotations, toF32, j, f, k);
    AppendAt(Samples(root, toF32), JointSamples(rotations, toF32), 3 * (TotalFrames(rotations[..j]) + f) + k);
  }

  /** In the same buffer, followed by the joints' samples with `frames` rotations per joint,
      element `[j + 1, f, k]` is component `k` of the vector part of joint `j`'s rotation `f`. */
  lemma JointAt(g: Array3, root: seq<Vec3>, rotations: seq<seq<Quaternion>>, toF32: real -> real, j: nat, f: nat, k: nat)
    requires g.dim0 == |rotations| + 1 && g.dim1 == |root| && g.dim2 == 3
    requires g.elems == Samples(root, toF32) + JointSamples(rotations, toF32)
    requires forall i :: 0 <= i < |rotations| ==> |rotations[i]| == |root|
    requires j < |rotations| && f < |root| && k < 3
    ensures At(g, j + 1, f, k) == toF32(Component(rotations[j][f].v, k))
  {
    var pre := rotations[..j];
    assert forall i :: 0 <= i < |pre| ==> |pre[i]| == |root|;
    UniformTotal(pre, |root|);
    JointSample(root, rotations, toF32, j, f, k);
    JointOffset(j, |root|, f, k);
  }

  /** A conversion whose root and joints all have `frameCount` samples succeeds and puts
      the root's position `f` at `[0, f, ..]` and the vector part of joint `j`'s rotation
      `f` at `[j + 1, f, ..]`. */
  lemma UniformLayout(bvh: BvhData, frameCount: nat, toF32: real -> real)
    requires |bvh.poseLocalPositions| > 0 && |bvh.poseLocalPositions[0]| == frameCount
    requires forall j :: 0 <= j < |bvh.poseLocalRotations| ==> |bvh.poseLocalRotations[j]| == frameCount
    ensures GavOf(bvh, frameCount, toF32).Ok?
    ensures var g := GavOf(bvh, frameCount, toF32).value;
      && g.dim0 == |bvh.poseLocalRotations| + 1 && g.dim1 == frameCount && g.dim2 == 3
      && (forall f, k :: 0 <= f < frameCount && 0 <= k < 3 ==>
            At(g, 0, f, k) == toF32(Component(bvh.poseLocalPositions[0][f], k)))
      && (forall j, f, k :: 0 <= j < |bvh.poseLocalRotations| && 0 <= f < frameCount && 0 <= k < 3 ==>
            At(g, j + 1, f, k) == toF32(Component(bvh.poseLocalRotations[j][f].v, k)))
  {
    var rotations := bvh.poseLocalRotations;
    var root := bvh.poseLocalPositions[0];
    UniformTotal(rotations, frameCount);
    assert (|rotations| + 1) * frameCount == frameCount + |rotations| * frameCount;
    GavShape(bvh, frameCount, toF32);
    var g := GavOf(bvh, frameCount, toF32).value;
    assert g.elems == Samples(root, toF32) + JointSamples(rotations, toF32);
    forall f, k | 0 <= f < frameCount && 0 <= k < 3
      ensures At(g, 0, f, k) == toF32(Component(root[f], k))
    {
      RootAt(g, root, JointSamples(rotations, toF32), toF32, f, k);
    }
    forall j, f, k | 0 <= j < |rotations| && 0 <= f < frameCount && 0 <= k < 3
      ensures At(g, j + 1, f, k) == toF32(Component(rotations[j][f].v, k))
    {
      JointAt(g, root, rotations, toF32, j, f, k);
    }
  }

  /** The scalar part of the rotations is never stored: conversions of data that differ
      only there are equal. */
  lemma {:induction false} ScalarPartDropped(a: seq<seq<Quaternion>>, b: seq<seq<Quaternion>>, toF32: real -> real)
    requires |a| == |b|
    requires forall j :: 0 <= j < |a| ==> |a[j]| == |b[j]| && forall q :: 0 <= q < |a[j]| ==> a[j][q].v == b[j][q].v
    ensures JointSamples(a, toF32) == JointSamples(b, toF32)
    decreases |a|
  {
    if |a| > 0 {
      var n := |a| - 1;
      ScalarPartDropped(a[..n], b[..n], toF32);
      assert VectorParts(a[n]) == VectorParts(b[n]);
    }
  }
}
