/** Encoding followed by decoding. The source stores only the vector part of each rotation
    and, when decoding, sets the scalar part to 0 before normalising; the magnitude the
    encoder's comment says can be recomputed from the unit norm is never recomputed.
    `RecoverScalar` is the decoder that comment describes. */
module GavRoundTrip {
  import opened Common
  import opened Gav
  import opened GavEncode
  import opened GavDecode

  /** A vector with every coordinate cast. */
  function CastVec(v: Vec3, toF32: real -> real): Vec3 {
    Vec3(toF32(v.x), toF32(v.y), toF32(v.z))
  }

  /** Every joint, and the root, has exactly `frameCount` samples. */
  predicate Uniform(bvh: BvhData, frameCount: nat) {
    && |bvh.poseLocalPositions| > 0 && |bvh.poseLocalPositions[0]| == frameCount
    && forall j :: 0 <= j < |bvh.poseLocalRotations| ==> |bvh.poseLocalRotations[j]| == frameCount
  }

  /** Converting data whose root and joints all have `frameCount` samples, then decoding,
      gives back the root positions (cast) and, for every joint and frame, the decoder's
      rebuild of the cast vector part of the rotation. */
  lemma RoundTrip(bvh: BvhData, frameCount: nat, toF32: real -> real, rebuild: (real, real, real) -> Quat)
    requires Uniform(bvh, frameCount)
    ensures GavOf(bvh, frameCount, toF32).Ok?
    ensures var a := Decode(GavOf(bvh, frameCount, toF32).value, rebuild);
      && a.Ok?
      && a.value.JointCount() == |bvh.poseLocalRotations|
      && a.value.FrameCount() == frameCount
      && (forall f :: 0 <= f < frameCount ==>
            a.value.rootPositions[f] == CastVec(bvh.poseLocalPositions[0][f], toF32))
      && (forall j, f :: 0 <= j < |bvh.poseLocalRotations| && 0 <= f < frameCount ==>
            var v := bvh.poseLocalRotations[j][f].v;
            a.value.jointRotations[j][f] == rebuild(toF32(v.x), toF32(v.y), toF32(v.z)))
  {
    UniformLayout(bvh, frameCount, toF32);
    var g := GavOf(bvh, frameCount, toF32).value;
    var a := Decode(g, rebuild).value;
    forall f | 0 <= f < frameCount
      ensures a.rootPositions[f] == CastVec(bvh.poseLocalPositions[0][f], toF32)
    {
      var p := bvh.poseLocalPositions[0][f];
      assert At(g, 0, f, 0) == toF32(Component(p, 0));
      assert At(g, 0, f, 1) == toF32(Component(p, 1));
      assert At(g, 0, f, 2) == toF32(Component(p, 2));
    }
    forall j, f | 0 <= j < |bvh.poseLocalRotations| && 0 <= f < frameCount
      ensures var v := bvh.poseLocalRotations[j][f].v;
              a.jointRotations[j][f] == rebuild(toF32(v.x), toF32(v.y), toF32(v.z))
    {
      var v := bvh.poseLocalRotations[j][f].v;
      assert At(g, j + 1, f, 0) == toF32(Component(v, 0));
      assert At(g, j + 1, f, 1) == toF32(Component(v, 1));
      assert At(g, j + 1, f, 2) == toF32(Component(v, 2));
    }
  }

  /** The frame count is not checked against the data: a root with two positions, one
      joint without rotations and a frame count of 1 has the six numbers the shape (2, 1, 3)
      needs, and decoding reads the root's second position as that joint's rotation. */
  lemma MisalignedRootAccepted(p0: Vec3, p1: Vec3, toF32: real -> real, rebuild: (real, real, real) -> Quat)
    ensures GavOf(BvhData([[p0, p1]], [[]]), 1, toF32).Ok?
    ensures Decode(GavOf(BvhData([[p0, p1]], [[]]), 1, toF32).value, rebuild).Ok?
    ensures Decode(GavOf(BvhData([[p0, p1]], [[]]), 1, toF32).value, rebuild).value.rootPositions == [CastVec(p0, toF32)]
    ensures Decode(GavOf(BvhData([[p0, p1]], [[]]), 1, toF32).value, rebuild).value.jointRotations
         == [[rebuild(toF32(p1.x), toF32(p1.y), toF32(p1.z))]]
  {
    var bvh := BvhData([[p0, p1]], [[]]);
    MisalignedBuffer(p0, p1, toF32);
    var g := GavOf(bvh, 1, toF32).value;
    DecodeTwoCurves(g, rebuild);
  }

  /** The encoder side: the six numbers of the two root positions, in shape (2, 1, 3). */
  lemma MisalignedBuffer(p0: Vec3, p1: Vec3, toF32: real -> real)
    ensures var g := GavOf(BvhData([[p0, p1]], [[]]), 1, toF32);
      && g.Ok? && g.value.dim0 == 2 && g.value.dim1 == 1 && g.value.dim2 == 3
      && g.value.elems == [toF32(p0.x), toF32(p0.y), toF32(p0.z), toF32(p1.x), toF32(p1.y), toF32(p1.z)]
  {
    var rotations: seq<seq<Quaternion>> := [[]];
    assert rotations[..0] == [];
    assert VectorParts([]) == [];
    assert JointSamples(rotations, toF32) == JointSamples([], toF32) + Samples([], toF32);
    assert JointSamples(rotations, toF32) == [];
    assert [p0, p1][..1] == [p0] && [p0][..0] == [];
    assert Samples([p0, p1], toF32) == [toF32(p0.x), toF32(p0.y), toF32(p0.z), toF32(p1.x), toF32(p1.y), toF32(p1.z)];
  }

  /** The decoder side: an array of shape (2, 1, 3) gives one root position and one joint
      with one rotation. */
  lemma DecodeTwoCurves(g: Array3, rebuild: (real, real, real) -> Quat)
    requires g.dim0 == 2 && g.dim1 == 1 && g.dim2 == 3
    ensures Decode(g, rebuild).Ok?
    ensures Decode(g, rebuild).value.rootPositions == [Vec3(g.elems[0], g.elems[1], g.elems[2])]
    ensures Decode(g, rebuild).value.jointRotations == [[rebuild(g.elems[3], g.elems[4], g.elems[5])]]
  {
    var a := Decode(g, rebuild).value;
    assert At(g, 0, 0, 0) == g.elems[0] && At(g, 0, 0, 1) == g.elems[1] && At(g, 0, 0, 2) == g.elems[2];
    assert At(g, 1, 0, 0) == g.elems[3] && At(g, 1, 0, 1) == g.elems[4] && At(g, 1, 0, 2) == g.elems[5];
    assert |a.rootPositions| == 1 && |a.jointRotations| == 1 && |a.jointRotations[0]| == 1;
    assert a.jointRotations[0] == [rebuild(g.elems[3], g.elems[4], g.elems[5])];
  }

  // ---------------------------------------------------------------------------------
  // The decoded rotations

  /** A scalar part of 0 stays 0 under normalisation when the vector part is not zero. This
      holds of any normalisation that divides a quaternion by its length. The zero
      quaternion has length 0, and glam's `normalize` turns it into NaN components; the
      model does not represent NaN and promises nothing about that case here. */
  ghost predicate KeepsZeroScalar(normalize: Quat -> Quat) {
    forall q: Quat :: q.w == 0.0 && (q.x != 0.0 || q.y != 0.0 || q.z != 0.0) ==> normalize(q).w == 0.0
  }

  /** Every joint rotation's vector part is still non-zero after the cast. */
  predicate StoredVectorsNonZero(bvh: BvhData, frameCount: nat, toF32: real -> real) {
    forall j, f :: 0 <= j < |bvh.poseLocalRotations| && 0 <= f < frameCount && f < |bvh.poseLocalRotations[j]| ==>
      CastVec(bvh.poseLocalRotations[j][f].v, toF32) != Vec3(0.0, 0.0, 0.0)
  }

  /** As written, every decoded joint rotation whose stored vector part is not zero has
      scalar part 0, whatever the rotation that was encoded. */
  lemma DecodedScalarIsZero(bvh: BvhData, frameCount: nat, toF32: real -> real, normalize: Quat -> Quat)
    requires Uniform(bvh, frameCount) && KeepsZeroScalar(normalize)
    requires StoredVectorsNonZero(bvh, frameCount, toF32)
    ensures GavOf(bvh, frameCount, toF32).Ok?
    ensures var a := AnimationOf(GavOf(bvh, frameCount, toF32).value, normalize);
      && a.Ok?
      && forall j, f :: 0 <= j < a.value.JointCount() && 0 <= f < a.value.FrameCount() ==>
           a.value.jointRotations[j][f].w == 0.0
  {
    RoundTrip(bvh, frameCount, toF32, ZeroScalar(normalize));
    var a := AnimationOf(GavOf(bvh, frameCount, toF32).value, normalize).value;
    forall j, f | 0 <= j < a.JointCount() && 0 <= f < a.FrameCount()
      ensures a.jointRotations[j][f].w == 0.0
    {
      var c := CastVec(bvh.poseLocalRotations[j][f].v, toF32);
      assert c != Vec3(0.0, 0.0, 0.0);
      assert a.jointRotations[j][f] == normalize(Quat(c.x, c.y, c.z, 0.0));
    }
  }

  /** The identity rotation of a one-joint, one-frame animation does not survive the round
      trip as written. Its vector part is zero, so the decoder normalises the zero
      quaternion; whatever that gives (glam gives NaN in every component), it is not the
      identity. */
  lemma IdentityRotationLost(toF32: real -> real, normalize: Quat -> Quat)
    requires toF32(0.0) == 0.0
    requires normalize(Quat(0.0, 0.0, 0.0, 0.0)) != Quat(0.0, 0.0, 0.0, 1.0)
    ensures var bvh := BvhData([[Vec3(0.0, 0.0, 0.0)]], [[Quaternion(1.0, Vec3(0.0, 0.0, 0.0))]]);
      && GavOf(bvh, 1, toF32).Ok?
      && AnimationOf(GavOf(bvh, 1, toF32).value, normalize).Ok?
      && AnimationOf(GavOf(bvh, 1, toF32).value, normalize).value.jointRotations[0][0] != Quat(0.0, 0.0, 0.0, 1.0)
  {
    var bvh := BvhData([[Vec3(0.0, 0.0, 0.0)]], [[Quaternion(1.0, Vec3(0.0, 0.0, 0.0))]]);
    RoundTrip(bvh, 1, toF32, ZeroScalar(normalize));
    var a := AnimationOf(GavOf(bvh, 1, toF32).value, normalize).value;
    assert a.jointRotations[0][0] == normalize(Quat(0.0, 0.0, 0.0, 0.0));
  }

  /** A quarter turn about the x axis (scalar and x part both `h`, with `h * h == 1/2`)
      comes back with scalar part 0 when the cast keeps its x part non-zero: the rotation
      is lost, not only its representation. */
  lemma QuarterTurnScalarLost(h: real, toF32: real -> real, normalize: Quat -> Quat)
    requires h * h == 0.5 && toF32(h) != 0.0 && KeepsZeroScalar(normalize)
    ensures var bvh := BvhData([[Vec3(0.0, 0.0, 0.0)]], [[Quaternion(h, Vec3(h, 0.0, 0.0))]]);
      && GavOf(bvh, 1, toF32).Ok?
      && AnimationOf(GavOf(bvh, 1, toF32).value, normalize).Ok?
      && AnimationOf(GavOf(bvh, 1, toF32).value, normalize).value.jointRotations[0][0].w == 0.0 != h
  {
    var bvh := BvhData([[Vec3(0.0, 0.0, 0.0)]], [[Quaternion(h, Vec3(h, 0.0, 0.0))]]);
    RoundTrip(bvh, 1, toF32, ZeroScalar(normalize));
    var a := AnimationOf(GavOf(bvh, 1, toF32).value, normalize).value;
    var c := CastVec(bvh.poseLocalRotations[0][0].v, toF32);
    assert c.x != 0.0;
    assert a.jointRotations[0][0] == normalize(Quat(c.x, c.y, c.z, 0.0));
  }

  /** A square-root function on the non-negative reals. */
  ghost predicate IsSqrt(sqrt: real -> real) {
    forall y :: 0.0 <= y ==> 0.0 <= sqrt(y) && sqrt(y) * sqrt(y) == y
  }

  /** The decoder the encoder's comment describes: the scalar part recomputed from the unit
      norm, clamped at 0 against rounding. */
  function RecoverScalar(sqrt: real -> real): (real, real, real) -> Quat {
    (x: real, y: real, z: real) => RecoveredQuat(sqrt, x, y, z)
  }

  function RecoveredQuat(sqrt: real -> real, x: real, y: real, z: real): Quat {
    var rest := 1.0 - (x * x + y * y + z * z);
    Quat(x, y, z, sqrt(if rest < 0.0 then 0.0 else rest))
  }

  /** A unit quaternion with a non-negative scalar part; every rotation has one. */
  predicate UnitNonNegative(q: Quaternion) {
    q.s * q.s + q.v.x * q.v.x + q.v.y * q.v.y + q.v.z * q.v.z == 1.0 && 0.0 <= q.s
  }

  /** The product of two positive numbers is positive. */
  lemma ProductPositive(a: real, b: real)
    requires 0.0 < a && 0.0 < b
    ensures 0.0 < a * b
  {
  }

  /** Two non-negative numbers with the same square are equal. */
  lemma SquareInjective(s: real, t: real)
    requires 0.0 <= s && 0.0 <= t && t * t == s * s
    ensures t == s
  {
    assert (s - t) * (s + t) == s * s - t * t;
    if t < s {
      ProductPositive(s - t, s + t);
    } else if s < t {
      ProductPositive(t - s, s + t);
    }
  }

  /** The recomputed scalar part of a unit quaternion with a non-negative scalar part is
      that scalar part. */
  lemma RecoverUnit(sqrt: real -> real, q: Quaternion)
    requires IsSqrt(sqrt) && UnitNonNegative(q)
    ensures RecoverScalar(sqrt)(q.v.x, q.v.y, q.v.z) == Quat(q.v.x, q.v.y, q.v.z, q.s)
  {
    var x, y, z := q.v.x, q.v.y, q.v.z;
    var rest := 1.0 - (x * x + y * y + z * z);
    assert rest == q.s * q.s;
    assert 0.0 <= q.s * q.s;
    assert RecoverScalar(sqrt)(x, y, z) == RecoveredQuat(sqrt, x, y, z);
    assert RecoveredQuat(sqrt, x, y, z) == Quat(x, y, z, sqrt(rest));
    SquareInjective(q.s, sqrt(rest));
  }

  /** With the recomputed scalar part and an exact cast, every unit rotation with a
      non-negative scalar part comes back unchanged. */
  lemma RecoveredRoundTrip(bvh: BvhData, frameCount: nat, sqrt: real -> real)
    requires Uniform(bvh, frameCount) && IsSqrt(sqrt)
    requires forall j, f :: 0 <= j < |bvh.poseLocalRotations| && 0 <= f < frameCount ==>
               UnitNonNegative(bvh.poseLocalRotations[j][f])
    ensures GavOf(bvh, frameCount, x => x).Ok?
    ensures var a := Decode(GavOf(bvh, frameCount, x => x).value, RecoverScalar(sqrt));
      && a.Ok?
      && a.value.rootPositions == bvh.poseLocalPositions[0]
      && forall j, f :: 0 <= j < |bvh.poseLocalRotations| && 0 <= f < frameCount ==>
           var q := bvh.poseLocalRotations[j][f];
           a.value.jointRotations[j][f] == Quat(q.v.x, q.v.y, q.v.z, q.s)
  {
    var exact := (x: real) => x;
    RoundTrip(bvh, frameCount, exact, RecoverScalar(sqrt));
    var a := Decode(GavOf(bvh, frameCount, exact).value, RecoverScalar(sqrt)).value;
    assert a.rootPositions == bvh.poseLocalPositions[0];
    forall j, f | 0 <= j < |bvh.poseLocalRotations| && 0 <= f < frameCount
      ensures var q := bvh.poseLocalRotations[j][f];
              a.jointRotations[j][f] == Quat(q.v.x, q.v.y, q.v.z, q.s)
    {
      RecoverUnit(sqrt, bvh.poseLocalRotations[j][f]);
    }
  }
}
