/** `gav_to_animation`: slot 0 of the array's first axis becomes the root positions, slot
    `j + 1` the rotations of joint `j`, each frame's three numbers read as a vector. The
    decoder is defined for any way `rebuild` of turning the three numbers of a rotation
    back into a quaternion; the source's is `ZeroScalar(normalize)`. */
module GavDecode {
  import opened Common
  import opened Gav

  /** What the source does with a stored vector part: scalar part 0, then normalise. */
  function ZeroScalar(normalize: Quat -> Quat): (real, real, real) -> Quat {
    (x: real, y: real, z: real) => normalize(Quat(x, y, z, 0.0))
  }

  function RootPosition(g: Array3, f: nat): Vec3
    requires 0 < g.dim0 && f < g.dim1 && g.dim2 == 3
  {
    Vec3(At(g, 0, f, 0), At(g, 0, f, 1), At(g, 0, f, 2))
  }

  function JointRotation(g: Array3, j: nat, f: nat, rebuild: (real, real, real) -> Quat): Quat
    requires j + 1 < g.dim0 && f < g.dim1 && g.dim2 == 3
  {
    rebuild(At(g, j + 1, f, 0), At(g, j + 1, f, 1), At(g, j + 1, f, 2))
  }

  /** The first `n` root positions. */
  function RootPrefix(g: Array3, n: nat): (r: seq<Vec3>)
    requires 0 < g.dim0 && n <= g.dim1 && (n == 0 || g.dim2 == 3)
    ensures |r| == n
  {
    seq(n, f requires 0 <= f < n => RootPosition(g, f))
  }

  /** The first `n` rotations of joint `j`. */
  function JointPrefix(g: Array3, j: nat, n: nat, rebuild: (real, real, real) -> Quat): (r: seq<Quat>)
    requires j + 1 < g.dim0 && n <= g.dim1 && (n == 0 || g.dim2 == 3)
    ensures |r| == n
  {
    seq(n, f requires 0 <= f < n => JointRotation(g, j, f, rebuild))
  }

  /** Every joint's rotations. */
  function JointCurves(g: Array3, rebuild: (real, real, real) -> Quat): (r: seq<seq<Quat>>)
    requires 0 < g.dim0 && (g.dim1 == 0 || g.dim2 == 3)
    ensures |r| == g.dim0 - 1
  {
    seq(g.dim0 - 1, j requires 0 <= j < g.dim0 - 1 => JointPrefix(g, j, g.dim1, rebuild))
  }

  /** What the decoder returns. It never returns an error: `curve_count - 1` underflows on
      an empty array and `assert_eq!(frame_value.len(), 3)` fails at the first frame when
      frames do not hold three numbers; otherwise the animation has one joint fewer than the
      array has curves, as many frames as the array, and reads curve `j + 1` as joint `j`. */
  function Decode(g: Array3, rebuild: (real, real, real) -> Quat): (r: Outcome<Animation, AnyError>)
    ensures !r.Err?
    ensures r.Ok? <==> 0 < g.dim0 && (g.dim1 == 0 || g.dim2 == 3)
    ensures r == Panic(SubtractWithOverflow) <==> g.dim0 == 0
    ensures r == Panic(AssertionFailed) <==> 0 < g.dim0 && 0 < g.dim1 && g.dim2 != 3
    ensures r.Ok? ==>
      && r.value.JointCount() == g.dim0 - 1
      && r.value.FrameCount() == g.dim1
      && (forall j :: 0 <= j < r.value.JointCount() ==> |r.value.jointRotations[j]| == r.value.FrameCount())
      && (forall f :: 0 <= f < g.dim1 ==>
            r.value.rootPositions[f] == Vec3(At(g, 0, f, 0), At(g, 0, f, 1), At(g, 0, f, 2)))
      && (forall j, f :: 0 <= j < r.value.JointCount() && 0 <= f < g.dim1 ==>
            r.value.jointRotations[j][f] == rebuild(At(g, j + 1, f, 0), At(g, j + 1, f, 1), At(g, j + 1, f, 2)))
  {
    if g.dim0 == 0 then Panic(SubtractWithOverflow)
    else if g.dim1 > 0 && g.dim2 != 3 then Panic(AssertionFailed)
    else Ok(Animation(RootPrefix(g, g.dim1), JointCurves(g, rebuild)))
  }

  /** `gav_to_animation`: `Decode` with the rebuild `normalize(x, y, z, 0)`. */
  function AnimationOf(g: Array3, normalize: Quat -> Quat): Outcome<Animation, AnyError> {
    Decode(g, ZeroScalar(normalize))
  }

  /** `gav_to_animation` as the source writes it: one pass over the curves, one over the
      frames of each, pushing onto the root positions or onto the joint's rotations. */
  method GavToAnimation(g: Array3, normalize: Quat -> Quat) returns (r: Outcome<Animation, AnyError>)
    ensures r == AnimationOf(g, normalize)
  {
    var curveCount, frameCount := g.dim0, g.dim1;
    var rootPositions: seq<Vec3> := [];
    if curveCount == 0 {
      return Panic(SubtractWithOverflow);
    }
    var jointRotations: seq<seq<Quat>> := seq(curveCount - 1, _ => []);
    ghost var rebuild := ZeroScalar(normalize);
    var c := 0;
    while c < curveCount
      invariant 0 <= c <= curveCount
      invariant c > 0 && frameCount > 0 ==> g.dim2 == 3
      invariant |jointRotations| == curveCount - 1
      invariant rootPositions == RootPrefix(g, if c == 0 then 0 else frameCount)
      invariant forall j :: 0 <= j < curveCount - 1 ==>
                  jointRotations[j] == JointPrefix(g, j, if j + 1 < c then frameCount else 0, rebuild)
    {
      var f := 0;
      while f < frameCount
        invariant 0 <= f <= frameCount
        invariant f > 0 ==> g.dim2 == 3
        invariant c > 0 && frameCount > 0 ==> g.dim2 == 3
        invariant |jointRotations| == curveCount - 1
        invariant rootPositions == RootPrefix(g, if c == 0 then f else frameCount)
        invariant forall j :: 0 <= j < curveCount - 1 ==>
                    jointRotations[j]
                    == JointPrefix(g, j, if j + 1 < c then frameCount else if j + 1 == c then f else 0, rebuild)
      {
        if g.dim2 != 3 {
          return Panic(AssertionFailed);
        }
        var x, y, z := At(g, c, f, 0), At(g, c, f, 1), At(g, c, f, 2);
        if c == 0 {
          assert RootPrefix(g, f + 1) == RootPrefix(g, f) + [Vec3(x, y, z)];
          rootPositions := rootPositions + [Vec3(x, y, z)];
        } else {
          var jointIndex := c - 1;
          assert JointPrefix(g, jointIndex, f + 1, rebuild)
              == JointPrefix(g, jointIndex, f, rebuild) + [normalize(Quat(x, y, z, 0.0))];
          jointRotations := jointRotations[jointIndex := jointRotations[jointIndex] + [normalize(Quat(x, y, z, 0.0))]];
        }
        f := f + 1;
      }
      c := c + 1;
    }
    assert jointRotations == JointCurves(g, rebuild);
    r := Ok(Animation(rootPositions, jointRotations));
  }
}
