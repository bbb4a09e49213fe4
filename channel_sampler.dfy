/** What `bvh_to_key_frames` computes, as functions: the scratch state it reuses from
    joint to joint (one sample buffer per channel kind and the three rotation-order
    slots), the per-channel and per-joint steps, the two extractors that zip the x/y/z
    buffers, and the fold over all joints. The imperative loop itself is in
    module KeyFrameExtraction and is proved equal to `KeyFramesOf`. */
module ChannelSampler {
  import opened Common
  import opened LoaderTypes

  /** The rotation-order slots, a three-element array in the source. */
  type RotationSlots = s: seq<ChannelType> | |s| == 3 witness [RotationX, RotationY, RotationZ]

  /** The state shared by all joints: the per-kind sample buffers and the rotation slots. */
  datatype Scratch = Scratch(buffers: map<ChannelType, seq<real>>, order: RotationSlots)

  const InitialScratch: Scratch := Scratch(map[], [RotationX, RotationY, RotationZ])

  /** Everything the joint loop has built so far. */
  datatype Progress = Progress(
    scratch: Scratch,
    translations: map<string, seq<Vec3>>,
    rotations: map<string, seq<Quat>>)

  const InitialProgress: Progress := Progress(InitialScratch, map[], map[])

  // ---------------------------------------------------------------------------------
  // One channel

  /** The samples of one channel, frame by frame, or None when some frame has no value
      for it (the source then panics with "Frame data missing"). */
  function Column(frames: seq<Frame>, ch: Channel): (r: Option<seq<real>>)
    ensures r.Some? <==> forall f :: 0 <= f < |frames| ==> ch.motionIndex < |frames[f]|
    ensures r.Some? ==> |r.value| == |frames|
    ensures r.Some? ==> forall f :: 0 <= f < |frames| ==> r.value[f] == frames[f][ch.motionIndex]
    decreases |frames|
  {
    if |frames| == 0 then Some([])
    else
      match Column(frames[..|frames| - 1], ch)
      case None => None
      case Some(prefix) =>
        match FrameValue(frames[|frames| - 1], ch)
        case None => None
        case Some(v) => Some(prefix + [v])
  }

  /** The body of the channel loop: clear and refill the buffer of the channel's kind and,
      for a rotation channel, write its kind into slot `rotationIndex` and advance it.
      A fourth rotation channel indexes past the three slots and panics. */
  function ChannelStep(s: Scratch, rotationIndex: nat, ch: Channel, frames: seq<Frame>)
    : Outcome<(Scratch, nat), LoaderError>
  {
    match Column(frames, ch)
    case None => Panic(FrameDataMissing)
    case Some(samples) =>
      var buffers := s.buffers[ch.kind := samples];
      if !IsRotation(ch.kind) then Ok((Scratch(buffers, s.order), rotationIndex))
      else if rotationIndex < 3 then Ok((Scratch(buffers, s.order[rotationIndex := ch.kind]), rotationIndex + 1))
      else Panic(IndexOutOfBounds)
  }

  /** The channel loop of one joint, from `rotationIndex = 0`: the final scratch state and
      the number of rotation channels seen. */
  function ScanChannels(s: Scratch, chs: seq<Channel>, frames: seq<Frame>): Outcome<(Scratch, nat), LoaderError>
    decreases |chs|
  {
    if |chs| == 0 then Ok((s, 0))
    else
      var before :- ScanChannels(s, chs[..|chs| - 1], frames);
      ChannelStep(before.0, before.1, chs[|chs| - 1], frames)
  }

  /** The kinds of a joint's rotation channels, in declaration order. */
  function RotationKinds(chs: seq<Channel>): seq<ChannelType>
    decreases |chs|
  {
    if |chs| == 0 then []
    else RotationKinds(chs[..|chs| - 1]) + (if IsRotation(chs[|chs| - 1].kind) then [chs[|chs| - 1].kind] else [])
  }

  /** The last channel of a given kind, the one whose samples the buffer ends up holding. */
  function LastOfKind(chs: seq<Channel>, kind: ChannelType): Option<Channel>
    decreases |chs|
  {
    if |chs| == 0 then None
    else if chs[|chs| - 1].kind == kind then Some(chs[|chs| - 1])
    else LastOfKind(chs[..|chs| - 1], kind)
  }

  /** The channel loop succeeds exactly when every channel has a sample in every frame and
      there are at most three rotation channels; it never returns an error value. */
  lemma {:induction false} ScanChannelsSucceeds(s: Scratch, chs: seq<Channel>, frames: seq<Frame>)
    ensures !ScanChannels(s, chs, frames).Err?
    ensures ScanChannels(s, chs, frames).Ok? <==>
              |RotationKinds(chs)| <= 3 && forall i :: 0 <= i < |chs| ==> Column(frames, chs[i]).Some?
    decreases |chs|
  {
    if |chs| > 0 {
      var pre := chs[..|chs| - 1];
      ScanChannelsSucceeds(s, pre, frames);
      assert forall i :: 0 <= i < |pre| ==> pre[i] == chs[i];
      if ScanChannels(s, pre, frames).Ok? {
        ScanChannelsState(s, pre, frames);
      }
    }
  }

  /** After a joint's channel loop: the rotation index counts the rotation channels, the
      slots hold their kinds in order followed by whatever the previous joint left behind,
      every declared kind's buffer holds exactly one sample per frame (of the last channel
      of that kind), and the buffers of undeclared kinds are untouched. */
  lemma {:induction false} ScanChannelsState(s: Scratch, chs: seq<Channel>, frames: seq<Frame>)
    requires ScanChannels(s, chs, frames).Ok?
    ensures var (t, rotationIndex) := ScanChannels(s, chs, frames).value;
      && rotationIndex == |RotationKinds(chs)| <= 3
      && t.order == RotationKinds(chs) + s.order[rotationIndex..]
      && (forall kind :: LastOfKind(chs, kind).Some? ==>
            && kind in t.buffers
            && |t.buffers[kind]| == |frames|
            && forall f :: 0 <= f < |frames| ==>
                 && LastOfKind(chs, kind).value.motionIndex < |frames[f]|
                 && t.buffers[kind][f] == frames[f][LastOfKind(chs, kind).value.motionIndex])
      && (forall kind :: LastOfKind(chs, kind).None? ==>
            && (kind in t.buffers <==> kind in s.buffers)
            && (kind in s.buffers ==> t.buffers[kind] == s.buffers[kind]))
    decreases |chs|
  {
    if |chs| > 0 {
      var pre, ch := chs[..|chs| - 1], chs[|chs| - 1];
      ScanChannelsState(s, pre, frames);
      var (before, r) := ScanChannels(s, pre, frames).value;
      if IsRotation(ch.kind) {
        var slots := RotationKinds(pre) + s.order[r..];
        var updated, expected := slots[r := ch.kind], RotationKinds(pre) + [ch.kind] + s.order[r + 1..];
        assert |RotationKinds(pre)| == r;
        assert forall m :: 0 <= m < 3 ==> updated[m] == expected[m];
        assert updated == expected;
      }
    }
  }

  // ---------------------------------------------------------------------------------
  // Rotation order and the two extractors

  /** The `match rotation_order` of `bvh_to_key_frames`. */
  function EulerOrderOf(order: RotationSlots): Outcome<EulerRot, LoaderError> {
    if order == [RotationX, RotationY, RotationZ] then Ok(XYZ)
    else if order == [RotationZ, RotationX, RotationY] then Ok(ZXY)
    else Err(UnexpectedData(UnexpectedEulerOrder(order)))
  }

  /** A joint's Euler order: [RotX, RotY, RotZ] gives XYZ, [RotZ, RotX, RotY] gives ZXY,
      and any other contents of the slots fail with the observed slots. With fewer than
      three rotation channels the observed slots end with the previous joint's entries. */
  lemma RotationOrderOfJoint(s: Scratch, chs: seq<Channel>, frames: seq<Frame>)
    requires ScanChannels(s, chs, frames).Ok?
    ensures var (t, n) := ScanChannels(s, chs, frames).value;
      && n == |RotationKinds(chs)| <= 3
      && t.order == RotationKinds(chs) + s.order[n..]
      && (|RotationKinds(chs)| == 3 ==>
            && (EulerOrderOf(t.order) == Ok(XYZ) <==> RotationKinds(chs) == [RotationX, RotationY, RotationZ])
            && (EulerOrderOf(t.order) == Ok(ZXY) <==> RotationKinds(chs) == [RotationZ, RotationX, RotationY]))
      && (EulerOrderOf(t.order).Err? <==>
            t.order != [RotationX, RotationY, RotationZ] && t.order != [RotationZ, RotationX, RotationY])
      && (EulerOrderOf(t.order).Err? ==> EulerOrderOf(t.order).error == UnexpectedData(UnexpectedEulerOrder(t.order)))
  {
    ScanChannelsState(s, chs, frames);
  }

  predicate SameLength3(xs: seq<real>, ys: seq<real>, zs: seq<real>) {
    |xs| == |ys| && |xs| == |zs|
  }

  /** `izip!(xs, ys, zs).map(f)`. */
  function ZipWith3<T>(xs: seq<real>, ys: seq<real>, zs: seq<real>, f: (real, real, real) -> T): (r: seq<T>)
    requires SameLength3(xs, ys, zs)
    ensures |r| == |xs|
    ensures forall i :: 0 <= i < |xs| ==> r[i] == f(xs[i], ys[i], zs[i])
    decreases |xs|
  {
    if |xs| == 0 then []
    else
      var n := |xs| - 1;
      ZipWith3(xs[..n], ys[..n], zs[..n], f) + [f(xs[n], ys[n], zs[n])]
  }

  predicate HasKinds(buffers: map<ChannelType, seq<real>>, x: ChannelType, y: ChannelType, z: ChannelType) {
    x in buffers && y in buffers && z in buffers
  }

  /** `extract_joint_positions`: panics when a position buffer was never created, fails on
      unequal lengths, gives None for empty buffers and otherwise one vector per index. */
  function ExtractJointPositions(buffers: map<ChannelType, seq<real>>): (r: Outcome<Option<seq<Vec3>>, LoaderError>)
    ensures r.Panic? <==> !HasKinds(buffers, PositionX, PositionY, PositionZ)
    ensures r.Err? <==> HasKinds(buffers, PositionX, PositionY, PositionZ)
                        && !SameLength3(buffers[PositionX], buffers[PositionY], buffers[PositionZ])
    ensures r.Err? ==> r.error == UnexpectedData(ChannelLengthsDiffer)
    ensures r == Ok(None) <==> HasKinds(buffers, PositionX, PositionY, PositionZ)
                               && SameLength3(buffers[PositionX], buffers[PositionY], buffers[PositionZ])
                               && |buffers[PositionX]| == 0
    ensures r.Ok? && r.value.Some? ==>
              var (xs, ys, zs) := (buffers[PositionX], buffers[PositionY], buffers[PositionZ]);
              && |r.value.value| == |xs| == |ys| == |zs| > 0
              && forall i :: 0 <= i < |xs| ==> r.value.value[i] == Vec3(xs[i], ys[i], zs[i])
  {
    if PositionX !in buffers then Panic("Missing PositionX channel")
    else if PositionY !in buffers then Panic("Missing PositionY channel")
    else if PositionZ !in buffers then Panic("Missing PositionZ channel")
    else
      var (xs, ys, zs) := (buffers[PositionX], buffers[PositionY], buffers[PositionZ]);
      if !SameLength3(xs, ys, zs) then Err(UnexpectedData(ChannelLengthsDiffer))
      else if |xs| == 0 then Ok(None)
      else Ok(Some(ZipWith3(xs, ys, zs, (x, y, z) => Vec3(x, y, z))))
  }

  /** `extract_joint_rotations`: like the positions, except that empty buffers are an
      error, and each triple of degrees is turned into a quaternion in the given order. */
  function ExtractJointRotations(buffers: map<ChannelType, seq<real>>, order: EulerRot, euler: EulerToQuat)
    : (r: Outcome<seq<Quat>, LoaderError>)
    ensures r.Panic? <==> !HasKinds(buffers, RotationX, RotationY, RotationZ)
    ensures r.Err? <==> HasKinds(buffers, RotationX, RotationY, RotationZ)
                        && (!SameLength3(buffers[RotationX], buffers[RotationY], buffers[RotationZ])
                            || |buffers[RotationX]| == 0)
    ensures r.Err? ==> r.error == UnexpectedData(
                         if SameLength3(buffers[RotationX], buffers[RotationY], buffers[RotationZ])
                         then MissingRotationChannels else ChannelLengthsDiffer)
    ensures r.Ok? ==>
              var (xs, ys, zs) := (buffers[RotationX], buffers[RotationY], buffers[RotationZ]);
              && |r.value| == |xs| == |ys| == |zs| > 0
              && forall i :: 0 <= i < |xs| ==> r.value[i] == euler(order, xs[i], ys[i], zs[i])
  {
    if RotationX !in buffers then Panic("Missing RotationX channel")
    else if RotationY !in buffers then Panic("Missing RotationY channel")
    else if RotationZ !in buffers then Panic("Missing RotationZ channel")
    else
      var (xs, ys, zs) := (buffers[RotationX], buffers[RotationY], buffers[RotationZ]);
      if !SameLength3(xs, ys, zs) then Err(UnexpectedData(ChannelLengthsDiffer))
      else if |xs| == 0 then Err(UnexpectedData(MissingRotationChannels))
      else Ok(ZipWith3(xs, ys, zs, (x, y, z) => euler(order, x, y, z)))
  }

  // ---------------------------------------------------------------------------------
  // One joint, and all joints

  /** The body of the joint loop. */
  function ProcessJoint(p: Progress, joint: JointRecord, frames: seq<Frame>, euler: EulerToQuat)
    : Outcome<Progress, LoaderError>
  {
    var scanned :- ScanChannels(p.scratch, joint.channels, frames);
    var s := scanned.0;
    var order :- EulerOrderOf(s.order);
    var positions :- ExtractJointPositions(s.buffers);
    var translations := if positions.Some? then p.translations[joint.name := positions.value] else p.translations;
    var rotations :- ExtractJointRotations(s.buffers, order, euler);
    Ok(Progress(s, translations, p.rotations[joint.name := rotations]))
  }

  /** The joint loop over a prefix of the joints. */
  function ProcessJoints(joints: seq<JointRecord>, frames: seq<Frame>, euler: EulerToQuat)
    : Outcome<Progress, LoaderError>
    decreases |joints|
  {
    if |joints| == 0 then Ok(InitialProgress)
    else
      var p :- ProcessJoints(joints[..|joints| - 1], frames, euler);
      ProcessJoint(p, joints[|joints| - 1], frames, euler)
  }

  /** `bvh_to_key_frames`. */
  function KeyFramesOf(bvh: Bvh, euler: EulerToQuat): Outcome<KeyFrames, LoaderError> {
    var p :- ProcessJoints(bvh.joints, bvh.frames, euler);
    Ok(KeyFrames(bvh.frameTime, |bvh.frames|, p.translations, p.rotations))
  }

  // ---------------------------------------------------------------------------------
  // Properties of the whole conversion

  predicate BuffersHold(buffers: map<ChannelType, seq<real>>, frameCount: nat) {
    forall kind :: kind in buffers ==> |buffers[kind]| == frameCount
  }

  predicate CurvesHold<T>(curves: map<string, seq<T>>, frameCount: nat) {
    forall name :: name in curves ==> |curves[name]| == frameCount
  }

  /** The names of a prefix of the joints. */
  function JointNames(joints: seq<JointRecord>): (names: set<string>)
    decreases |joints|
  {
    if |joints| == 0 then {} else JointNames(joints[..|joints| - 1]) + {joints[|joints| - 1].name}
  }

  lemma {:induction false} JointNamesAreNames(joints: seq<JointRecord>)
    ensures JointNames(joints) == set i | 0 <= i < |joints| :: joints[i].name
    decreases |joints|
  {
    if |joints| > 0 {
      var pre := joints[..|joints| - 1];
      JointNamesAreNames(pre);
      assert forall i :: 0 <= i < |pre| ==> pre[i] == joints[i];
    }
  }

  /** One joint step keeps every buffer at one sample per frame, adds a rotation curve of
      one sample per frame under the joint's name, and adds a translation curve of one
      sample per frame under that name or leaves the translations alone. */
  lemma ProcessJointShape(p: Progress, joint: JointRecord, frames: seq<Frame>, euler: EulerToQuat)
    requires BuffersHold(p.scratch.buffers, |frames|)
    requires ProcessJoint(p, joint, frames, euler).Ok?
    ensures var q := ProcessJoint(p, joint, frames, euler).value;
      && BuffersHold(q.scratch.buffers, |frames|)
      && |frames| > 0
      && joint.name in q.rotations && q.rotations == p.rotations[joint.name := q.rotations[joint.name]]
      && |q.rotations[joint.name]| == |frames|
      && (q.translations == p.translations
          || (joint.name in q.translations
              && q.translations == p.translations[joint.name := q.translations[joint.name]]
              && |q.translations[joint.name]| == |frames|))
  {
    ScanChannelsState(p.scratch, joint.channels, frames);
    var s := ScanChannels(p.scratch, joint.channels, frames).value.0;
    forall kind | kind in s.buffers ensures |s.buffers[kind]| == |frames| {
      if LastOfKind(joint.channels, kind).None? {
        assert kind in p.scratch.buffers;
      }
    }
    var order := EulerOrderOf(s.order).value;
    var rotations := ExtractJointRotations(s.buffers, order, euler).value;
    assert |rotations| == |frames| > 0;
    assert ProcessJoint(p, joint, frames, euler).value.scratch == s;
    assert ProcessJoint(p, joint, frames, euler).value.rotations == p.rotations[joint.name := rotations];
  }

  lemma {:induction false} ProcessJointsShape(joints: seq<JointRecord>, frames: seq<Frame>, euler: EulerToQuat)
    requires ProcessJoints(joints, frames, euler).Ok?
    ensures var p := ProcessJoints(joints, frames, euler).value;
      && BuffersHold(p.scratch.buffers, |frames|)
      && CurvesHold(p.translations, |frames|)
      && CurvesHold(p.rotations, |frames|)
      && p.rotations.Keys == JointNames(joints)
      && p.translations.Keys <= p.rotations.Keys
      && (|joints| > 0 ==> |frames| > 0)
    decreases |joints|
  {
    if |joints| > 0 {
      var pre := joints[..|joints| - 1];
      ProcessJointsShape(pre, frames, euler);
      ProcessJointShape(ProcessJoints(pre, frames, euler).value, joints[|joints| - 1], frames, euler);
    }
  }

  /** A successful conversion has a rotation curve for every joint name, a translation
      curve only for names that also have rotations, one sample per frame in every curve,
      and at least one frame whenever there is a joint. */
  lemma KeyFramesShape(bvh: Bvh, euler: EulerToQuat)
    requires KeyFramesOf(bvh, euler).Ok?
    ensures var kf := KeyFramesOf(bvh, euler).value;
      && kf.count == |bvh.frames| && kf.frameTime == bvh.frameTime
      && (|bvh.joints| > 0 ==> kf.count > 0)
      && kf.jointRotations.Keys == (set i | 0 <= i < |bvh.joints| :: bvh.joints[i].name)
      && kf.jointTranslations.Keys <= kf.jointRotations.Keys
      && (forall name :: name in kf.jointRotations ==> |kf.jointRotations[name]| == kf.count)
      && (forall name :: name in kf.jointTranslations ==> |kf.jointTranslations[name]| == kf.count)
  {
    ProcessJointsShape(bvh.joints, bvh.frames, euler);
    JointNamesAreNames(bvh.joints);
  }
}
