/** `bvh_to_key_frames` as the source writes it: nested joint, channel and frame loops that
    clear and refill a shared map of sample buffers and write rotation kinds into a shared
    three-slot array, then zip the buffers into curves. The method is proved to compute
    `ChannelSampler.KeyFramesOf`, whose properties are proved in that module. */
module KeyFrameExtraction {
  import opened Common
  import opened LoaderTypes
  import opened ChannelSampler

  /** Once the channel loop has panicked, the later channels do not change the outcome. */
  lemma {:induction false} ScanFailurePersists(s: Scratch, chs: seq<Channel>, c: nat, frames: seq<Frame>)
    requires c <= |chs|
    requires ScanChannels(s, chs[..c], frames).IsFailure()
    ensures ScanChannels(s, chs, frames) == ScanChannels(s, chs[..c], frames)
    decreases |chs| - c
  {
    if c < |chs| {
      var pre := chs[..|chs| - 1];
      assert pre[..c] == chs[..c];
      ScanFailurePersists(s, pre, c, frames);
    } else {
      assert chs[..c] == chs;
    }
  }

  /** Once the joint loop has failed, the later joints do not change the outcome. */
  lemma {:induction false} JointsFailurePersists(joints: seq<JointRecord>, j: nat, frames: seq<Frame>, euler: EulerToQuat)
    requires j <= |joints|
    requires ProcessJoints(joints[..j], frames, euler).IsFailure()
    ensures ProcessJoints(joints, frames, euler) == ProcessJoints(joints[..j], frames, euler)
    decreases |joints| - j
  {
    if j < |joints| {
      var pre := joints[..|joints| - 1];
      assert pre[..j] == joints[..j];
      JointsFailurePersists(pre, j, frames, euler);
    } else {
      assert joints[..j] == joints;
    }
  }

  /** A failure while processing joint `j` is the outcome of the whole conversion. */
  lemma JointFailureIsFinal(bvh: Bvh, j: nat, euler: EulerToQuat)
    requires j < |bvh.joints|
    requires ProcessJoints(bvh.joints[..j], bvh.frames, euler).Ok?
    requires ProcessJoint(ProcessJoints(bvh.joints[..j], bvh.frames, euler).value, bvh.joints[j], bvh.frames, euler).IsFailure()
    ensures KeyFramesOf(bvh, euler)
         == ProcessJoint(ProcessJoints(bvh.joints[..j], bvh.frames, euler).value, bvh.joints[j], bvh.frames, euler)
              .PropagateFailure()
  {
    assert bvh.joints[..j + 1][..j] == bvh.joints[..j];
    JointsFailurePersists(bvh.joints, j + 1, bvh.frames, euler);
  }

  /** A panic in channel `c` of joint `j` is the outcome of the whole conversion. */
  lemma ChannelPanicIsFinal(bvh: Bvh, j: nat, c: nat, euler: EulerToQuat)
    requires j < |bvh.joints| && c < |bvh.joints[j].channels|
    requires ProcessJoints(bvh.joints[..j], bvh.frames, euler).Ok?
    requires ScanChannels(ProcessJoints(bvh.joints[..j], bvh.frames, euler).value.scratch,
                          bvh.joints[j].channels[..c + 1], bvh.frames).Panic?
    ensures KeyFramesOf(bvh, euler)
         == Panic(ScanChannels(ProcessJoints(bvh.joints[..j], bvh.frames, euler).value.scratch,
                               bvh.joints[j].channels[..c + 1], bvh.frames).message)
  {
    var p := ProcessJoints(bvh.joints[..j], bvh.frames, euler).value;
    ScanFailurePersists(p.scratch, bvh.joints[j].channels, c + 1, bvh.frames);
    JointFailureIsFinal(bvh, j, euler);
  }

  /** One more joint extends the joint loop by one `ProcessJoint` step. */
  lemma ProcessJointsStep(joints: seq<JointRecord>, j: nat, frames: seq<Frame>, euler: EulerToQuat, p: Progress)
    requires j < |joints|
    requires ProcessJoints(joints[..j], frames, euler) == Ok(p)
    ensures ProcessJoints(joints[..j + 1], frames, euler) == ProcessJoint(p, joints[j], frames, euler)
  {
    assert joints[..j + 1][..j] == joints[..j];
  }

  /** The successful path through one joint step. */
  lemma ProcessJointSucceeds(p: Progress, joint: JointRecord, frames: seq<Frame>, euler: EulerToQuat,
                             s: Scratch, rotationIndex: nat, order: EulerRot,
                             positions: Option<seq<Vec3>>, rotations: seq<Quat>)
    requires ScanChannels(p.scratch, joint.channels, frames) == Ok((s, rotationIndex))
    requires EulerOrderOf(s.order) == Ok(order)
    requires ExtractJointPositions(s.buffers) == Ok(positions)
    requires ExtractJointRotations(s.buffers, order, euler) == Ok(rotations)
    ensures ProcessJoint(p, joint, frames, euler)
         == Ok(Progress(s,
                        if positions.Some? then p.translations[joint.name := positions.value] else p.translations,
                        p.rotations[joint.name := rotations]))
  {
  }

  /** The frame loop of `bvh_to_key_frames`: clear the buffer of the channel's kind and
      push the channel's sample of every frame, in frame order; None when a frame has no
      sample for the channel (the source panics). The other buffers are untouched. */
  method RefillBuffer(buffers: map<ChannelType, seq<real>>, channel: Channel, frames: seq<Frame>)
    returns (r: Option<map<ChannelType, seq<real>>>)
    ensures r.None? <==> Column(frames, channel).None?
    ensures r.Some? ==> r.value == buffers[channel.kind := Column(frames, channel).value]
  {
    var frameData := buffers[channel.kind := []];
    var f := 0;
    while f < |frames|
      invariant 0 <= f <= |frames|
      invariant channel.kind in frameData
      invariant frameData == buffers[channel.kind := frameData[channel.kind]]
      invariant Column(frames[..f], channel) == Some(frameData[channel.kind])
    {
      assert frames[..f + 1][..f] == frames[..f];
      var value := FrameValue(frames[f], channel);
      if value.None? {
        return None;
      }
      frameData := frameData[channel.kind := frameData[channel.kind] + [value.value]];
      f := f + 1;
    }
    assert frames[..f] == frames;
    return Some(frameData);
  }

  /** The channel loop of `bvh_to_key_frames` for one joint: refill the buffer of every
      channel's kind and write every rotation kind into the next slot of the shared
      rotation-order array. The outcome and the new state are those of `ScanChannels`. */
  method ScanJointChannels(buffers: map<ChannelType, seq<real>>, rotationOrder: array<ChannelType>,
                           channels: seq<Channel>, frames: seq<Frame>)
    returns (r: Outcome<(map<ChannelType, seq<real>>, nat), LoaderError>)
    requires rotationOrder.Length == 3
    modifies rotationOrder
    ensures var scanned := ScanChannels(Scratch(buffers, old(rotationOrder[..])), channels, frames);
      && (scanned.Ok? ==> r == Ok((scanned.value.0.buffers, scanned.value.1)) && rotationOrder[..] == scanned.value.0.order)
      && (!scanned.Ok? ==> r == scanned.PropagateFailure())
  {
    ghost var start := Scratch(buffers, rotationOrder[..]);
    var channelFrameData := buffers;
    var rotationIndex := 0;
    var c := 0;
    while c < |channels|
      invariant 0 <= c <= |channels|
      invariant ScanChannels(start, channels[..c], frames)
             == Ok((Scratch(channelFrameData, rotationOrder[..]), rotationIndex))
    {
      var channel := channels[c];
      assert channels[..c + 1][..c] == channels[..c];
      var filled := RefillBuffer(channelFrameData, channel, frames);
      if filled.None? {
        ScanFailurePersists(start, channels, c + 1, frames);
        return Panic(FrameDataMissing);
      }
      channelFrameData := filled.value;
      if IsRotation(channel.kind) {
        if rotationIndex >= 3 {
          ScanFailurePersists(start, channels, c + 1, frames);
          return Panic(IndexOutOfBounds);
        }
        rotationOrder[rotationIndex] := channel.kind;
        rotationIndex := rotationIndex + 1;
      }
      c := c + 1;
    }
    assert channels[..c] == channels;
    r := Ok((channelFrameData, rotationIndex));
  }

  /** The body of the joint loop of `bvh_to_key_frames`: the channel loop, the Euler order
      read off the rotation-order array, and the two extractors, which add the joint's
      curves to the maps. The outcome and the new state are those of `ProcessJoint`. */
  method ProcessJointInPlace(buffers: map<ChannelType, seq<real>>, rotationOrder: array<ChannelType>,
                             translations: map<string, seq<Vec3>>, rotations: map<string, seq<Quat>>,
                             joint: JointRecord, frames: seq<Frame>, euler: EulerToQuat)
    returns (r: Outcome<(map<ChannelType, seq<real>>, map<string, seq<Vec3>>, map<string, seq<Quat>>), LoaderError>)
    requires rotationOrder.Length == 3
    modifies rotationOrder
    ensures var step := ProcessJoint(Progress(Scratch(buffers, old(rotationOrder[..])), translations, rotations),
                                     joint, frames, euler);
      && (step.Ok? ==> r.Ok? && step.value == Progress(Scratch(r.value.0, rotationOrder[..]), r.value.1, r.value.2))
      && (!step.Ok? ==> r == step.PropagateFailure())
  {
    ghost var before := Progress(Scratch(buffers, rotationOrder[..]), translations, rotations);
    var scanned := ScanJointChannels(buffers, rotationOrder, joint.channels, frames);
    if scanned.IsFailure() {
      return scanned.PropagateFailure();
    }
    var channelFrameData, rotationIndex := scanned.value.0, scanned.value.1;
    var order := EulerOrderOf(rotationOrder[..]);
    if order.IsFailure() {
      return order.PropagateFailure();
    }
    var positions := ExtractJointPositions(channelFrameData);
    if positions.IsFailure() {
      return positions.PropagateFailure();
    }
    var jointTranslations := translations;
    if positions.value.Some? {
      jointTranslations := jointTranslations[joint.name := positions.value.value];
    }
    var jointRotations := ExtractJointRotations(channelFrameData, order.value, euler);
    if jointRotations.IsFailure() {
      return jointRotations.PropagateFailure();
    }
    ProcessJointSucceeds(before, joint, frames, euler,
                         Scratch(channelFrameData, rotationOrder[..]), rotationIndex, order.value,
                         positions.value, jointRotations.value);
    r := Ok((channelFrameData, jointTranslations, rotations[joint.name := jointRotations.value]));
  }

  /** `bvh_to_key_frames`. */
  method BvhToKeyFrames(bvh: Bvh, euler: EulerToQuat) returns (r: Outcome<KeyFrames, LoaderError>)
    ensures r == KeyFramesOf(bvh, euler)
  {
    var frames := bvh.frames;
    var jointTranslations: map<string, seq<Vec3>> := map[];
    var jointRotations: map<string, seq<Quat>> := map[];
    var channelFrameData: map<ChannelType, seq<real>> := map[];
    var rotationOrder := new ChannelType[3] [RotationX, RotationY, RotationZ];
    var j := 0;
    assert rotationOrder[..] == [RotationX, RotationY, RotationZ];
    assert bvh.joints[..j] == [];
    while j < |bvh.joints|
      invariant 0 <= j <= |bvh.joints|
      invariant rotationOrder.Length == 3
      invariant ProcessJoints(bvh.joints[..j], frames, euler)
             == Ok(Progress(Scratch(channelFrameData, rotationOrder[..]), jointTranslations, jointRotations))
    {
      ghost var before := Progress(Scratch(channelFrameData, rotationOrder[..]), jointTranslations, jointRotations);
      var step := ProcessJointInPlace(channelFrameData, rotationOrder, jointTranslations, jointRotations,
                                      bvh.joints[j], frames, euler);
      if step.IsFailure() {
        JointFailureIsFinal(bvh, j, euler);
        return step.PropagateFailure();
      }
      ProcessJointsStep(bvh.joints, j, frames, euler, before);
      channelFrameData, jointTranslations, jointRotations := step.value.0, step.value.1, step.value.2;
      j := j + 1;
    }
    assert bvh.joints[..j] == bvh.joints;
    r := Ok(KeyFrames(bvh.frameTime, |frames|, jointTranslations, jointRotations));
  }
}
