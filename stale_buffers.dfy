/** The sample buffers of `bvh_to_key_frames` live across joints and are only refilled,
    kind by kind, for the channels a joint declares, and the rotation slots are only
    overwritten for the rotation channels a joint declares. A joint with rotation channels
    only, as every joint below the root of a usual BVH file, therefore finds the position
    buffers of an earlier joint and is given that joint's translations; a joint with no
    rotation channel is given the previous joint's rotations; and a joint with fewer than
    three rotation channels passes the order check on the previous joint's slots and is
    rotated partly by the previous joint's samples. `ProcessJointFresh` is the step with
    buffers and slots of the joint's own. */
module StaleBuffers {
  import opened Common
  import opened LoaderTypes
  import opened ChannelSampler
  import opened KeyFrameExtraction

  /** True when no channel of the list has the kind. */
  predicate Undeclared(chs: seq<Channel>, kind: ChannelType) {
    forall i :: 0 <= i < |chs| ==> chs[i].kind != kind
  }

  lemma {:induction false} UndeclaredHasNoLast(chs: seq<Channel>, kind: ChannelType)
    requires Undeclared(chs, kind)
    ensures LastOfKind(chs, kind).None?
    decreases |chs|
  {
    if |chs| > 0 {
      UndeclaredHasNoLast(chs[..|chs| - 1], kind);
    }
  }

  /** The three position kinds are all undeclared. */
  predicate NoPositionChannels(chs: seq<Channel>) {
    Undeclared(chs, PositionX) && Undeclared(chs, PositionY) && Undeclared(chs, PositionZ)
  }

  /** As written: a joint without position channels that follows joints which filled the
      position buffers gets a translation curve built from those buffers. */
  lemma InheritedTranslations(p: Progress, joint: JointRecord, frames: seq<Frame>, euler: EulerToQuat)
    requires ProcessJoint(p, joint, frames, euler).Ok?
    requires NoPositionChannels(joint.channels)
    requires HasKinds(p.scratch.buffers, PositionX, PositionY, PositionZ)
    requires |p.scratch.buffers[PositionX]| > 0
    ensures var (xs, ys, zs) := (p.scratch.buffers[PositionX], p.scratch.buffers[PositionY], p.scratch.buffers[PositionZ]);
      var q := ProcessJoint(p, joint, frames, euler).value;
      && SameLength3(xs, ys, zs)
      && joint.name in q.translations
      && |q.translations[joint.name]| == |xs|
      && forall i :: 0 <= i < |xs| ==> q.translations[joint.name][i] == Vec3(xs[i], ys[i], zs[i])
  {
    UndeclaredHasNoLast(joint.channels, PositionX);
    UndeclaredHasNoLast(joint.channels, PositionY);
    UndeclaredHasNoLast(joint.channels, PositionZ);
    ScanChannelsState(p.scratch, joint.channels, frames);
  }

  /** The rotation kinds of two channel lists one after the other. */
  lemma {:induction false} RotationKindsConcat(a: seq<Channel>, b: seq<Channel>)
    ensures RotationKinds(a + b) == RotationKinds(a) + RotationKinds(b)
    decreases |b|
  {
    if |b| > 0 {
      assert (a + b)[..|a + b| - 1] == a + b[..|b| - 1];
      RotationKindsConcat(a, b[..|b| - 1]);
    } else {
      assert a + b == a;
    }
  }

  /** The last channel of a kind is the one after which no channel has that kind. */
  lemma {:induction false} LastOfKindAt(chs: seq<Channel>, kind: ChannelType, i: nat)
    requires i < |chs| && chs[i].kind == kind
    requires forall j :: i < j < |chs| ==> chs[j].kind != kind
    ensures LastOfKind(chs, kind) == Some(chs[i])
    decreases |chs|
  {
    if i < |chs| - 1 {
      LastOfKindAt(chs[..|chs| - 1], kind, i);
    }
  }

  /** The root `Hips` with channel motion indices 0-5 (three positions, then Z, X and Y
      rotations) and the joint `Chest` with rotation channels 6-8. */
  const Hips := JointRecord("Hips", Vec3(0.0, 0.0, 0.0), None,
    [Channel(PositionX, 0), Channel(PositionY, 1), Channel(PositionZ, 2),
     Channel(RotationZ, 3), Channel(RotationX, 4), Channel(RotationY, 5)], [1])
  const Chest := JointRecord("Chest", Vec3(0.0, 1.0, 0.0), None,
    [Channel(RotationZ, 6), Channel(RotationX, 7), Channel(RotationY, 8)], [])

  lemma RotationKindsOfSingle(c: Channel)
    ensures RotationKinds([c]) == if IsRotation(c.kind) then [c.kind] else []
  {
    assert [c][..0] == [];
  }

  /** A kind among a joint's rotation kinds has a last channel of that kind. */
  lemma {:induction false} RotationKindDeclared(chs: seq<Channel>, kind: ChannelType)
    requires kind in RotationKinds(chs)
    ensures LastOfKind(chs, kind).Some?
    decreases |chs|
  {
    if chs[|chs| - 1].kind != kind {
      RotationKindDeclared(chs[..|chs| - 1], kind);
    }
  }

  /** A joint step succeeds when every channel has a sample in every frame, the rotation
      channels are Z, X, Y, and each position kind is declared by the joint or left in a
      buffer by an earlier joint; the Euler order is then ZXY. */
  lemma StepSucceeds(p: Progress, joint: JointRecord, frames: seq<Frame>, euler: EulerToQuat)
    requires |frames| > 0 && BuffersHold(p.scratch.buffers, |frames|)
    requires forall i, f :: 0 <= i < |joint.channels| && 0 <= f < |frames| ==>
               joint.channels[i].motionIndex < |frames[f]|
    requires RotationKinds(joint.channels) == [RotationZ, RotationX, RotationY]
    requires PositionX in p.scratch.buffers || LastOfKind(joint.channels, PositionX).Some?
    requires PositionY in p.scratch.buffers || LastOfKind(joint.channels, PositionY).Some?
    requires PositionZ in p.scratch.buffers || LastOfKind(joint.channels, PositionZ).Some?
    ensures ScanChannels(p.scratch, joint.channels, frames).Ok?
    ensures ProcessJoint(p, joint, frames, euler).Ok?
    ensures ProcessJoint(p, joint, frames, euler).value.scratch == ScanChannels(p.scratch, joint.channels, frames).value.0
    ensures ProcessJoint(p, joint, frames, euler).value.scratch.order == [RotationZ, RotationX, RotationY]
  {
    var chs := joint.channels;
    forall i | 0 <= i < |chs| ensures Column(frames, chs[i]).Some? {
    }
    ScanChannelsSucceeds(p.scratch, chs, frames);
    ScanChannelsState(p.scratch, chs, frames);
    RotationKindDeclared(chs, RotationX);
    RotationKindDeclared(chs, RotationY);
    RotationKindDeclared(chs, RotationZ);
    var t := ScanChannels(p.scratch, chs, frames).value;
    assert t.0.order == [RotationZ, RotationX, RotationY];
    var b := t.0.buffers;
    assert |b[PositionX]| == |frames| && |b[PositionY]| == |frames| && |b[PositionZ]| == |frames|;
    var positions := ExtractJointPositions(b);
    var rotations := ExtractJointRotations(b, ZXY, euler);
    ProcessJointSucceeds(p, joint, frames, euler, t.0, t.1, ZXY, positions.value, rotations.value);
  }

  /** One more channel adds its kind to the rotation kinds when it is a rotation. */
  lemma RotationKindsPrefix(chs: seq<Channel>, i: nat)
    requires i < |chs|
    ensures RotationKinds(chs[..i + 1])
         == RotationKinds(chs[..i]) + (if IsRotation(chs[i].kind) then [chs[i].kind] else [])
  {
    assert chs[..i + 1][..i] == chs[..i];
  }

  /** The rotation kinds of six channels of which the first three are positions. */
  lemma RotationKindsOfSix(chs: seq<Channel>)
    requires |chs| == 6
    requires !IsRotation(chs[0].kind) && !IsRotation(chs[1].kind) && !IsRotation(chs[2].kind)
    requires IsRotation(chs[3].kind) && IsRotation(chs[4].kind) && IsRotation(chs[5].kind)
    ensures RotationKinds(chs) == [chs[3].kind, chs[4].kind, chs[5].kind]
  {
    assert chs[..0] == [];
    RotationKindsPrefix(chs, 0);
    RotationKindsPrefix(chs, 1);
    RotationKindsPrefix(chs, 2);
    RotationKindsPrefix(chs, 3);
    RotationKindsPrefix(chs, 4);
    RotationKindsPrefix(chs, 5);
    assert chs[..6] == chs;
  }

  /** The hips declare the rotation kinds Z, X, Y in that order and each position kind once. */
  lemma HipsChannels()
    ensures RotationKinds(Hips.channels) == [RotationZ, RotationX, RotationY]
    ensures LastOfKind(Hips.channels, PositionX) == Some(Channel(PositionX, 0))
    ensures LastOfKind(Hips.channels, PositionY) == Some(Channel(PositionY, 1))
    ensures LastOfKind(Hips.channels, PositionZ) == Some(Channel(PositionZ, 2))
  {
    var h := Hips.channels;
    RotationKindsOfSix(h);
    LastOfKindAt(h, PositionX, 0);
    LastOfKindAt(h, PositionY, 1);
    LastOfKindAt(h, PositionZ, 2);
  }

  /** The chest declares the rotation kinds Z, X, Y in that order and no position. */
  lemma ChestChannels()
    ensures RotationKinds(Chest.channels) == [RotationZ, RotationX, RotationY]
    ensures NoPositionChannels(Chest.channels)
  {
    var c := Chest.channels;
    assert c == [c[0]] + [c[1]] + [c[2]];
    RotationKindsOfSingle(c[0]);
    RotationKindsOfSingle(c[1]);
    RotationKindsOfSingle(c[2]);
    RotationKindsConcat([c[0]], [c[1]]);
    RotationKindsConcat([c[0]] + [c[1]], [c[2]]);
  }

  /** A one-element sequence is the display of its element. */
  lemma Singleton(xs: seq<real>, v: real)
    requires |xs| == 1 && xs[0] == v
    ensures xs == [v]
  {
  }

  /** The hips' channel loop, from the initial state over one frame: one buffer per kind
      the hips declare, holding that channel's sample, and the slots Z, X, Y. */
  lemma HipsScan(frame: Frame)
    requires |frame| == 9
    ensures ScanChannels(InitialScratch, Hips.channels, [frame]).Ok?
    ensures var s := ScanChannels(InitialScratch, Hips.channels, [frame]).value.0;
      && BuffersHold(s.buffers, 1)
      && HasKinds(s.buffers, PositionX, PositionY, PositionZ) && HasKinds(s.buffers, RotationX, RotationY, RotationZ)
      && s.buffers[PositionX] == [frame[0]] && s.buffers[PositionY] == [frame[1]] && s.buffers[PositionZ] == [frame[2]]
      && s.buffers[RotationX] == [frame[4]] && s.buffers[RotationY] == [frame[5]]
      && s.order == [RotationZ, RotationX, RotationY]
  {
    var h := Hips.channels;
    HipsChannels();
    LastOfKindAt(h, RotationX, 4);
    LastOfKindAt(h, RotationY, 5);
    LastOfKindAt(h, RotationZ, 3);
    forall i | 0 <= i < |h| ensures Column([frame], h[i]).Some? {
    }
    ScanChannelsSucceeds(InitialScratch, h, [frame]);
    ScanChannelsState(InitialScratch, h, [frame]);
    var s := ScanChannels(InitialScratch, h, [frame]).value.0;
    Singleton(s.buffers[PositionX], frame[0]);
    Singleton(s.buffers[PositionY], frame[1]);
    Singleton(s.buffers[PositionZ], frame[2]);
    Singleton(s.buffers[RotationX], frame[4]);
    Singleton(s.buffers[RotationY], frame[5]);
  }

  /** The hips' step fills the position buffers with the hips' position and leaves the
      rotation slots in Z, X, Y order. */
  lemma HipsStep(frame: Frame, euler: EulerToQuat)
    requires |frame| == 9
    ensures ProcessJoint(InitialProgress, Hips, [frame], euler).Ok?
    ensures var s := ProcessJoint(InitialProgress, Hips, [frame], euler).value.scratch;
      && BuffersHold(s.buffers, 1)
      && HasKinds(s.buffers, PositionX, PositionY, PositionZ)
      && s.buffers[PositionX] == [frame[0]] && s.buffers[PositionY] == [frame[1]] && s.buffers[PositionZ] == [frame[2]]
      && s.order == [RotationZ, RotationX, RotationY]
  {
    HipsChannels();
    StepSucceeds(InitialProgress, Hips, [frame], euler);
    HipsScan(frame);
  }

  /** The chest's step succeeds after the hips' and takes over their translation. */
  lemma ChestStep(p: Progress, frame: Frame, euler: EulerToQuat)
    requires |frame| == 9 && BuffersHold(p.scratch.buffers, 1)
    requires HasKinds(p.scratch.buffers, PositionX, PositionY, PositionZ)
    requires p.scratch.buffers[PositionX] == [frame[0]] && p.scratch.buffers[PositionY] == [frame[1]]
    requires p.scratch.buffers[PositionZ] == [frame[2]]
    ensures ProcessJoint(p, Chest, [frame], euler).Ok?
    ensures "Chest" in ProcessJoint(p, Chest, [frame], euler).value.translations
    ensures ProcessJoint(p, Chest, [frame], euler).value.translations["Chest"] == [Vec3(frame[0], frame[1], frame[2])]
  {
    ChestChannels();
    StepSucceeds(p, Chest, [frame], euler);
    InheritedTranslations(p, Chest, [frame], euler);
  }

  /** A one-frame file: the chest, which declares no position, is given the hips'
      translation, the frame's first three samples. */
  lemma ChestInheritsHipsTranslation(frame: Frame, euler: EulerToQuat)
    requires |frame| == 9
    ensures var bvh := Bvh([Hips, Chest], [frame], 0.04);
      && KeyFramesOf(bvh, euler).Ok?
      && "Chest" in KeyFramesOf(bvh, euler).value.jointTranslations
      && KeyFramesOf(bvh, euler).value.jointTranslations["Chest"] == [Vec3(frame[0], frame[1], frame[2])]
  {
    var joints := [Hips, Chest];
    assert joints[..0] == [] && joints[..2] == joints;
    ProcessJointsStep(joints, 0, [frame], euler, InitialProgress);
    HipsStep(frame, euler);
    var p := ProcessJoint(InitialProgress, Hips, [frame], euler).value;
    ProcessJointsStep(joints, 1, [frame], euler, p);
    ChestStep(p, frame, euler);
  }

  /** The three rotation kinds are all undeclared. */
  predicate NoRotationChannels(chs: seq<Channel>) {
    Undeclared(chs, RotationX) && Undeclared(chs, RotationY) && Undeclared(chs, RotationZ)
  }

  /** A channel list without rotation channels has no rotation kinds. */
  lemma {:induction false} NoRotationKinds(chs: seq<Channel>)
    requires NoRotationChannels(chs)
    ensures RotationKinds(chs) == []
    decreases |chs|
  {
    if |chs| > 0 {
      NoRotationKinds(chs[..|chs| - 1]);
    }
  }

  /** As written: a joint without rotation channels keeps the previous joint's slots and
      rotation buffers, so it is given the rotations made from them in the order they
      name. */
  lemma InheritedRotations(p: Progress, joint: JointRecord, frames: seq<Frame>, euler: EulerToQuat)
    requires ProcessJoint(p, joint, frames, euler).Ok?
    requires NoRotationChannels(joint.channels)
    ensures EulerOrderOf(p.scratch.order).Ok?
    ensures HasKinds(p.scratch.buffers, RotationX, RotationY, RotationZ)
    ensures var (xs, ys, zs) := (p.scratch.buffers[RotationX], p.scratch.buffers[RotationY], p.scratch.buffers[RotationZ]);
      var q := ProcessJoint(p, joint, frames, euler).value;
      && SameLength3(xs, ys, zs)
      && joint.name in q.rotations
      && |q.rotations[joint.name]| == |xs|
      && forall i :: 0 <= i < |xs| ==>
           q.rotations[joint.name][i] == euler(EulerOrderOf(p.scratch.order).value, xs[i], ys[i], zs[i])
  {
    UndeclaredHasNoLast(joint.channels, RotationX);
    UndeclaredHasNoLast(joint.channels, RotationY);
    UndeclaredHasNoLast(joint.channels, RotationZ);
    NoRotationKinds(joint.channels);
    ScanChannelsState(p.scratch, joint.channels, frames);
    var t := ScanChannels(p.scratch, joint.channels, frames).value;
    assert t.0.order == p.scratch.order;
  }

  /** A neck joint with a single rotation channel, Z, at motion index 6. */
  const Neck := JointRecord("Neck", Vec3(0.0, 1.0, 0.0), None, [Channel(RotationZ, 6)], [])

  /** The hips' step leaves their X and Y rotation samples in the rotation buffers. */
  lemma HipsRotationBuffers(frame: Frame, euler: EulerToQuat)
    requires |frame| == 9
    ensures ProcessJoint(InitialProgress, Hips, [frame], euler).Ok?
    ensures var s := ProcessJoint(InitialProgress, Hips, [frame], euler).value.scratch;
      && RotationX in s.buffers && RotationY in s.buffers
      && s.buffers[RotationX] == [frame[4]] && s.buffers[RotationY] == [frame[5]]
  {
    HipsChannels();
    StepSucceeds(InitialProgress, Hips, [frame], euler);
    HipsScan(frame);
  }

  /** The neck's step after the hips': its one slot write leaves the hips' X and Y in the
      other two slots, so the order check passes with ZXY, and its rotation is made of the
      hips' X and Y samples and its own Z sample. */
  lemma NeckStep(p: Progress, frame: Frame, euler: EulerToQuat)
    requires |frame| == 9 && BuffersHold(p.scratch.buffers, 1)
    requires p.scratch.order == [RotationZ, RotationX, RotationY]
    requires HasKinds(p.scratch.buffers, PositionX, PositionY, PositionZ)
    requires RotationX in p.scratch.buffers && RotationY in p.scratch.buffers
    requires p.scratch.buffers[RotationX] == [frame[4]] && p.scratch.buffers[RotationY] == [frame[5]]
    ensures ProcessJoint(p, Neck, [frame], euler).Ok?
    ensures "Neck" in ProcessJoint(p, Neck, [frame], euler).value.rotations
    ensures ProcessJoint(p, Neck, [frame], euler).value.rotations["Neck"] == [euler(ZXY, frame[4], frame[5], frame[6])]
  {
    NeckScan(p.scratch, frame);
    var b := p.scratch.buffers[RotationZ := [frame[6]]];
    assert EulerOrderOf(p.scratch.order) == Ok(ZXY);
    assert ExtractJointPositions(b).Ok?;
    NeckRotations(b, frame, euler);
  }

  /** The neck's channel loop refills only the Z rotation buffer and rewrites slot 0 with
      the Z it already held. */
  lemma NeckScan(s: Scratch, frame: Frame)
    requires |frame| == 9 && s.order == [RotationZ, RotationX, RotationY]
    ensures ScanChannels(s, Neck.channels, [frame]) == Ok((Scratch(s.buffers[RotationZ := [frame[6]]], s.order), 1))
  {
    var chs := Neck.channels;
    assert chs[..0] == [];
    var c := Column([frame], chs[0]);
    assert c.Some? && |c.value| == 1 && c.value[0] == frame[6];
    assert c.value == [frame[6]];
    assert s.order[0 := RotationZ] == s.order;
  }

  /** The neck's rotation: the hips' X and Y samples with the neck's own Z, in order ZXY. */
  lemma NeckRotations(b: map<ChannelType, seq<real>>, frame: Frame, euler: EulerToQuat)
    requires |frame| == 9
    requires RotationX in b && RotationY in b && RotationZ in b
    requires b[RotationX] == [frame[4]] && b[RotationY] == [frame[5]] && b[RotationZ] == [frame[6]]
    ensures ExtractJointRotations(b, ZXY, euler) == Ok([euler(ZXY, frame[4], frame[5], frame[6])])
  {
    var r := ExtractJointRotations(b, ZXY, euler);
    assert r.Ok? && |r.value| == 1;
    assert r.value[0] == euler(ZXY, frame[4], frame[5], frame[6]);
    assert r.value == [euler(ZXY, frame[4], frame[5], frame[6])];
  }

  /** A one-frame file with Hips (rotation channels Z, X, Y) and then Neck (rotation channel
      Z only): the conversion succeeds, and the neck's rotation is computed in the order
      ZXY from the hips' X and Y samples and the neck's own Z sample. */
  lemma NeckReusesHipsRotation(frame: Frame, euler: EulerToQuat)
    requires |frame| == 9
    ensures var bvh := Bvh([Hips, Neck], [frame], 0.04);
      && KeyFramesOf(bvh, euler).Ok?
      && "Neck" in KeyFramesOf(bvh, euler).value.jointRotations
      && KeyFramesOf(bvh, euler).value.jointRotations["Neck"] == [euler(ZXY, frame[4], frame[5], frame[6])]
  {
    var joints := [Hips, Neck];
    assert joints[..0] == [] && joints[..2] == joints;
    ProcessJointsStep(joints, 0, [frame], euler, InitialProgress);
    HipsStep(frame, euler);
    HipsRotationBuffers(frame, euler);
    var p := ProcessJoint(InitialProgress, Hips, [frame], euler).value;
    ProcessJointsStep(joints, 1, [frame], euler, p);
    NeckStep(p, frame, euler);
  }

  // ---------------------------------------------------------------------------------
  // The corrected step

  /** The joint step with buffers and slots of the joint's own: the channel loop starts
      from empty buffers and fresh slots, and a joint that did not declare all three
      position kinds has no positions. */
  function ProcessJointFresh(p: Progress, joint: JointRecord, frames: seq<Frame>, euler: EulerToQuat)
    : Outcome<Progress, LoaderError>
  {
    var scanned :- ScanChannels(InitialScratch, joint.channels, frames);
    var s := scanned.0;
    var order :- EulerOrderOf(s.order);
    var positions :- if HasKinds(s.buffers, PositionX, PositionY, PositionZ) then ExtractJointPositions(s.buffers)
                     else Ok(None);
    var translations := if positions.Some? then p.translations[joint.name := positions.value] else p.translations;
    var rotations :- ExtractJointRotations(s.buffers, order, euler);
    Ok(Progress(s, translations, p.rotations[joint.name := rotations]))
  }

  /** Corrected: a joint gets a translation curve exactly when it declares all three
      position kinds (and there is a frame), and the curve holds its own samples, those of
      its last channel of each kind. */
  lemma FreshTranslations(p: Progress, joint: JointRecord, frames: seq<Frame>, euler: EulerToQuat)
    requires ProcessJointFresh(p, joint, frames, euler).Ok?
    ensures var q := ProcessJointFresh(p, joint, frames, euler).value;
      var chs := joint.channels;
      var own := LastOfKind(chs, PositionX).Some? && LastOfKind(chs, PositionY).Some? && LastOfKind(chs, PositionZ).Some?;
      && (!own ==> q.translations == p.translations)
      && (own ==>
            && |frames| > 0
            && joint.name in q.translations
            && q.translations == p.translations[joint.name := q.translations[joint.name]]
            && |q.translations[joint.name]| == |frames|
            && forall f :: 0 <= f < |frames| ==>
                   var (cx, cy, cz) := (LastOfKind(chs, PositionX).value, LastOfKind(chs, PositionY).value,
                                        LastOfKind(chs, PositionZ).value);
                   && cx.motionIndex < |frames[f]| && cy.motionIndex < |frames[f]| && cz.motionIndex < |frames[f]|
                   && q.translations[joint.name][f]
                      == Vec3(frames[f][cx.motionIndex], frames[f][cy.motionIndex], frames[f][cz.motionIndex]))
  {
    var chs := joint.channels;
    var s := ScanChannels(InitialScratch, chs, frames).value.0;
    FreshBuffers(chs, frames);
    var own := HasKinds(s.buffers, PositionX, PositionY, PositionZ);
    assert own <==> LastOfKind(chs, PositionX).Some? && LastOfKind(chs, PositionY).Some? && LastOfKind(chs, PositionZ).Some?;
    if own {
      var positions := ExtractJointPositions(s.buffers);
      assert positions.Ok?;
      ScanChannelsState(InitialScratch, chs, frames);
      assert |frames| > 0 by {
        var rotations := ExtractJointRotations(s.buffers, EulerOrderOf(s.order).value, euler);
        assert rotations.Ok?;
      }
    }
  }

  /** From empty buffers, the channel loop leaves a buffer for exactly the declared kinds. */
  lemma FreshBuffers(chs: seq<Channel>, frames: seq<Frame>)
    requires ScanChannels(InitialScratch, chs, frames).Ok?
    ensures forall kind :: kind in ScanChannels(InitialScratch, chs, frames).value.0.buffers <==> LastOfKind(chs, kind).Some?
  {
    ScanChannelsState(InitialScratch, chs, frames);
  }

  /** A rotation kind whose last channel exists is one of the rotation kinds. */
  lemma {:induction false} DeclaredRotationKind(chs: seq<Channel>, kind: ChannelType)
    requires IsRotation(kind) && LastOfKind(chs, kind).Some?
    ensures kind in RotationKinds(chs)
    decreases |chs|
  {
    if chs[|chs| - 1].kind != kind {
      DeclaredRotationKind(chs[..|chs| - 1], kind);
    }
  }

  /** Corrected: a joint step succeeds only when the joint itself declares exactly the
      rotation kinds X, Y, Z or Z, X, Y, in that order; its rotation curve then holds one
      quaternion per frame, made in that order of its own samples, those of its last channel
      of each kind. */
  lemma FreshRotations(p: Progress, joint: JointRecord, frames: seq<Frame>, euler: EulerToQuat)
    requires ProcessJointFresh(p, joint, frames, euler).Ok?
    ensures var k := RotationKinds(joint.channels);
      k == [RotationX, RotationY, RotationZ] || k == [RotationZ, RotationX, RotationY]
    ensures var q := ProcessJointFresh(p, joint, frames, euler).value;
      var chs := joint.channels;
      var order := if RotationKinds(chs) == [RotationX, RotationY, RotationZ] then XYZ else ZXY;
      && LastOfKind(chs, RotationX).Some? && LastOfKind(chs, RotationY).Some? && LastOfKind(chs, RotationZ).Some?
      && joint.name in q.rotations
      && q.rotations == p.rotations[joint.name := q.rotations[joint.name]]
      && |q.rotations[joint.name]| == |frames| > 0
      && forall f :: 0 <= f < |frames| ==>
           var (cx, cy, cz) := (LastOfKind(chs, RotationX).value, LastOfKind(chs, RotationY).value,
                                LastOfKind(chs, RotationZ).value);
           && cx.motionIndex < |frames[f]| && cy.motionIndex < |frames[f]| && cz.motionIndex < |frames[f]|
           && q.rotations[joint.name][f]
              == euler(order, frames[f][cx.motionIndex], frames[f][cy.motionIndex], frames[f][cz.motionIndex])
  {
    var chs := joint.channels;
    var s := ScanChannels(InitialScratch, chs, frames).value.0;
    var order := EulerOrderOf(s.order).value;
    var rotations := ExtractJointRotations(s.buffers, order, euler);
    assert rotations.Ok?;
    FreshSlots(chs, frames);
    ScanChannelsState(InitialScratch, chs, frames);
    assert order == if RotationKinds(chs) == [RotationX, RotationY, RotationZ] then XYZ else ZXY;
  }

  /** From fresh slots and empty buffers, a channel loop that leaves all three rotation
      buffers filled has met exactly three rotation channels, whose kinds are then the
      slots. */
  lemma FreshSlots(chs: seq<Channel>, frames: seq<Frame>)
    requires ScanChannels(InitialScratch, chs, frames).Ok?
    requires HasKinds(ScanChannels(InitialScratch, chs, frames).value.0.buffers, RotationX, RotationY, RotationZ)
    ensures LastOfKind(chs, RotationX).Some? && LastOfKind(chs, RotationY).Some? && LastOfKind(chs, RotationZ).Some?
    ensures |RotationKinds(chs)| == 3
    ensures ScanChannels(InitialScratch, chs, frames).value.0.order == RotationKinds(chs)
  {
    ScanChannelsState(InitialScratch, chs, frames);
    DeclaredRotationKind(chs, RotationX);
    DeclaredRotationKind(chs, RotationY);
    DeclaredRotationKind(chs, RotationZ);
    var k := RotationKinds(chs);
    assert |k| == 3 by {
      if |k| < 3 {
        assert false;
      }
    }
  }

  /** True when the channels declare all three position kinds. */
  predicate DeclaresPositions(chs: seq<Channel>) {
    LastOfKind(chs, PositionX).Some? && LastOfKind(chs, PositionY).Some? && LastOfKind(chs, PositionZ).Some?
  }

  /** The joint loop with the corrected step. */
  function ProcessJointsFresh(joints: seq<JointRecord>, frames: seq<Frame>, euler: EulerToQuat)
    : Outcome<Progress, LoaderError>
    decreases |joints|
  {
    if |joints| == 0 then Ok(InitialProgress)
    else
      var p :- ProcessJointsFresh(joints[..|joints| - 1], frames, euler);
      ProcessJointFresh(p, joints[|joints| - 1], frames, euler)
  }

  /** The names of the joints, in a prefix, that declare all three position kinds. */
  function PositionedNames(joints: seq<JointRecord>): set<string>
    decreases |joints|
  {
    if |joints| == 0 then {}
    else
      var last := joints[|joints| - 1];
      PositionedNames(joints[..|joints| - 1]) + (if DeclaresPositions(last.channels) then {last.name} else {})
  }

  /** Corrected, over the whole joint loop: the translation curves are exactly those of the
      joints that declare all three position kinds. */
  lemma {:induction false} FreshKeyFramesTranslations(joints: seq<JointRecord>, frames: seq<Frame>, euler: EulerToQuat)
    requires ProcessJointsFresh(joints, frames, euler).Ok?
    ensures ProcessJointsFresh(joints, frames, euler).value.translations.Keys == PositionedNames(joints)
    decreases |joints|
  {
    if |joints| > 0 {
      var pre := joints[..|joints| - 1];
      FreshKeyFramesTranslations(pre, frames, euler);
      var p := ProcessJointsFresh(pre, frames, euler).value;
      FreshTranslations(p, joints[|joints| - 1], frames, euler);
    }
  }
}
