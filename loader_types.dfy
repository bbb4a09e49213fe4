/** The data the BVH asset loader consumes and produces: the parser's joints, channels
    and frames (as plain sequences), the loader's error enum and its key-frame asset. */
module LoaderTypes {
  import opened Common

  datatype ChannelType = PositionX | PositionY | PositionZ | RotationX | RotationY | RotationZ

  predicate IsRotation(kind: ChannelType) {
    kind == RotationX || kind == RotationY || kind == RotationZ
  }

  /** A channel of a joint: its kind and the column it occupies in every frame. */
  datatype Channel = Channel(kind: ChannelType, motionIndex: nat)

  /** One joint as the parser delivers it. `children` are indices into the joint array. */
  datatype JointRecord = JointRecord(
    name: string,
    offset: Vec3,
    endSite: Option<Vec3>,
    channels: seq<Channel>,
    children: seq<nat>)

  /** A frame holds one sample per motion index. */
  type Frame = seq<real>

  /** A parsed BVH file: the joints in file order (the root first), the frames, and the
      frame time in seconds. */
  datatype Bvh = Bvh(joints: seq<JointRecord>, frames: seq<Frame>, frameTime: real)

  /** `Frame::get(channel)`: the sample in the channel's column, if the frame has one. */
  function FrameValue(frame: Frame, ch: Channel): (r: Option<real>)
    ensures r.Some? <==> ch.motionIndex < |frame|
    ensures r.Some? ==> r.value == frame[ch.motionIndex]
  {
    if ch.motionIndex < |frame| then Some(frame[ch.motionIndex]) else None
  }

  datatype EulerRot = XYZ | ZXY

  /** The reason carried by `UnexpectedData`. Both extractors use the same message for
      unequal buffer lengths, so one case serves both. */
  datatype DataIssue =
    | UnexpectedEulerOrder(observed: seq<ChannelType>)
    | ChannelLengthsDiffer
    | MissingRotationChannels
    | NoRootJoint

  /** `BvhAssetLoaderError`, without the I/O and parser cases. */
  datatype LoaderError = UnexpectedData(issue: DataIssue) | NotEnoughSamples

  /** The `KeyFrames` asset. */
  datatype KeyFrames = KeyFrames(
    frameTime: real,
    count: nat,
    jointTranslations: map<string, seq<Vec3>>,
    jointRotations: map<string, seq<Quat>>)

  /** `Quat::from_euler(order, x.to_radians(), y.to_radians(), z.to_radians())`. */
  type EulerToQuat = (EulerRot, real, real, real) -> Quat
}
