# animgen core, modelled in Dafny

This project models the data-handling core of animgen, in three parts.

- **BVH asset loader** (`preview/src/bvh_asset_loader.rs`). It turns parsed BVH joints and frames into key frames.
  - `bvh_to_key_frames` walks the joints. For every joint it refills a map of per-channel-kind sample buffers that is shared across joints. It writes the kinds of the rotation channels into a three-slot array, also shared, and maps that array to the Euler order XYZ or ZXY.
  - `extract_joint_positions` and `extract_joint_rotations` zip the x/y/z buffers.
  - `create_curve` stamps sample `i` with time `i * frame_duration`.
  - `JointHierarchy::try_from` builds the owned joint tree.
  - `target_id` finds the root-to-node name path of a bone with a pre-order search over a mutable path stack.
- **GAV encoder** (`bvh_to_gav/src/lib.rs`, `bvh_to_gav`). It flattens the root positions, then the vector part of every joint rotation, into a buffer. It reshapes the buffer to an array of shape (joints + 1, frames, 3).
- **GAV decoder** (`gav_to_animation`). It reads that array back into an `Animation`: root positions, and per joint the normalised quaternion with the stored vector part and scalar part 0. It also has the accessors `joint_count` and `frame_count`.

`bvh_to_gav/src/main.rs` carries copies of these with identical bodies at lines 11-33, 35-48 and 50-73 (only the visibility differs: `fn bvh_to_gav` there, `pub fn` in `lib.rs`). One model serves both files.

## How the model is built

- **Imperative code is modelled imperatively.** Each such method is proved equal to a pure function whose properties are proved as lemmas.
  - `bvh_to_key_frames` is `KeyFrameExtraction.BvhToKeyFrames`. It has one method per loop level: joints, then one joint's channels, then the frames of one channel. Its state is a local map of buffers and a three-element `array`. It is proved equal to `ChannelSampler.KeyFramesOf`.
  - `target_id` is the recursive method `TargetPath.SearchPath`. It works over a `PathStack` class whose `Push` and `Pop` change its `names` field.
  - `bvh_to_gav` and `gav_to_animation` are methods with the source's push loops.
- **Pure code is modelled as functions:** the extractors, `create_curve`, `build_hierarchy` and the accessors.
- **Panics are modelled as an outcome.** A panic (`expect`, an index out of bounds, `assert_eq!`, an unsigned underflow) becomes the third case `Panic(message)` of `Common.Outcome`. It sits beside `Ok` and `Err`, so the model still covers those inputs.
- **Float operations are parameters.** All numbers are `real`. The model passes the operations the code only hands through as function parameters: `Quat::from_euler` with its degree conversion, the `as f32` cast, `Quat::normalize`, and the validation inside `SteppedKeyframeCurve::new`.
- **Parser output is plain sequences.** A joint record lists its channels (kind and column) and its children (indices into the joint array). A frame is a sequence of samples. Every child index is taken to come after its parent, as in the pre-order layout of BVH files, which makes `build_hierarchy` terminate. The parser's `BvhData` is two nested sequences.
- **Behaviour the model keeps as the code has it:**
  - `create_curve` does not count the samples itself. It leaves the two-sample minimum to the curve library, which the model takes as a parameter.
  - An unexpected rotation order is returned with `return Err` from the whole conversion, not skipped for one joint.
  - An array with an empty first axis makes `gav_to_animation` panic at `curve_count - 1`, in both builds. A debug build stops at the subtraction; a release build wraps to `usize::MAX` and the `vec!` allocation then panics with "capacity overflow". The model's panic message is the debug one.
  - Translation curves go to every joint that finds filled position buffers, including joints without position channels that follow one with them; rotations and the rotation order are shared in the same way. See Findings.

## Model

| member | source | states |
|---|---|---|
| `LoaderTypes.FrameValue` | preview/src/bvh_asset_loader.rs:225 | definition of the library call `frame.get(channel)`, not a proved property: a sample exists exactly when the channel's column is inside the frame, and it is that column's value |
| `ChannelSampler.ChannelStep` | preview/src/bvh_asset_loader.rs:220-233 | definition of the channel-loop body; its properties are stated by `ChannelSampler.ScanChannelsSucceeds` and `ChannelSampler.ScanChannelsState` |
| `ChannelSampler.ScanChannels` | preview/src/bvh_asset_loader.rs:218-234 | definition of the channel loop from `rotation_index = 0`; its properties are stated by `ChannelSampler.ScanChannelsSucceeds` and `ChannelSampler.ScanChannelsState` |
| `ChannelSampler.Column` | preview/src/bvh_asset_loader.rs:222-227 | the refilled buffer of a channel has exactly one sample per frame, in frame order, sample `f` being frame `f`'s column; it is absent (the source panics) exactly when some frame lacks the column |
| `ChannelSampler.ScanChannelsSucceeds` | preview/src/bvh_asset_loader.rs:219-234 | the channel loop of a joint never returns an error value; it completes exactly when every channel has a sample in every frame and the joint has at most three rotation channels (a fourth indexes past the slots) |
| `ChannelSampler.ScanChannelsState` | preview/src/bvh_asset_loader.rs:212-234 | after a joint's channel loop the rotation index counts its rotation channels; the slots hold their kinds in declaration order followed by the previous joint's remaining entries; every declared kind's buffer holds one sample per frame from the last channel of that kind; buffers of undeclared kinds are unchanged |
| `ChannelSampler.EulerOrderOf` | preview/src/bvh_asset_loader.rs:236-253 | definition of the `match rotation_order`; its properties are stated by `ChannelSampler.RotationOrderOfJoint` |
| `ChannelSampler.RotationOrderOfJoint` | preview/src/bvh_asset_loader.rs:237-253 | with three rotation channels, [X, Y, Z] gives XYZ and [Z, X, Y] gives ZXY, in both directions; any other slot contents fail with `UnexpectedData` carrying the observed slots |
| `ChannelSampler.ZipWith3` | preview/src/bvh_asset_loader.rs:340 | `izip!(xs, ys, zs).map(f)`: one output per index, output `i` being `f` of the `i`-th x, y and z |
| `ChannelSampler.ExtractJointPositions` | preview/src/bvh_asset_loader.rs:317-342 | panics exactly when a position buffer does not exist; fails with `UnexpectedData` exactly on unequal lengths; None exactly for empty equal buffers; otherwise one `Vec3` per index from the `i`-th x, y, z |
| `ChannelSampler.ExtractJointRotations` | preview/src/bvh_asset_loader.rs:344-379 | panics exactly when a rotation buffer does not exist; fails on unequal lengths and on empty buffers, with the message of each case; otherwise one quaternion per index, `from_euler(order, x, y, z)` of the `i`-th samples |
| `ChannelSampler.ProcessJoint` | preview/src/bvh_asset_loader.rs:218-264 | definition of the joint-loop body; its properties are stated by `ChannelSampler.ProcessJointShape`, `StaleBuffers.InheritedTranslations` and `StaleBuffers.InheritedRotations` |
| `ChannelSampler.ProcessJoints` | preview/src/bvh_asset_loader.rs:217-265 | definition of the joint loop over a prefix of the joints; its properties are stated by `ChannelSampler.ProcessJointsShape` and `KeyFrameExtraction.JointsFailurePersists` |
| `ChannelSampler.KeyFramesOf` | preview/src/bvh_asset_loader.rs:204-273 | definition of `bvh_to_key_frames`; its properties are stated by `ChannelSampler.KeyFramesShape` and `KeyFrameExtraction.JointFailureIsFinal` |
| `ChannelSampler.ProcessJointShape` | preview/src/bvh_asset_loader.rs:218-266 | one successful joint step keeps every buffer at one sample per frame, needs at least one frame, adds exactly one rotation curve (under the joint's name, one sample per frame) and either leaves the translations alone or adds exactly one translation curve under that name |
| `ChannelSampler.ProcessJointsShape` | preview/src/bvh_asset_loader.rs:218-266 | after any prefix of the joint loop, the rotation curves are keyed by exactly the joint names, translations only by names with rotations, and every buffer and curve has one sample per frame |
| `ChannelSampler.KeyFramesShape` | preview/src/bvh_asset_loader.rs:205-274 | a successful conversion records the frame count and frame time, has a rotation curve for every joint name, a translation curve only for names with a rotation curve, one sample per frame in every curve, and at least one frame when there is a joint |
| `KeyFrameExtraction.ScanFailurePersists` | preview/src/bvh_asset_loader.rs:219-234 | once the channel loop has panicked, the later channels do not change the outcome |
| `KeyFrameExtraction.JointsFailurePersists` | preview/src/bvh_asset_loader.rs:218-264 | once the joint loop has failed, the later joints do not change the outcome |
| `KeyFrameExtraction.JointFailureIsFinal` | preview/src/bvh_asset_loader.rs:247-264 | the failure of joint `j`'s step (a `return Err` or a `?`) is the result of the whole conversion |
| `KeyFrameExtraction.ChannelPanicIsFinal` | preview/src/bvh_asset_loader.rs:225 | a panic in channel `c` of joint `j` is the result of the whole conversion |
| `KeyFrameExtraction.RefillBuffer` | preview/src/bvh_asset_loader.rs:221-227 | the frame loop replaces the buffer of the channel's kind by the channel's column and changes no other buffer; it stops (the source panics) exactly when some frame lacks the column |
| `KeyFrameExtraction.ScanJointChannels` | preview/src/bvh_asset_loader.rs:219-234 | the channel loop over the shared buffers and the shared slot array computes the buffers, slots and rotation index of `ScanChannels`, or its panic |
| `KeyFrameExtraction.ProcessJointInPlace` | preview/src/bvh_asset_loader.rs:219-264 | the body of the joint loop computes the new buffers, slots and curve maps of `ProcessJoint`, or its failure |
| `KeyFrameExtraction.BvhToKeyFrames` | preview/src/bvh_asset_loader.rs:205-274 | the nested loops compute exactly `KeyFramesOf`, the fold of the joint step, including every error and panic |
| `Curves.Stamp` | preview/src/bvh_asset_loader.rs:385-388 | one keyframe per sample, keyframe `i` being (`i * frameDuration`, sample `i`) |
| `Curves.CreateCurve` | preview/src/bvh_asset_loader.rs:381-391 | definition of `create_curve`; its properties are stated by `Curves.CreateCurveKeyframes` |
| `Curves.CreateCurveKeyframes` | preview/src/bvh_asset_loader.rs:381-391 | the curve holds one keyframe per input, in input order, the `i`-th at time `i * frameDuration`; the only failure is the library's, reported as `NotEnoughSamples` |
| `Curves.StampSpacing` | preview/src/bvh_asset_loader.rs:385-388 | consecutive keyframes lie exactly one frame duration apart |
| `Hierarchy.HierarchyOf` | preview/src/bvh_asset_loader.rs:423-431 | `try_from` succeeds exactly when there is a joint, with the first joint's name and number of children; otherwise it fails with `UnexpectedData` ("No root joint found") |
| `Hierarchy.BuildHierarchy` | preview/src/bvh_asset_loader.rs:414-421 | definition of `build_hierarchy`; its properties are stated by `Hierarchy.BuildFollows` and `Hierarchy.PreOrderMatches` |
| `Hierarchy.BuildFollows` | preview/src/bvh_asset_loader.rs:414-421 | every route of child positions reaches a node of the built tree exactly when it reaches a joint record; that node is the joint's tree and carries its name, offset, end site and number of children |
| `Hierarchy.PreOrderMatches` | preview/src/bvh_asset_loader.rs:414-421 | a pre-order walk of the built tree meets the joints' names in the order of a pre-order walk of the records, the children in listed order |
| `TargetPath.PathStack.constructor` | preview/src/bvh_asset_loader.rs:468 | the path starts empty |
| `TargetPath.PathStack.Push` | preview/src/bvh_asset_loader.rs:450 | pushing appends the name |
| `TargetPath.PathStack.Pop` | preview/src/bvh_asset_loader.rs:461 | popping removes the last name, and does nothing on an empty path |
| `TargetPath.SearchPath` | preview/src/bvh_asset_loader.rs:445-465 | a successful search returns the old path extended by the names from the node to the first match, and leaves that on the stack; a failed one returns None and leaves the stack exactly one name longer, the node's own |
| `TargetPath.TargetId` | preview/src/bvh_asset_loader.rs:466-471 | the search from the root with an empty stack returns exactly `FindPath` |
| `TargetPath.FindPath` | preview/src/bvh_asset_loader.rs:445-465 | definition of the search as a function; its properties are stated by `TargetPath.FindPathIsFirstInPreOrder`, `TargetPath.FindPathNoneIff` and `TargetPath.FindPathRoute` |
| `TargetPath.FindInChildren` | preview/src/bvh_asset_loader.rs:452-463 | definition of the loop over the children; its properties are stated with those of `TargetPath.FindPath` |
| `TargetPath.FindPathIsFirstInPreOrder` | preview/src/bvh_asset_loader.rs:445-465 | the search returns the first root-to-node path, in pre-order, that ends at a node with the bone's name |
| `TargetPath.FindPathNoneIff` | preview/src/bvh_asset_loader.rs:464 | the search returns None exactly when no node of the tree carries the name |
| `TargetPath.FindPathRoute` | preview/src/bvh_asset_loader.rs:450-454 | a found path is the sequence of names along an actual route from the root to a node that carries the requested name |
| `TargetPath.SimpleHierarchyTargets` | preview/src/bvh_asset_loader.rs:479-517 | in root -> child1 -> child2, the searches give [root, child1, child2], [root] and None, as the unit test expects |
| `TargetPath.BacktrackingScenario` | preview/src/bvh_asset_loader.rs:457-463 | in root -> A -> B, root -> C, the search for C fails below A and still returns [root, C] |
| `Gav.FromShapeVec` | bvh_to_gav/src/lib.rs:42 | definition of the library call `Array3::from_shape_vec`, not a proved property: the reshape succeeds exactly when the buffer length is the product of the shape, with that shape and the buffer as elements; a buffer shorter than the shape gives `OutOfBounds` and a longer one `IncompatibleShape` |
| `GavEncode.Samples` | bvh_to_gav/src/lib.rs:24-28 | three samples per vector |
| `GavEncode.SamplesLayout` | bvh_to_gav/src/lib.rs:24-28 | sample `3 * i + k` is component `k` of vector `i`, cast |
| `GavEncode.PushPositions` | bvh_to_gav/src/lib.rs:24-28 | the root loop appends the root's samples to the buffer |
| `GavEncode.PushVectorParts` | bvh_to_gav/src/lib.rs:31-39 | the inner joint loop appends the samples of the joint's rotation vector parts |
| `GavEncode.PushJoints` | bvh_to_gav/src/lib.rs:30-40 | the joint loop appends every joint's samples, joint after joint |
| `GavEncode.GavOf` | bvh_to_gav/src/lib.rs:21-43 | definition of `bvh_to_gav`; its properties are stated by `GavEncode.GavShape` and `GavEncode.UniformLayout` |
| `GavEncode.BvhToGav` | bvh_to_gav/src/lib.rs:21-43 | the loops and the reshape compute `GavOf`: a panic on a missing root, else the reshape of root samples followed by joint samples |
| `GavEncode.JointSamplesLength` | bvh_to_gav/src/lib.rs:30-40 | the joints contribute three numbers per rotation |
| `GavEncode.JointSamplesLayout` | bvh_to_gav/src/lib.rs:30-40 | component `k` of rotation `q` of joint `j` sits after the samples of all rotations of the joints before `j` and of the rotations before `q` |
| `GavEncode.GavShape` | bvh_to_gav/src/lib.rs:21-43 | the conversion panics exactly without a root; it succeeds exactly when the root's and all joints' sample counts add up to `(joints + 1) * frameCount`; it fails with `OutOfBounds` exactly when they add up to less, and with `IncompatibleShape` exactly when they add up to more |
| `GavEncode.ShortBufferOutOfBounds` | bvh_to_gav/src/lib.rs:21-43 | a root with one position, one joint without rotations and frame count 1 fill three of the six numbers the shape asks for, and the conversion fails with `OutOfBounds` |
| `GavEncode.UniformLayout` | bvh_to_gav/src/lib.rs:21-43 | when the root and every joint have `frameCount` samples, the conversion succeeds with shape (joints + 1, frameCount, 3); `[0, f, k]` is the root's position `f`, and `[j + 1, f, k]` is the vector part of joint `j`'s rotation `f` |
| `GavEncode.ScalarPartDropped` | bvh_to_gav/src/lib.rs:32-38 | rotations that differ only in the scalar part encode identically |
| `Gav.Animation.JointCount` | bvh_to_gav/src/lib.rs:11-13 | definition of `joint_count`, the number of joint rotation curves; its value is stated by `GavDecode.Decode` and `GavRoundTrip.RoundTrip` |
| `Gav.Animation.FrameCount` | bvh_to_gav/src/lib.rs:15-17 | definition of `frame_count`, the number of root positions; its value is stated by `GavDecode.Decode` and `GavRoundTrip.RoundTrip` |
| `GavDecode.Decode` | bvh_to_gav/src/lib.rs:46-69 | never an error value; it panics with an underflow exactly on an empty first axis, and with the failed assertion exactly when frames exist and do not hold three numbers; otherwise `curve_count - 1` joints, `frame_count` frames, each joint curve as long as the root's, root positions read verbatim from slot 0, and rotation `j, f` rebuilt from slot `j + 1`, frame `f` |
| `GavDecode.AnimationOf` | bvh_to_gav/src/lib.rs:46-69 | definition of `gav_to_animation`, `Decode` with the rebuild `normalize(x, y, z, 0)`; its properties are stated by `GavDecode.Decode` and the round-trip lemmas |
| `GavDecode.GavToAnimation` | bvh_to_gav/src/lib.rs:46-69 | the nested axis loops compute `Decode` with the rebuild `normalize(x, y, z, 0)`, including both panics |
| `GavRoundTrip.RoundTrip` | bvh_to_gav/src/lib.rs:21-69 | encoding data with `frameCount` samples everywhere and decoding gives `joints` joints and `frameCount` frames, the cast root positions, and for every joint and frame the decoder's rebuild of the cast vector part |
| `GavRoundTrip.MisalignedRootAccepted` | bvh_to_gav/src/lib.rs:21-69 | the frame count is not checked against the data: two root positions, one joint without rotations and frame count 1 encode, and decoding reads the second root position as that joint's rotation |
| `GavRoundTrip.DecodedScalarIsZero` | bvh_to_gav/src/lib.rs:58-61 | for a normalisation that keeps a zero scalar part on non-zero quaternions, every decoded joint rotation whose stored vector part is non-zero has scalar part 0 |
| `GavRoundTrip.IdentityRotationLost` | bvh_to_gav/src/lib.rs:58-61 | the identity rotation does not survive encoding and decoding: its stored vector part is zero, and normalising the zero quaternion does not give the identity |
| `GavRoundTrip.QuarterTurnScalarLost` | bvh_to_gav/src/lib.rs:58-61 | a quarter turn about x, whose cast vector part is non-zero, comes back with scalar part 0 instead of its own |
| `GavRoundTrip.RecoverUnit` | bvh_to_gav/src/lib.rs:32-35 | the claim of the encoder's comment: the vector part of a unit quaternion with non-negative scalar part determines that scalar part |
| `GavRoundTrip.RecoveredRoundTrip` | bvh_to_gav/src/lib.rs:32-35 | with the scalar part recomputed from the unit norm and an exact cast, every such rotation comes back unchanged, and so do the root positions |
| `StaleBuffers.InheritedTranslations` | preview/src/bvh_asset_loader.rs:254-259 | as written, a joint without position channels that finds filled position buffers gets a translation curve made of those buffers |
| `StaleBuffers.InheritedRotations` | preview/src/bvh_asset_loader.rs:211-264 | as written, a joint without rotation channels keeps the previous joint's slots and rotation buffers, passes the order check, and gets the rotation curve made of those buffers |
| `StaleBuffers.NeckReusesHipsRotation` | preview/src/bvh_asset_loader.rs:211-233 | as written, in a one-frame file with Hips (Z, X, Y rotations) and Neck (a Z rotation only), Neck's rotation is made in order ZXY from the Hips' X and Y samples and its own Z sample |
| `StaleBuffers.ChestInheritsHipsTranslation` | preview/src/bvh_asset_loader.rs:210 | as written, in a one-frame file with Hips (positions and rotations) and Chest (rotations only), Chest is given the Hips' translation |
| `StaleBuffers.FreshTranslations` | preview/src/bvh_asset_loader.rs:254-259 | corrected step: a joint gets a translation curve exactly when it declares all three position kinds, made of its own samples; otherwise the translations are unchanged |
| `StaleBuffers.FreshRotations` | preview/src/bvh_asset_loader.rs:211-264 | corrected step: it succeeds only when the joint itself declares the rotation kinds X, Y, Z or Z, X, Y in that order, and its rotation curve is made, in that order, of its own samples |
| `StaleBuffers.FreshKeyFramesTranslations` | preview/src/bvh_asset_loader.rs:218-266 | corrected joint loop: the translation curves are exactly those of the joints that declare all three position kinds |


## Left out

- `AssetLoader::load`, `scene_from_bvh` and `bvh_to_clip`: asynchronous reading, BVH parsing, and Bevy `World` and `AnimationClip` construction. These are engine calls, so the model takes the parsed joints and frames as its input.
- `BvhAssetLabel` display and `from_asset`: a fixed string mapping handed to the asset-path library.
- `bvh_to_gav/src/main.rs` `convert_bvh_to_gav` and `main`: a directory listing, `write_npy` output and argument handling, all I/O.
- `preview/src/main.rs` and `scripts/fix_bind_pose.py`: the application and a script around external libraries; neither is part of this model.
- Float numerics are not modelled: `Quat::from_euler` with `to_radians`, `Quat::normalize`, rounding by `as f32`, and `i as f32 * frame_duration` are parameters or exact reals. `frame_time` is kept as a real.
- The curve library's own validation inside `SteppedKeyframeCurve::new` is a parameter; only its error mapping is modelled.
- Joint names: the loader decodes each name with `String::from_utf8_lossy` (bvh_asset_loader.rs:257, 263, 416). The model takes names as strings already decoded, so it does not model the replacement of invalid UTF-8.
- Normalising the zero quaternion: the decoder's `normalize` gives NaN in every component for a stored vector part of zero. The model has no NaN. `GavRoundTrip.DecodedScalarIsZero` covers only non-zero stored vector parts, and `GavRoundTrip.IdentityRotationLost` relies only on the result not being the identity.
- Animation target ids: `AnimationTargetId::from_iter` hashes the path, and the model takes the path itself as the id.
- `usize` overflow: an overflow in `frame_count * (joint_count + 1)` (the capacity hint) or in the reshape's shape product is not modelled. The release-build wrap of `curve_count - 1` is not modelled either: that build also panics, in the allocation, and the model gives the debug build's message.
- Vector capacities and the iterator laziness of the extractors are not modelled.
- Joint records must list children after their parents; cyclic or backward child indices are not modelled.
- `GavRoundTrip.RecoveredRoundTrip`: proved only for rotations with a non-negative scalar part. `q` and `-q` share a rotation but not a vector-part sign, so a decoder that recomputes the scalar part returns the representative with non-negative scalar part.

## Findings

| source | as written | input that shows it | evidently intended | confidence | as-written member | corrected member |
|---|---|---|---|---|---|---|
| preview/src/bvh_asset_loader.rs:210 | the per-kind sample buffers are created once before the joint loop and only the kinds a joint declares are refilled, so a joint without position channels finds the previous joint's position buffers, and `extract_joint_positions` turns them into a translation curve for it | a one-frame file with Hips (channels PositionX/Y/Z, RotationZ/X/Y) followed by Chest (RotationZ/X/Y only): Chest receives the Hips' translation | a translation curve only for joints that declare position channels, made of their own samples | high, not executed | `StaleBuffers.ChestInheritsHipsTranslation` | `StaleBuffers.FreshKeyFramesTranslations` |
| preview/src/bvh_asset_loader.rs:211 | the rotation slots are created once before the joint loop, and a joint overwrites only as many slots as it has rotation channels; the rotation buffers are shared in the same way. A joint with one or two rotation channels passes the order check on the previous joint's leftover slots and is rotated partly by the previous joint's samples. A joint with no rotation channel is given the previous joint's rotation curve | a one-frame file with Hips (channels PositionX/Y/Z, RotationZ/X/Y) followed by Neck (RotationZ only): Neck's rotation is computed in order ZXY from the Hips' X and Y samples and its own Z | the order check and the rotation curve use only the joint's own rotation channels | high, not executed | `StaleBuffers.NeckReusesHipsRotation` | `StaleBuffers.FreshRotations` |
