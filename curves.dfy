/** `create_curve`: number the samples and stamp sample `i` with time `i * frame_duration`,
    then hand the (time, value) list to the stepped-curve library, whose error becomes
    `NotEnoughSamples`. The library's own validation is a parameter. */
module Curves {
  import opened Common
  import opened LoaderTypes

  datatype Keyframe<T> = Keyframe(time: real, value: T)

  /** A `SteppedKeyframeCurve`: the list of keyframes it was built from. */
  datatype SteppedCurve<T> = SteppedCurve(keyframes: seq<Keyframe<T>>)

  /** `values.enumerate().map(|(i, v)| (i as f32 * frame_duration, v))`. */
  function Stamp<T>(values: seq<T>, frameDuration: real): (r: seq<Keyframe<T>>)
    ensures |r| == |values|
    ensures forall i :: 0 <= i < |values| ==> r[i] == Keyframe(i as real * frameDuration, values[i])
    decreases |values|
  {
    if |values| == 0 then []
    else
      var n := |values| - 1;
      Stamp(values[..n], frameDuration) + [Keyframe(n as real * frameDuration, values[n])]
  }

  /** `create_curve`. `coreAccepts` stands for the check `SteppedKeyframeCurve::new`
      performs on the keyframes it is given. */
  function CreateCurve<T>(values: seq<T>, frameDuration: real, coreAccepts: seq<Keyframe<T>> -> bool)
    : Outcome<SteppedCurve<T>, LoaderError>
  {
    var keyframes := Stamp(values, frameDuration);
    if coreAccepts(keyframes) then Ok(SteppedCurve(keyframes)) else Err(NotEnoughSamples)
  }

  /** The curve holds one keyframe per input sample, in input order, the i-th at time
      `i * frameDuration`; the only way to fail is the library's, reported as
      `NotEnoughSamples`. */
  lemma CreateCurveKeyframes<T>(values: seq<T>, frameDuration: real, coreAccepts: seq<Keyframe<T>> -> bool)
    ensures var r := CreateCurve(values, frameDuration, coreAccepts);
      && (r.Ok? || r == Err(NotEnoughSamples))
      && (r.Ok? ==>
            && |r.value.keyframes| == |values|
            && forall i :: 0 <= i < |values| ==>
                 r.value.keyframes[i].time == i as real * frameDuration
                 && r.value.keyframes[i].value == values[i])
  {
  }

  /** Timestamps are computed from the index, not accumulated: consecutive keyframes are
      exactly one frame duration apart. */
  lemma StampSpacing<T>(values: seq<T>, frameDuration: real, i: nat)
    requires i + 1 < |values|
    ensures Stamp(values, frameDuration)[i + 1].time - Stamp(values, frameDuration)[i].time == frameDuration
  {
  }
}
