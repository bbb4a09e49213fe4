/** Vocabulary shared by the loader and the tensor codec: optional values, the two
    float vector types the code moves around, and the outcome of an operation that can
    return an error value or abort the program with a panic. */
module Common {

  datatype Option<+T> = None | Some(value: T)

  /** A three-component vector (`Vec3`). Components are opaque scalars: the code only
      copies them, so no float arithmetic is modelled. */
  datatype Vec3 = Vec3(x: real, y: real, z: real)

  /** A quaternion built with `Quat::from_xyzw(x, y, z, w)`. */
  datatype Quat = Quat(x: real, y: real, z: real, w: real)

  /** The result of a Rust function returning `Result<T, E>`, extended with the case where
      the function does not return at all because an `expect`, an `assert_eq!`, an index
      out of bounds or an unsigned underflow panics. `message` names the panic. */
  datatype Outcome<+T, +E> = Ok(value: T) | Err(error: E) | Panic(message: string) {

    predicate IsFailure() {
      !Ok?
    }

    function PropagateFailure<U>(): (r: Outcome<U, E>)
      requires IsFailure()
      ensures r.Err? <==> Err?
    {
      if Err? then Err(error) else Panic(message)
    }

    function Extract(): T
      requires Ok?
    {
      value
    }
  }

  const FrameDataMissing := "Frame data missing"
  const IndexOutOfBounds := "index out of bounds"
  const SubtractWithOverflow := "attempt to subtract with overflow"
  const AssertionFailed := "assertion `left == right` failed"
}
