/** Fixed-width integers of the C++ program, and the option and result types its
    optional values and exceptions become. */
module MachineTypes {

  const TWO_TO_THE_32 := 0x1_0000_0000
  const TWO_TO_THE_64 := 0x1_0000_0000_0000_0000

  type uint32 = x: int | 0 <= x < TWO_TO_THE_32
  type uint64 = x: int | 0 <= x < TWO_TO_THE_64
  type byte = x: int | 0 <= x < 256

  datatype Option<+T> = None | Some(value: T)

  datatype Result<+T, +E> = Success(value: T) | Failure(error: E) {
    predicate IsFailure() {
      Failure?
    }

    function PropagateFailure<U>(): Result<U, E>
      requires Failure?
    {
      Failure(error)
    }

    function Extract(): T
      requires Success?
    {
      value
    }
  }
}
