/** Failure-compatible results shared by every module of the model. */
module Prelude {

  datatype Option<+T> = None | Some(value: T)

  /** What a call that may throw delivers: its value, or the text of the exception. */
  datatype Result<+T> = Ok(value: T) | Err(error: string) {
    predicate IsFailure() {
      Err?
    }

    function PropagateFailure<U>(): Result<U>
      requires Err?
    {
      Err(error)
    }

    function Extract(): T
      requires Ok?
    {
      value
    }
  }

  type byte = b: int | 0 <= b < 256

  /** Photons of one EDX. */
  const EDX_UNIT := 1_0000_0000

  /** Largest integer that a JavaScript number holds exactly. */
  const MAX_SAFE_INTEGER := 0x1F_FFFF_FFFF_FFFF
}
