/** Small failure-compatible types shared by the modules of the model. */
module Wrappers {
  datatype Option<+T> = None | Some(value: T)

  /** Result of a compiler routine: either it went through, or it gave up. */
  datatype Status = Pass | Fail {
    predicate IsFailure() { Fail? }
    function PropagateFailure(): Status
      requires Fail?
    {
      Fail
    }
  }
}
