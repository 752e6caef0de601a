/** Option and Result, and the exceptions the controller raises. */
module Wrappers {

  datatype Option<+T> = None | Some(value: T)

  /** The outcome of an operation that may raise: a value, or the exception raised. */
  datatype Result<+T> = Ok(value: T) | Err(error: Error) {
    predicate IsFailure() {
      Err?
    }

    function PropagateFailure<U>(): Result<U>
      requires Err?
    {
      Err(error)
    }

    function Extract(): T
      requires Ok?
    {
      value
    }
  }

  /** The exceptions raised by the modelled code, one constructor per cause. */
  datatype Error =
    | BadTransition        // ValueError('bad transition ...') from a state's transition
    | NoGitHubState        // ValueError from Unknown.gh_state
    | MalformedStatus      // KeyError or AssertionError while decoding a commit status
    | StatusPostFailed(code: int)   // BadStatus from posting a commit status, other than 422
    | AssertionFailed      // a failed `assert` on an argument or a job state
    | MissingAttribute     // AttributeError: a reported state that has no target sha
    | MergeRejected(code: int)      // a merge response other than 200 or 409
    | NoSuchPR             // ValueError('no such pr ...') from PRS.build
}
