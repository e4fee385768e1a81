/** Failure-compatible wrappers shared by the other modules. */
module Outcomes {

  /** A value that may be absent: a missing key, a nullptr. */
  datatype Option<+T> = None | Some(value: T)

  /**
   * Why an operation stopped early. TypeError carries the id of the JSON
   * library's type_error (302: value of the wrong type requested, 305: string
   * key used on a value that is neither null nor an object). EmptyPath stands
   * for a dotted path without any segment, on which the source indexes past
   * the end of its segment list.
   */
  datatype Error =
    | TypeError(id: nat)
    | EmptyPath

  /** Either a value or the error the source would have thrown. */
  datatype Result<+T> = Success(value: T) | Failure(error: Error) {
    predicate IsFailure() {
      Failure?
    }

    function PropagateFailure<U>(): Result<U>
      requires Failure?
    {
      Failure(error)
    }

    function Extract(): T
      requires Success?
    {
      value
    }
  }
}
