/** Absent values and raised errors, shared by the node and network models. */
module Wrappers {

  /** Python's `None` or a present value. */
  datatype Option<+T> = None | Some(value: T)

  /** The exceptions the core raises, each a `ValueError` in the source. */
  datatype Error =
    | HostLockedWhileOnline  // "Cant set host info on active Node!"
    | NoneIsNotANode         // networkx: "None cannot be a node"

  /** The outcome of an operation that either completes or raises. */
  datatype Outcome = Success | Failure(error: Error)
}
