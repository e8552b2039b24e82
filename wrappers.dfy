/** Failure-carrying values for the outcomes of the network calls the model takes as parameters. */
module Wrappers {

  datatype Option<+T> = None | Some(value: T)

  /** The outcome of a call that can throw: either a value or the fact that it failed. */
  datatype Outcome<+T> = Succeeded(value: T) | Threw
}
