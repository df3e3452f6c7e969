/** The wrappers the models share: a value that may be missing, and the result of a guarded call. */
module Wrappers {
  import Outcome

  datatype Option<+T> = None | Some(value: T)

  /** A guarded call: the value returned, or the panic captured as a defect. */
  datatype Answer<+T> = Gives(value: T) | Panics(defect: Outcome.Defect)
}
