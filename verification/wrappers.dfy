/** Wrapper datatypes shared by the model: Option stands for a value
    that JavaScript may hold as `null`, Outcome for a hook that either completes
    or rejects with an error. */
module Wrappers {

  datatype Option<+T> = None | Some(value: T)

  datatype Outcome<+E> = Pass | Fail(error: E)
}
