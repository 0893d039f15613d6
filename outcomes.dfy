/** Failure-carrying results shared by the console and sampler models: the
    C# code reports failures by throwing, the model returns them. */
module Outcomes {

  datatype Option<+T> = None | Some(value: T)

  /** A value, or the error the source would have thrown instead. */
  datatype Result<+T, +E> = Ok(value: T) | Err(error: E)

  /** Success without a value, or the error thrown. */
  datatype Outcome<+E> = Pass | Fail(error: E)
}
