/** Small value types shared by the model. */
module Wrappers {

  /** A value that may be missing; `None` stands for a C# `null`. */
  datatype Option<+T> = None | Some(value: T)

  /** What a cloud call reports to its completion callback: `Failure`
      carries the text of the exception that the callback displays. */
  datatype Outcome = Success | Failure(message: string)
}
