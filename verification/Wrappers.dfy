/** Failure-carrying datatypes shared by the other modules. */
module Wrappers {
  datatype Option<+T> = None | Some(value: T)

  datatype Result<+T, +E> = Ok(value: T) | Err(error: E)

  /**
   What the database does to a call: nothing, refuses one of its statements, or carries out its write and
   loses the answer, so that the caller sees an error although the write is there.
   */
  datatype Fault<+S> = NoFault | Refuses(statement: S) | LosesAnswer
}
