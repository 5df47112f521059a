/** The two result shapes every other module uses. */
module Outcomes {
  datatype Option<+T> = None | Some(value: T)

  /** An operation's answer; the words of an error are not part of the model. */
  datatype Result<+T> = Ok(value: T) | Err
}
