/** Optional values and the two failure conditions a scalar backing can raise. */
module Outcomes {

  datatype Option<+T> = None | Some(value: T)

  /** The two conditions an adapter-backed scalar node reports (an AttributeError in the source). */
  datatype Error =
    | Unreadable  // the node has no getter
    | Unwritable  // the node has no setter

  /** A value, or the condition that stopped it from being produced. */
  datatype Result<+T> = Ok(value: T) | Err(error: Error)

  /** The outcome of an operation that returns nothing when it succeeds. */
  datatype Outcome = Done | Failed(error: Error)
}
