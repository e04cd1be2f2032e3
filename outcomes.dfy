/** Optional values and the two kinds of rejected input the scheduler reports. */
module Outcomes {

  datatype Option<+T> = None | Some(value: T)

  /** The three input warnings the scheduler shows instead of acting. */
  datatype InputError =
    | MissingInput      // "Please enter subject and duration"
    | InvalidDuration   // "Please enter valid duration"
    | InvalidMinutes    // "Please enter valid minutes"

  /** Success with a value, or one of the input warnings. */
  datatype Result<+T> = Ok(value: T) | Err(error: InputError)
}
