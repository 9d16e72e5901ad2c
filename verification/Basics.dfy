/** What every module shares: the two failure-carrying datatypes, and days. */
module Basics {

  /** A calendar date, as the number of days since 1 January 1970. */
  type Day = int

  datatype Option<+T> = None | Some(value: T)

  /** What the source answers or throws: a value, or the code of the refusal. */
  datatype Result<+R, +E> = Ok(value: R) | Refused(why: E)
}
