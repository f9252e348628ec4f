/** Option and Result, and the exceptions the catalogue's core raises. */
module Wrappers {

  datatype Option<+T> = None | Some(value: T)

  /** Which of the two links `AbstractRepository.add_review` found missing. */
  datatype LinkFault = UserLink | TrackLink

  /** The exception classes raised (and sometimes swallowed) by the core. */
  datatype Error =
    | RepositoryException(fault: LinkFault)
    | ValueError
    | AttributeError
    | TypeError
    | NameNotUniqueException
    | UnknownUserException
    | NonExistentTrackException

  /** A call that returns a value or raises. */
  datatype Result<+T> = Ok(value: T) | Err(error: Error)

  /** A call that returns nothing or raises. */
  datatype Outcome = Pass | Fail(error: Error)
}
