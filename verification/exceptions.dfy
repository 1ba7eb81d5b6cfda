/** The source programs signal fatal conditions by throwing (TypeScript `throw`,
    Python `raise`, a failed Python `assert`, a missing dictionary key).  Every
    model that can throw returns an `Outcome`, so the thrown case is a value the
    contracts can talk about. */
module Exceptions {

  /** Either the value a call returned, or the message of what it threw. */
  datatype Outcome<+T> = Returns(value: T) | Raises(error: string)
}
