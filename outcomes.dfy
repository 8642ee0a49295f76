/**
 Result shapes shared by the model: Python's `None`-or-value returns and the
 exceptions that the core lets propagate to its caller.
 */
module Outcomes {

  /** A value that may be Python's `None`. */
  datatype Option<+T> = None | Some(value: T)

  /** The exceptions a core operation can raise without catching them. */
  datatype Exception =
    | IntegrityError  // sqlite3.IntegrityError: the PRIMARY KEY on `vin` was violated
    | ValueError      // int() applied to text that is not a decimal integer
    | OverflowError   // sqlite3 binding an int outside the signed 64-bit range

  /** How a Python call ends: it returns a value or raises an exception. */
  datatype Outcome<+T> = Returned(value: T) | Raised(error: Exception)
}
