/** Values every component shares: optional values, and results that may be a Python exception. */
module Outcomes {

  datatype Option<+T> = None | Some(value: T)

  /** The exception classes that some handler in the repository tells apart.
      TimeoutError and ConnectionError are subclasses of OSError; JSONDecodeError is a ValueError. */
  datatype Kind =
    | TimeoutKind | ConnectionKind | OsKind | ValueKind | TypeKind | KeyKind | RuntimeKind | OtherKind

  datatype Error = Error(kind: Kind, message: string) {
    predicate IsOsError() {
      kind.TimeoutKind? || kind.ConnectionKind? || kind.OsKind?
    }
  }

  datatype Outcome<+T> = Ok(value: T) | Raise(error: Error)

  /** Outcome of a call that returns nothing. */
  datatype Unit = Unit

  function OrRaise(fault: Option<Error>): Outcome<Unit> {
    match fault
    case None => Ok(Unit)
    case Some(e) => Raise(e)
  }
}
