/** Option, Result and the two kinds of "maybe absent" value the service juggles:
    a SQL column that may be NULL, and a JavaScript property that may be
    undefined, null or a value (the three-way option of partial updates). */
module Wrappers {

  datatype Option<+T> = None | Some(value: T) {
    function GetOr(default: T): T {
      match this
      case Some(v) => v
      case None => default
    }
  }

  datatype Result<+T, +E> = Ok(value: T) | Err(error: E) {
    predicate IsFailure() {
      Err?
    }

    function PropagateFailure<U>(): Result<U, E>
      requires Err?
    {
      Err(error)
    }

    function Extract(): T
      requires Ok?
    {
      value
    }
  }

  /** A stored column value: SQL NULL or a value. */
  datatype Nullable<+T> = Null | NonNull(value: T)

  /** A JavaScript property: `undefined`, `null` or a value. */
  datatype Maybe<+T> = Undefined | Nil | Given(value: T) {
    /** `x ?? null`: undefined and null both become NULL. */
    function OrNull(): Nullable<T> {
      match this
      case Given(v) => NonNull(v)
      case _ => Null
    }
  }

  /** `x ?? null` for an optional (never null) property. */
  function OptionOrNull<T>(o: Option<T>): Nullable<T> {
    match o
    case Some(v) => NonNull(v)
    case None => Null
  }
}
