/** Failure-carrying values shared by every module of the model.

    Python code in the bot does not return error codes: it raises. A call
    that may raise is modelled as a `Result`, whose `Raise` case names the
    exception class the interpreter would throw at that point. */
module Wrappers {

  datatype Option<+T> = None | Some(value: T) {
    function GetOr(default: T): T {
      match this
      case Some(v) => v
      case None => default
    }
  }

  /** The Python exception classes that the modelled code can raise. */
  datatype Fault =
    | AttributeError      // attribute access on `None` (a missing row)
    | IndexError          // list or string index out of range
    | KeyError            // missing dictionary key
    | ValueError          // `int(...)` of a non-digit, `random.sample` of too many
    | UnboundLocalError   // a parser variable read before its first assignment
    | NoResultFound       // SQLAlchemy `scalar_one()` on an empty result

  datatype Result<+T> = Ok(value: T) | Raise(fault: Fault) {
    predicate IsFailure() {
      Raise?
    }

    function PropagateFailure<U>(): Result<U>
      requires Raise?
    {
      Raise(fault)
    }

    function Extract(): T
      requires Ok?
    {
      value
    }
  }
}
