/** Optional values, results and the exception kinds the modelled code raises. */
module Wrappers {

  /** Python's `None` or a present value. */
  datatype Option<+T> = None | Some(value: T) {
    function GetOr(default: T): T {
      match this
      case Some(v) => v
      case None => default
    }
  }

  /** The exceptions the source raises, with the payload its callers see. */
  datatype Error =
    | KeyError(key: string)
    | IOError(message: string)
    | RuntimeError(message: string)
    | AttributeError(attribute: string)
    | NameError(name: string)
    | RecordError(message: string)
    | TypeError
    | ValueError
    | IndexError
    | StopIteration

  /** A value, or the exception raised instead of returning one. */
  datatype Result<+T> = Ok(value: T) | Err(error: Error) {
    predicate IsFailure() {
      Err?
    }

    function PropagateFailure<U>(): Result<U>
      requires Err?
    {
      Err(error)
    }

    function Extract(): T
      requires Ok?
    {
      value
    }
  }

  /** Python truthiness of an optional string: present and non-empty. */
  predicate Truthy(s: Option<string>) {
    s.Some? && |s.value| > 0
  }

  /** Python truthiness of an optional integer: present and non-zero. */
  predicate TruthyId(x: Option<int>) {
    x.Some? && x.value != 0
  }
}
