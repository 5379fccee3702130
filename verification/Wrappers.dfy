/** The value types every other module shares: bytes, optional values, and the
    results of operations that can be refused. */
module Wrappers {

  type Byte = x: int | 0 <= x < 256

  datatype Option<+T> = None | Some(value: T)

  /** Why a codec refused its input. */
  datatype Error =
    | TooShort
    | TooLong
    | Incomplete
    | BadModulo
    | BadGfi
    | BadType
    | BadChannel
    | BadSequence
    | BadAddress
    | BadFacility
    | BadVersion
    | BadMessage
    | NotConnected

  datatype Result<+T> = Ok(value: T) | Err(error: Error) {
    predicate IsFailure() {
      Err?
    }

    function PropagateFailure<U>(): Result<U>
      requires Err?
    {
      Err(error)
    }

    function Extract(): T
      requires Ok?
    {
      value
    }
  }

  function Min(a: nat, b: nat): nat {
    if a < b then a else b
  }
}
