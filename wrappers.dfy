/** Results and the exceptions the client raises, one variant per kind of
    failure so that the error paths can be stated precisely. */
module Wrappers {
  import opened Json

  datatype Option<+T> = None | Some(value: T)

  datatype Error =
    | KeyError(key: string)                // `d[k]` on a missing key
    | TypeError                            // wrong shape for `**kwargs`, iteration or subscripting
    | ValueError(culprit: Json)            // `int(...)` or an enum constructor given a bad value
    | IndexError                           // a register too short for the offsets it is indexed at
    | AttributeError                       // `.statusCode` on a raw dictionary
    | AssertionError                       // an `assert isinstance(...)` in a family getter
    | NotSettable(statusName: Json)        // "property <name> is not settable"
    | DoesNotExist(statusCode: Json)       // "property <code> does not exist on this device"
    | InvalidChoice(what: string, value: Json)  // "Invalid operation mode: ..." and friends
    | ApiError(pairs: seq<(Json, Json)>)   // "Cocoro API Error: id=code,..."
    | DeviceDoesNotExist                   // "device does not exist"

  datatype Result<+T> = Ok(value: T) | Err(error: Error) {
    predicate IsFailure() { Err? }
    function PropagateFailure<U>(): Result<U>
      requires Err?
    {
      Err(error)
    }
    function Extract(): T
      requires Ok?
    {
      value
    }
  }

  datatype Outcome = Pass | Fail(error: Error) {
    predicate IsFailure() { Fail? }
    function PropagateFailure(): Outcome
      requires Fail?
    {
      this
    }
  }
}
