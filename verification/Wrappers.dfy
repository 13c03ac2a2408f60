// Outcome types shared by every module.
//
// A Go call that returns (value, error) is modelled as a Result; only the stable
// error code is kept (sessionmemory/errors.go), never its text.
module Wrappers {
  datatype Option<+T> = None | Some(value: T)

  datatype Code =
    | InvalidDerived
    | InvalidScope
    | LimitExceeded
    | ScopeViolation
    | Forgotten
    | NotFound
    | Conflict
    | StoreFailure
    | ModelFailure
    | Permanent
    | Disabled
    | Timeout

  datatype Result<+T> = Ok(value: T) | Err(code: Code)
}
