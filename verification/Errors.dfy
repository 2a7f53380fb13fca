/** The classification of error codes that decides whether a session survives. */
module Errors {
  import opened JsonText

  datatype ErrorCode =
    | Success
    | AddressInUse
    | Json(error: JsonError)
    | Eof
    | BadDescriptor
    | ConnectionRefused
    | Other(code: int)

  // `check_error`: true for an error that ends the session.
  predicate IsCritical(ec: ErrorCode) {
    if ec == Success then false
    else if ec == AddressInUse then false
    else if ec == Json(Syntax) then false
    else if ec == Eof then true
    else if ec == BadDescriptor then true
    else if ec == ConnectionRefused then false
    else true
  }
}
