/** Option and Result, the two failure-carrying wrappers the model uses. */
module Wrappers {

  datatype Option<+T> = None | Some(value: T)

  /** Either the value an operation produced or the error it raised. */
  datatype Result<+T, +E> = Ok(value: T) | Err(error: E)
}

/** The exceptions the JavaScript code raises or lets escape. */
module Exceptions {

  /** `Error(message)` is `new Error(message)` thrown by the application
    * code; `SyntaxError` is what `JSON.parse` and `response.json()` raise on
    * text that is not JSON; `TypeError` is what the engine raises when a
    * property of `null` is read, or what `fetch` rejects with when no
    * response arrives. The engine's wording of the last two is not modelled. */
  datatype JsError = Error(message: string) | SyntaxError | TypeError

  /** `err.message`, with the engine's (always non-empty) wording of a
    * `SyntaxError` or `TypeError` stood in for by the error's name. */
  function Message(e: JsError): (m: string)
    ensures !e.Error? ==> m != ""
    ensures e.Error? ==> m == e.message
  {
    match e
    case Error(msg) => msg
    case SyntaxError => "SyntaxError"
    case TypeError => "TypeError"
  }
}
