/** What the front end gets back from the server, and the two pieces of
  * JavaScript semantics its error handling leans on: reading a property of
  * a parsed body and turning a value into a string. */
module Http {
  import opened Wrappers
  import opened Exceptions
  import Json

  /** A status for which `response.ok` is false. */
  type FailStatus = s: int | !(200 <= s < 300) witness 500

  /** One awaited `fetch`, seen from the code that awaits it.
    * `NoResponse`: `fetch` itself rejects (the server cannot be reached).
    * `Success`: `response.ok`, and `response.json()` yields `payload`.
    * `SuccessNotJson`: `response.ok`, but the body is not JSON.
    * `Failure`: `response.ok` is false; `body` is the response text, which
    * the caller may go on to parse. */
  datatype Reply<T> =
    | NoResponse
    | Success(payload: T)
    | SuccessNotJson
    | Failure(status: FailStatus, body: string)

  /** `await response.json()` on a response body. */
  function ParseBody(text: string): (r: Result<Json.Value, JsError>)
    ensures r.Ok? <==> Json.Parse(text).Some?
    ensures r.Ok? ==> Json.Parse(text) == Some(r.value)
    ensures r.Err? ==> r.error == SyntaxError
  {
    match Json.Parse(text)
    case None => Err(SyntaxError)
    case Some(v) => Ok(v)
  }

  /** `v.key` on a parsed value: reading a property of `null` throws a
    * `TypeError`; a value without that property gives `undefined` (None). */
  function Property(v: Json.Value, key: string): (r: Result<Option<Json.Value>, JsError>)
    ensures r.Err? <==> v.JNull?
    ensures r.Err? ==> r.error == TypeError
    ensures r.Ok? && r.value.Some? ==> v.JObj? && exists i :: 0 <= i < |v.members| && v.members[i] == Json.Member(key, r.value.value)
    ensures r.Ok? && r.value.None? ==> !v.JObj? || forall i :: 0 <= i < |v.members| ==> v.members[i].key != key
  {
    if v.JNull? then Err(TypeError) else Ok(Json.Field(v, key))
  }

  /** `String(v)`, which is also what `new Error(v)` stores as its message:
    * arrays are joined with commas, with `null` elements left empty, and
    * every object reads `"[object Object]"`. */
  function JsString(v: Json.Value): string
    decreases v, 1
  {
    match v
    case JNull => "null"
    case JBool(b) => if b then "true" else "false"
    case JNum(n) => Json.NumberText(n)
    case JStr(s) => s
    case JArr(items) => Join(items)
    case JObj(_) => "[object Object]"
  }

  /** `items.join(",")`: each element as `String` writes it, except that
    * `null` is written as nothing. */
  function Join(items: seq<Json.Value>): string
    decreases items, 0
  {
    if items == [] then ""
    else
      var first := if items[0].JNull? then "" else JsString(items[0]);
      if |items| == 1 then first else first + "," + Join(items[1..])
  }

  /** `String(v)` is never empty for a truthy value that is not an array;
    * an array is truthy however it prints, and `[]` and `[null]` print as
    * nothing. */
  lemma JsStringOfTruthy(v: Json.Value)
    ensures Json.Truthy(v) && !v.JArr? ==> JsString(v) != ""
    ensures JsString(Json.JArr([])) == "" && JsString(Json.JArr([Json.JNull])) == ""
    ensures Json.Truthy(Json.JArr([]))
  {
    assert Join([Json.JNull]) == "";
    assert JsString(Json.JArr([Json.JNull])) == "";
    if v.JNum? && v.n != 0 {
      assert |Json.NumberText(v.n)| > 0;
    }
  }
}
