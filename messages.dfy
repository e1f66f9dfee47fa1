/**
 * Values shared by both queue providers: the decoded JSON payload, the
 * message handed to consumers, and the small wrappers used for the
 * providers' error paths.
 */
module Messages {

  datatype Option<T> = None | Some(value: T)

  /** An operation that either returns a value or throws the error `error`. */
  datatype Result<T, E> = Ok(value: T) | Err(error: E)

  /**
   * A JSON document as `json_decode($text, true)` returns it: objects and
   * lists both become PHP arrays, held here with string keys (a list's keys
   * are "0", "1", ...); a number keeps the text PHP prints for it.
   */
  datatype Json =
    | JNull
    | JBool(b: bool)
    | JNumber(text: string)
    | JString(s: string)
    | JArray(entries: map<string, Json>)

  /** The `array $message` a caller publishes. */
  type Payload = map<string, Json>

  /** A received message: its id, its decoded body and provider metadata. */
  datatype Message = Message(id: string, body: Json, metadata: map<string, string>)
}
