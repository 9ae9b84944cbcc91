/**
  What an action hands to the HTTP transport and what comes back. The
  transport itself (preparing, sending, TLS) is outside the model: a call
  site receives the outcome of `session.send(...).json()` as a value.
 */
module Http {
  import opened Wrappers
  import opened Json

  /** The caller's account, sent with every request. */
  datatype Credentials = Credentials(intAccount: int)

  datatype Verb = Get | Post

  /** A request as built by an action: verb, URL, query parameters and, for a POST, the JSON body. */
  datatype HttpRequest = HttpRequest(
    verb: Verb,
    url: string,
    params: map<string, Json>,
    body: Option<map<string, Json>>)

  /**
    The outcome of sending a request and decoding its body: a decoded reply,
    or any exception raised by the send or by the JSON decoder.
   */
  datatype Exchange = Replied(reply: Json) | Failed
}
