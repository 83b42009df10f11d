/** What the server's handlers and services hand to the outside: HTTP answers
    and broadcasts. */
module Http {
  import opened Wrappers
  import opened Json

  /** An answer: a status code and a JSON body. */
  datatype Response = Response(status: nat, body: Json)

  /** A broadcast handed to the SSE manager: an event type and its payload. */
  datatype Notice = Notice(eventType: string, data: Json)

  /** `{error, message}`, the shape every error answer of the server starts with. */
  function ErrorBody(error: string, message: string): (b: Json)
    ensures Field(b, "error") == Some(Str(error))
    ensures Field(b, "message") == Some(Str(message))
  {
    var fs := [("error", Str(error)), ("message", Str(message))];
    assert "error"[0] != "message"[0];
    assert Get(fs, "message") == Get(fs[1..], "message");
    Obj(fs)
  }
}
