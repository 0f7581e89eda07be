/**
 * The JSON error responder used by the route filter factories: it builds the
 * four-field error envelope, serializes it, and writes status, content type,
 * content length and body into the response; when serialization fails it
 * only completes the response.
 */
module ErrorResponseUtil {
  import opened Wrappers
  import opened Http

  /** The values the envelope holds. */
  datatype Json = JNumber(n: int) | JString(s: string)

  type JsonObject = map<string, Json>

  const ApplicationJson: string := "application/json"

  /** The error envelope `{status, error, message, path}`. The serializer is
      not modelled, so the envelope is a map and its JSON text is left to the
      `serialize` parameter of the functions below. */
  function Envelope(status: HttpStatus, message: string, path: string): (e: JsonObject)
    ensures e.Keys == {"status", "error", "message", "path"}
    ensures |e| == 4
    ensures e["status"] == JNumber(status.Value())
    ensures e["error"] == JString(status.ReasonPhrase())
    ensures e["message"] == JString(message) && e["path"] == JString(path)
  {
    var e := map["status" := JNumber(status.Value()),
                 "error" := JString(status.ReasonPhrase()),
                 "message" := JString(message),
                 "path" := JString(path)];
    assert |e.Keys| == 4 by {
      assert "status" != "error" && "status" != "message" && "status" != "path";
      assert "error" != "message" && "error" != "path" && "message" != "path";
    }
    e
  }

  /** The response after an error was sent. With a serialized body, the
      status is the given one, the content type is JSON, the content length is
      the body's length and the body is the serialized envelope. Without one,
      nothing but completion changes. Either way the response is complete. */
  function AfterError(before: ResponseState, status: HttpStatus, message: string, path: string,
                      serialize: JsonObject -> Option<seq<byte>>): (after: ResponseState)
    ensures after.complete
    ensures serialize(Envelope(status, message, path)).Some? ==>
              && after.status == Some(status.Value())
              && after.contentType == Some(ApplicationJson)
              && after.body == serialize(Envelope(status, message, path)).value
              && after.contentLength == Some(|after.body|)
    ensures serialize(Envelope(status, message, path)).None? ==>
              after == before.(complete := true)
  {
    match serialize(Envelope(status, message, path))
    case None => before.(complete := true)
    case Some(json) =>
      ResponseState(Some(status.Value()), Some(ApplicationJson), Some(|json|), json, true)
  }

  /** sendErrorResponse: serialize first, then set status, content type and
      content length, then write the body, which completes the response. */
  method SendErrorResponse(resp: Response, path: string, status: HttpStatus, message: string,
                           serialize: JsonObject -> Option<seq<byte>>)
    modifies resp
    ensures resp.State() == AfterError(old(resp.State()), status, message, path, serialize)
  {
    var errorResponse := Envelope(status, message, path);
    var jsonResponse := serialize(errorResponse);
    if jsonResponse.None? {
      resp.complete := true;
      return;
    }
    resp.status := Some(status.Value());
    resp.contentType := Some(ApplicationJson);
    resp.contentLength := Some(|jsonResponse.value|);
    resp.body := jsonResponse.value;
    resp.complete := true;
  }
}
