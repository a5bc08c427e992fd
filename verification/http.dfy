/** Responses as the controllers build them, and the application's error
    handler that turns an uncaught exception into a 500 (app/workers/app/index.js). */
module Http {
  import opened Wrappers
  import opened Json

  /** A response body. A rendered page is represented by the value `V` its
      template is rendered from; templating is not modelled. */
  datatype Body<V> = JsonBody(data: Json) | TextBody(text: string) | View(view: V)

  datatype Response<V> = Response(status: int, body: Body<V>, cacheControl: Option<string>)

  /** How a controller ends: with a response, or by throwing. */
  datatype Outcome<V> = Returned(response: Response<V>) | Threw

  const InternalErrorText := "Internal Server Error"

  /** The `app.onError` handler: a thrown error becomes a plain-text 500, a
      returned response goes out unchanged. */
  function Deliver<V>(o: Outcome<V>): (r: Response<V>)
    ensures o.Returned? ==> r == o.response
    ensures o.Threw? ==> r.status == 500 && r.body == TextBody(InternalErrorText)
  {
    match o
    case Returned(response) => response
    case Threw => Response(500, TextBody(InternalErrorText), None)
  }

  /** The statuses that cannot carry a body (204 No Content, 205 Reset Content,
      304 Not Modified); the Fetch Standard calls them null body statuses. */
  predicate NullBodyStatus(status: int) {
    status == 204 || status == 205 || status == 304
  }

  /** `new Response(body, { status })` with a body: a status outside 200 to 599
      throws a RangeError, and a null body status throws a TypeError. */
  predicate ConstructibleStatus(status: int) {
    200 <= status <= 599 && !NullBodyStatus(status)
  }

  /** The `json(data, status)` helper: a JSON response, or a throw when the
      status cannot be constructed. The body, `JSON.stringify(data)` of a
      parsed value, is never null, so a null body status always throws. */
  function JsonReply<V>(data: Json, status: int): (o: Outcome<V>)
    ensures o.Returned? <==> ConstructibleStatus(status)
    ensures o.Returned? ==> o.response.status == status && o.response.body == JsonBody(data)
  {
    if ConstructibleStatus(status) then Returned(Response(status, JsonBody(data), None)) else Threw
  }

  /** Delivered, a `json` reply with an unconstructible status is a 500; any
      other keeps its status and data. */
  lemma JsonReplyDelivered<V>(data: Json, status: int)
    ensures var r := Deliver<V>(JsonReply(data, status));
            && (status < 200 || status > 599 || NullBodyStatus(status) ==>
                  r == Response(500, TextBody(InternalErrorText), None))
            && (ConstructibleStatus(status) ==> r == Response(status, JsonBody(data), None))
  {
  }
}
