/**
 * The GraphQL request executor (`Client::req`). The HTTP round trip is not modelled: its observable
 * outcome is a `Reply` — a send failure, a body that does not decode, or a decoded response
 * envelope — and `Req` turns that reply into the caller's result exactly as the tail of `req` does.
 */
module Client {
  import opened Wrappers

  /** One entry of the envelope's `errors` list; only its message reaches the caller. */
  datatype GraphqlError = GraphqlError(message: string)

  /** The decoded response body `{data?, errors?}`. */
  datatype Envelope<D> = Envelope(data: Option<D>, errors: Option<seq<GraphqlError>>)

  /** What the HTTP round trip produced. */
  datatype Reply<D> =
    | SendFailed(detail: string)        // `.send().await?` failed
    | BodyUndecodable(detail: string)   // `response.json().await?` failed
    | Received(body: Envelope<D>)

  /** The error kinds a call can end in. */
  datatype ReqError =
    | Transport(detail: string)   // network failure or undecodable body, propagated by `?`
    | Graphql(message: string)    // reported by the service in the envelope
    | NoData                      // neither errors nor data

  /** `eyre::Result<T>`. */
  datatype Result<T> = Ok(value: T) | Err(error: ReqError)

  /** The text of the error report the caller sees. */
  function Describe(e: ReqError): string {
    match e
    case Transport(detail) => detail
    case Graphql(message) => "graphql error: " + message
    case NoData => "no data"
  }

  /** The `Some(errors) if !errors.is_empty()` guard. */
  predicate HasErrors<D>(body: Envelope<D>) {
    body.errors.Some? && |body.errors.value| > 0
  }

  /** The last element of a non-empty list, which `errors.pop().unwrap()` takes. */
  function Last<T>(xs: seq<T>): T
    requires |xs| > 0
  {
    xs[|xs| - 1]
  }

  /**
   * Classification of a decoded envelope: a non-empty error list wins (even over present data) and
   * reports its last error; otherwise missing data is `NoData` and present data is returned as is.
   */
  function Classify<D>(body: Envelope<D>): (r: Result<D>)
    ensures r.Ok? <==> !HasErrors(body) && body.data.Some?
    ensures r.Ok? ==> body.data == Some(r.value)
    ensures r.Err? ==> !r.error.Transport?
    ensures r.Err? && r.error.Graphql? <==> HasErrors(body)
    ensures r.Err? && r.error.Graphql? ==> r.error.message == Last(body.errors.value).message
  {
    if HasErrors(body) then
      Err(Graphql(Last(body.errors.value).message))
    else
      match body.data
      case None => Err(NoData)
      case Some(d) => Ok(d)
  }

  /** The errors logged while classifying: every one of a non-empty list, in list order. */
  function ErrorLog<D>(body: Envelope<D>): seq<GraphqlError> {
    if HasErrors(body) then body.errors.value else []
  }

  /** `Client::req` from the moment the request has been sent. */
  function Req<D>(reply: Reply<D>): (r: Result<D>)
    ensures !reply.Received? ==> r.Err? && r.error.Transport?
    ensures reply.Received? ==> r == Classify(reply.body)
  {
    match reply
    case SendFailed(detail) => Err(Transport(detail))
    case BodyUndecodable(detail) => Err(Transport(detail))
    case Received(body) => Classify(body)
  }

  /** The GraphQL errors `Client::req` logs for a reply; none unless an envelope was decoded. */
  function ReqLog<D>(reply: Reply<D>): (log: seq<GraphqlError>)
    ensures !reply.Received? ==> log == []
  {
    if reply.Received? then ErrorLog(reply.body) else []
  }

  /** Only the last error counts: what precedes it in the list, and the data, do not matter. */
  lemma LastErrorWins<D>(data: Option<D>, earlier: seq<GraphqlError>, last: GraphqlError)
    ensures Classify(Envelope(data, Some(earlier + [last]))) == Err(Graphql(last.message))
  {
  }

  /** An empty error list is the same as an absent one: it never fails on its own. */
  lemma EmptyErrorsIgnored<D>(data: Option<D>)
    ensures Classify(Envelope(data, Some([]))) == Classify(Envelope(data, None))
    ensures ErrorLog(Envelope(data, Some([]))) == []
  {
  }

  /** Report one, log all: a reported service error is the last of the logged errors, and every error of the list is logged. */
  lemma ReportOneLogAll<D>(reply: Reply<D>)
    ensures Req(reply).Err? && Req(reply).error.Graphql? <==> |ReqLog(reply)| > 0
    ensures |ReqLog(reply)| > 0 ==>
      reply.Received? && ReqLog(reply) == reply.body.errors.value &&
      Req(reply) == Err(Graphql(Last(ReqLog(reply)).message))
  {
  }

  /** Without errors in the envelope, the data is handed back unchanged, or its absence is `NoData`. */
  lemma DataPassesThrough<D>(reply: Reply<D>)
    requires reply.Received? && !HasErrors(reply.body)
    ensures reply.body.data.None? ==> Req(reply) == Err(NoData) && Describe(Req(reply).error) == "no data"
    ensures reply.body.data.Some? ==> Req(reply) == Ok(reply.body.data.value)
    ensures ReqLog(reply) == []
  {
  }

  /** Two service errors "A" then "B": the caller sees "B", and both are logged in order. */
  lemma TwoErrorsReportTheLast<D>(data: Option<D>)
    ensures var reply := Received(Envelope(data, Some([GraphqlError("A"), GraphqlError("B")])));
      Req(reply) == Err(Graphql("B")) &&
      Describe(Req(reply).error) == "graphql error: B" &&
      ReqLog(reply) == [GraphqlError("A"), GraphqlError("B")]
  {
  }
}
