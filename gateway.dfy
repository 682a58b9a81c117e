/** The two gateway calls, `fetch_purchase` and `void_transaction`, with the
    network replaced by the reply the gateway gives: each call issues one
    request, decodes the reply and classifies it. */
module Gateway {
  import opened Wrappers
  import opened Envelope
  import Endpoints
  import Auth

  /** `Params`: the values `main` hands to every call. */
  datatype Params = Params(username: string, token: string, reference: string, filename: string)

  /** A `Box<dyn Error>`: a transport error from the HTTP client, or an error
      built from a message string. */
  datatype Error = Transport | Message(text: string)

  datatype Result<T> = Ok(value: T) | Err(error: Error)

  /** What a call does: return normally, or panic on an `unwrap`. */
  datatype Outcome<T> = Returned(result: Result<T>) | Panicked

  datatype HttpMethod = Get | Post

  /** An HTTP request as the program builds it, before `reqwest` parses its URL. */
  datatype Request = Request(verb: HttpMethod, url: string, headers: seq<(string, string)>, timeoutSeconds: nat)

  /** What the gateway gives back: the send fails (connection, TLS, or the
      timeout before the response arrives), reading the body fails (including
      the timeout while it is read), or a body arrives. */
  datatype Reply = SendError | ReadError | Received(body: Body)

  /** Every request times out after ten seconds. */
  const TimeoutSeconds: nat := 10

  /** The headers both requests carry. */
  function Headers(params: Params): (h: seq<(string, string)>)
    ensures ("Authorization", Auth.BasicAuth(params.username, params.token)) in h
    ensures ("Accept", "application/json") in h && ("Content-Type", "application/json") in h
  {
    [("Accept", "application/json"), ("Content-Type", "application/json"),
     ("Authorization", Auth.BasicAuth(params.username, params.token))]
  }

  /** `return_error`: always an error, whose message is the prefix followed by
      the reference. */
  function ReturnError<T>(msg: string, reference: string): (r: Result<T>)
    ensures r.Err? && r.error.Message?
    ensures msg <= r.error.text && r.error.text[|msg|..] == reference
  {
    Err(Message(msg + reference))
  }

  /** The lookup request for a reference: a GET on the merchant's fetch base
      with the reference appended. */
  function FetchRequest(params: Params, refx: string): (r: Request)
    ensures r.verb == Get && r.url == Endpoints.FetchUrl(params.username, refx)
    ensures r.headers == Headers(params) && r.timeoutSeconds == TimeoutSeconds
  {
    Request(Get, Endpoints.FetchBase(params.username) + refx, Headers(params), TimeoutSeconds)
  }

  /** The void request for an internal id: a POST on the merchant's void
      base with the id appended. */
  function VoidRequest(params: Params, id: string): (r: Request)
    ensures r.verb == Post && r.url == Endpoints.VoidUrl(params.username, id)
    ensures r.headers == Headers(params) && r.timeoutSeconds == TimeoutSeconds
  {
    Request(Post, Endpoints.VoidBase(params.username) + id, Headers(params), TimeoutSeconds)
  }

  /** One call: the request it issues, the lines it prints and its outcome. */
  datatype Call<T> = Call(request: Request, printed: seq<string>, outcome: Outcome<T>)

  /** The envelope a reply decodes to, if a body arrived and decoded. */
  function Decoded(reply: Reply): (r: Option<Envelope>)
    ensures r.Some? ==> reply.Received? && Canonical(r.value)
  {
    if reply.Received? then FromStr(reply.body) else None
  }

  /** `errors.unwrap().unwrap().errors.first().unwrap()`: the first error
      message, `None` exactly where one of the unwraps panics. */
  function FirstError(errors: Option<Option<seq<string>>>): (r: Option<string>)
    ensures r.Some? <==> errors.Some? && errors.value.Some? && |errors.value.value| > 0
    ensures r.Some? ==> r.value == errors.value.value[0]
  {
    match errors
    case Some(Some(l)) => if |l| > 0 then Some(l[0]) else None
    case _ => None
  }

  /** The `{:?}` rendering of a string, taken as the string in double quotes. */
  function Debug(s: string): (r: string)
    ensures |r| == |s| + 2 && r[0] == '"' && r[|r| - 1] == '"' && r[1..|r| - 1] == s
  {
    "\"" + s + "\""
  }

  const VoidedSuffix := " - Voided"
  const FailedInfix := " - Voiding failed - "

  /** `"{} - Voided"`. */
  function VoidedLine(refx: string): (line: string)
    ensures refx <= line && line[|refx|..] == VoidedSuffix
  {
    refx + VoidedSuffix
  }

  /** `"{} - Voiding failed - {:?}"`. */
  function FailureLine(refx: string, error: string): (line: string)
    ensures refx <= line && line[|refx|..] == FailedInfix + Debug(error)
  {
    refx + FailedInfix + Debug(error)
  }

  /** `fetch_purchase`: one GET; a failed send is a transport error, a body
      that cannot be read panics, a body that does not decode is the message
      "00Error voiding transaction: " + reference, and nothing is printed. */
  function FetchPurchase(params: Params, refx: string, reply: Reply): (c: Call<Envelope>)
    ensures c.request == FetchRequest(params, refx) && c.printed == []
    ensures c.outcome.Panicked? <==> reply.ReadError?
    ensures reply.SendError? ==> c.outcome == Returned(Err(Transport))
    ensures reply.Received? ==> c.outcome.Returned? && (c.outcome.result.Ok? <==> Decoded(reply).Some?)
    ensures reply.Received? && Decoded(reply).None? ==>
              c.outcome.result == Err(Message("00Error voiding transaction: " + refx))
    ensures Decoded(reply).Some? ==> c.outcome == Returned(Ok(Decoded(reply).value))
  {
    var request := FetchRequest(params, refx);
    match reply
    case SendError => Call(request, [], Returned(Err(Transport)))
    case ReadError => Call(request, [], Panicked)
    case Received(body) =>
      match FromStr(body)
      case None => Call(request, [], Returned(ReturnError("00Error voiding transaction: ", refx)))
      case Some(e) => Call(request, [], Returned(Ok(e)))
  }

  /** `void_transaction`: one POST.  Success means the gateway's envelope says
      `successful`: then "<reference> - Voided" is printed and the envelope
      returned.  An envelope that says otherwise prints the failure line with
      its first error (panicking when there is none) and returns
      "01Error voiding transaction: "; a body that does not decode returns
      "02Error voiding transaction: "; send and read failures are transport
      errors. */
  function VoidTransaction(params: Params, refx: string, id: string, reply: Reply): (c: Call<Envelope>)
    ensures c.request == VoidRequest(params, id)
    ensures c.outcome.Returned? && c.outcome.result.Ok? <==> Decoded(reply).Some? && Decoded(reply).value.successful
    ensures c.outcome.Returned? && c.outcome.result.Ok? ==>
              c.outcome.result.value == Decoded(reply).value && c.printed == [VoidedLine(refx)]
    ensures !reply.Received? ==> c.outcome == Returned(Err(Transport)) && c.printed == []
    ensures reply.Received? && Decoded(reply).None? ==>
              c.outcome == Returned(Err(Message("02Error voiding transaction: " + refx))) && c.printed == []
    ensures Decoded(reply).Some? && !Decoded(reply).value.successful ==>
              match FirstError(Decoded(reply).value.errors)
              case None => c.outcome.Panicked? && c.printed == []
              case Some(e) => c.outcome == Returned(Err(Message("01Error voiding transaction: " + refx)))
                              && c.printed == [FailureLine(refx, e)]
  {
    var request := VoidRequest(params, id);
    match reply
    case SendError => Call(request, [], Returned(Err(Transport)))
    case ReadError => Call(request, [], Returned(Err(Transport)))
    case Received(body) =>
      match FromStr(body)
      case None => Call(request, [], Returned(ReturnError("02Error voiding transaction: ", refx)))
      case Some(b) =>
        if b.successful then
          Call(request, [VoidedLine(refx)], Returned(Ok(b)))
        else
          match FirstError(b.errors)
          case None => Call(request, [], Panicked)
          case Some(e) => Call(request, [FailureLine(refx, e)], Returned(ReturnError("01Error voiding transaction: ", refx)))
  }
}
