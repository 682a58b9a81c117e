/** `fetch_n_void`: look a reference up, void the internal id the gateway
    returns, and report.  The two replies are inputs; the transcript records
    the requests issued, the lines printed and how the call ended. */
module Workflow {
  import opened Wrappers
  import opened Envelope
  import opened Gateway
  import Endpoints

  /** What one run of the program, or of a part of it, is seen to do. */
  datatype Transcript = Transcript(outcome: Outcome<()>, requests: seq<Request>, printed: seq<string>)

  /** The reference a call works on: the one it is given, else the one in
      the parameters. */
  function ReferenceOf(params: Params, reference: Option<string>): (refx: string)
    ensures reference.Some? ==> refx == reference.value
    ensures reference.None? ==> refx == params.reference
  {
    reference.GetOr(params.reference)
  }

  /** The internal id a lookup reply hands to the void: present when the
      reply decodes, says `successful` and carries a response. */
  function FetchedId(reply: Reply): (r: Option<string>)
    ensures r.Some? <==> Decoded(reply).Some? && Decoded(reply).value.successful
                         && Decoded(reply).value.response.Some?
    ensures r.Some? ==> Decoded(reply).value.response == Some(Some(FetchResponse(r.value)))
  {
    match Decoded(reply)
    case Some(Envelope(true, Some(Some(payload)), _)) => Some(payload.id)
    case _ => None
  }

  /** What follows an issued void (the `if let Ok(r)` at the void call): a
      void that returns is reported once more as "Voiding failed" with the
      void envelope's first error, and the call returns `Ok(())`; without
      such an error it panics; a void that fails gives "Error voiding
      transaction: ". */
  function VoidStep(refx: string, lookup: Request, void: Call<Envelope>): (t: Transcript)
    ensures t.requests == [lookup, void.request]
    ensures void.printed <= t.printed && |t.printed| <= |void.printed| + 1
    ensures t.outcome == Returned(Ok(())) <==>
              (void.outcome.Returned? && void.outcome.result.Ok? && FirstError(void.outcome.result.value.errors).Some?)
    ensures void.outcome.Returned? && void.outcome.result.Err? ==>
              t.outcome == Returned(Err(Message("Error voiding transaction: " + refx))) && t.printed == void.printed
  {
    var requests := [lookup, void.request];
    if void.outcome.Panicked? then Transcript(Panicked, requests, void.printed)
    else if void.outcome.result.Ok? then
      var first := FirstError(void.outcome.result.value.errors);
      if first.Some? then Transcript(Returned(Ok(())), requests, void.printed + [FailureLine(refx, first.value)])
      else Transcript(Panicked, requests, void.printed)
    else Transcript(Returned(ReturnError("Error voiding transaction: ", refx)), requests, void.printed)
  }

  /** The behaviour of `fetch_n_void`, as the specification of the method
      below and of the batch driver: the lookup is always issued, and the void
      exactly when the lookup yielded an id, against that id. */
  function Run(params: Params, reference: Option<string>, fetchReply: Reply, voidReply: Reply): (t: Transcript)
    ensures 1 <= |t.requests| <= 2 && |t.printed| <= 2
    ensures t.requests[0] == FetchRequest(params, ReferenceOf(params, reference))
    ensures |t.requests| == 2 <==> FetchedId(fetchReply).Some?
    ensures |t.requests| == 2 ==> t.requests[1] == VoidRequest(params, FetchedId(fetchReply).value)
  {
    var refx := ReferenceOf(params, reference);
    var fetch := FetchPurchase(params, refx, fetchReply);
    if fetch.outcome.Panicked? then
      Transcript(Panicked, [fetch.request], [])
    else if fetch.outcome.result.Err? then
      Transcript(Returned(ReturnError("Error fetching transaction: ", refx)), [fetch.request], [])
    else
      var fe := fetch.outcome.result.value;
      if fe.successful then
        if fe.response.Some? && fe.response.value.Some? then
          VoidStep(refx, fetch.request, VoidTransaction(params, refx, fe.response.value.value.id, voidReply))
        else
          Transcript(Panicked, [fetch.request], [])
      else
        var first := FirstError(fe.errors);
        if first.Some? then
          Transcript(Returned(ReturnError("Could not fetch transaction: ", refx)), [fetch.request], [FailureLine(refx, first.value)])
        else
          Transcript(Panicked, [fetch.request], [])
  }

  /** The void call of `fetch_n_void` and what it prints and returns after it. */
  method VoidAndReport(params: Params, refx: string, lookup: Request, id: string, voidReply: Reply)
    returns (outcome: Outcome<()>, requests: seq<Request>, printed: seq<string>)
    ensures Transcript(outcome, requests, printed) == VoidStep(refx, lookup, VoidTransaction(params, refx, id, voidReply))
    ensures requests == [lookup, VoidRequest(params, id)]
  {
    var void := VoidTransaction(params, refx, id, voidReply);
    requests := [lookup, void.request];
    printed := void.printed;
    if void.outcome.Panicked? {
      outcome := Panicked;
      return;
    }
    if void.outcome.result.Ok? {
      var first := FirstError(void.outcome.result.value.errors);
      if first.None? {
        outcome := Panicked;
        return;
      }
      printed := printed + [FailureLine(refx, first.value)];
      outcome := Returned(Ok(()));
    } else {
      outcome := Returned(ReturnError("Error voiding transaction: ", refx));
    }
  }

  /** `fetch_n_void`, step by step as the source does it. */
  method FetchNVoid(params: Params, reference: Option<string>, fetchReply: Reply, voidReply: Reply)
    returns (outcome: Outcome<()>, requests: seq<Request>, printed: seq<string>)
    ensures Transcript(outcome, requests, printed) == Run(params, reference, fetchReply, voidReply)
    ensures 1 <= |requests| <= 2 && requests[0] == FetchRequest(params, ReferenceOf(params, reference))
  {
    var refx := params.reference;
    if reference.Some? {
      refx := reference.value;
    }
    var fetch := FetchPurchase(params, refx, fetchReply);
    requests := [fetch.request];
    printed := [];
    if fetch.outcome.Panicked? {
      outcome := Panicked;
      return;
    }
    var result := fetch.outcome.result;
    if result.Ok? {
      var fe := result.value;
      if fe.successful {
        if !(fe.response.Some? && fe.response.value.Some?) {
          outcome := Panicked;
          return;
        }
        outcome, requests, printed := VoidAndReport(params, refx, fetch.request, fe.response.value.value.id, voidReply);
      } else {
        var first := FirstError(fe.errors);
        if first.None? {
          outcome := Panicked;
          return;
        }
        printed := printed + [FailureLine(refx, first.value)];
        outcome := Returned(ReturnError("Could not fetch transaction: ", refx));
      }
    } else {
      outcome := Returned(ReturnError("Error fetching transaction: ", refx));
    }
  }

  // The outcomes of `fetch_n_void`, case by case.

  /** A lookup whose body cannot be read panics (the `unwrap` on the body
      text); one that fails to send or to decode issues no void, prints
      nothing and returns "Error fetching transaction: " + reference. */
  lemma LookupFailure(params: Params, reference: Option<string>, fetchReply: Reply, voidReply: Reply)
    requires Decoded(fetchReply).None?
    ensures var t := Run(params, reference, fetchReply, voidReply);
      |t.requests| == 1 && t.printed == [] &&
      t.outcome == (if fetchReply.ReadError? then Panicked
                    else Returned(Err(Message("Error fetching transaction: " + ReferenceOf(params, reference)))))
  {
  }

  /** A lookup the gateway reports unsuccessful issues no void, prints the
      failure line with its first error and returns "Could not fetch
      transaction: " + reference; without an error to show it panics. */
  lemma LookupRejected(params: Params, reference: Option<string>, fetchReply: Reply, voidReply: Reply)
    requires Decoded(fetchReply).Some? && !Decoded(fetchReply).value.successful
    ensures var t := Run(params, reference, fetchReply, voidReply);
      var refx := ReferenceOf(params, reference);
      |t.requests| == 1 &&
      match FirstError(Decoded(fetchReply).value.errors)
      case None => t.outcome.Panicked? && t.printed == []
      case Some(e) => t.printed == [FailureLine(refx, e)]
                      && t.outcome == Returned(Err(Message("Could not fetch transaction: " + refx)))
  {
  }

  /** A lookup reported successful but without a response panics before any
      void is issued. */
  lemma LookupWithoutResponse(params: Params, reference: Option<string>, fetchReply: Reply, voidReply: Reply)
    requires Decoded(fetchReply).Some? && Decoded(fetchReply).value.successful && FetchedId(fetchReply).None?
    ensures var t := Run(params, reference, fetchReply, voidReply);
      t.outcome.Panicked? && |t.requests| == 1 && t.printed == []
  {
  }

  /** A void that does not succeed ends in "Error voiding transaction: " +
      reference, or in a panic when the void's rejection carries no error.  A
      rejection with a first error prints its failure line; a send, read or
      decode failure, and the panic, print nothing. */
  lemma VoidFailure(params: Params, reference: Option<string>, fetchReply: Reply, voidReply: Reply)
    requires FetchedId(fetchReply).Some?
    requires !(Decoded(voidReply).Some? && Decoded(voidReply).value.successful)
    ensures var t := Run(params, reference, fetchReply, voidReply);
      var refx := ReferenceOf(params, reference);
      |t.requests| == 2 &&
      (t.printed == if Decoded(voidReply).Some? && FirstError(Decoded(voidReply).value.errors).Some?
                    then [FailureLine(refx, FirstError(Decoded(voidReply).value.errors).value)] else []) &&
      (t.outcome.Panicked? <==> Decoded(voidReply).Some? && FirstError(Decoded(voidReply).value.errors).None?) &&
      (!t.outcome.Panicked? ==> t.outcome == Returned(Err(Message("Error voiding transaction: " + refx))))
  {
  }

  /** A void that succeeds prints "<reference> - Voided" and then a second,
      "Voiding failed", line from the void envelope's own errors, returning
      `Ok(())`; when that envelope has no error it panics after the first
      line. */
  lemma VoidSuccess(params: Params, reference: Option<string>, fetchReply: Reply, voidReply: Reply)
    requires FetchedId(fetchReply).Some?
    requires Decoded(voidReply).Some? && Decoded(voidReply).value.successful
    ensures var t := Run(params, reference, fetchReply, voidReply);
      var refx := ReferenceOf(params, reference);
      |t.requests| == 2 &&
      match FirstError(Decoded(voidReply).value.errors)
      case None => t.outcome.Panicked? && t.printed == [VoidedLine(refx)]
      case Some(e) => t.outcome == Returned(Ok(())) && t.printed == [VoidedLine(refx), FailureLine(refx, e)]
  {
  }

  /** `fetch_n_void` returns `Ok(())` only after a void the gateway accepted. */
  lemma OkOnlyAfterAcceptedVoid(params: Params, reference: Option<string>, fetchReply: Reply, voidReply: Reply)
    requires Run(params, reference, fetchReply, voidReply).outcome == Returned(Ok(()))
    ensures FetchedId(fetchReply).Some? && Decoded(voidReply).Some? && Decoded(voidReply).value.successful
  {
    if !(FetchedId(fetchReply).Some? && Decoded(voidReply).Some? && Decoded(voidReply).value.successful) {
      if FetchedId(fetchReply).Some? {
        VoidFailure(params, reference, fetchReply, voidReply);
      } else if Decoded(fetchReply).None? {
        LookupFailure(params, reference, fetchReply, voidReply);
      } else if Decoded(fetchReply).value.successful {
        LookupWithoutResponse(params, reference, fetchReply, voidReply);
      } else {
        LookupRejected(params, reference, fetchReply, voidReply);
      }
    }
  }

  /** The id is used as it comes: a lookup that yields the empty id still
      voids, against the bare void path. */
  lemma EmptyIdIsVoided(params: Params, reference: Option<string>, fetchReply: Reply, voidReply: Reply)
    requires FetchedId(fetchReply) == Some("")
    ensures var t := Run(params, reference, fetchReply, voidReply);
      |t.requests| == 2 && t.requests[1].verb == Post && t.requests[1].url == Endpoints.VoidBase(params.username)
  {
  }
}
