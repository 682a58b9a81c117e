/** The gateway's response envelope and the tolerant way it is decoded from
    JSON: `FetchResponses`, `FetchResponse`, `FetchErrors` and
    `deserialize_optional_field`.  JSON text parsing itself is below this
    model: a body is given as already parsed, or as not JSON at all. */
module Envelope {
  import opened Wrappers

  /** A parsed JSON value.  Objects are maps, so a key occurs once. */
  datatype Json =
    | Null
    | Bool(b: bool)
    | Number(n: int)
    | Str(s: string)
    | Array(items: seq<Json>)
    | Object(fields: map<string, Json>)

  /** The text of a reply: either a JSON document or something that does not
      parse as JSON. */
  datatype Body = Unparseable | Document(value: Json)

  /** The payload of a successful lookup; only `id` is read. */
  datatype FetchResponse = FetchResponse(id: string)

  /** `FetchResponses`: the success flag and the two tolerant slots, each
      `None` (absent, null or ill-typed) or `Some(Some(v))`. */
  datatype Envelope = Envelope(successful: bool,
                               response: Option<Option<FetchResponse>>,
                               errors: Option<Option<seq<string>>>)

  /** A slot value the tolerant decoder can produce. */
  predicate Canonical(e: Envelope) {
    e.response != Some(None) && e.errors != Some(None)
  }

  /** `FetchResponses::default()`, which fills every absent field. */
  function DefaultEnvelope(): (e: Envelope)
    ensures !e.successful && e.response.None? && e.errors.None?
  {
    Envelope(false, None, None)
  }

  /** `FetchResponse`: an object with a string `id`; other keys are ignored. */
  function DecodeFetchResponse(v: Json): (r: Option<FetchResponse>)
    ensures r.Some? <==> v.Object? && "id" in v.fields && v.fields["id"].Str?
    ensures r.Some? ==> r.value.id == v.fields["id"].s
  {
    match v
    case Object(f) => if "id" in f && f["id"].Str? then Some(FetchResponse(f["id"].s)) else None
    case _ => None
  }

  /** `FetchErrors`, transparent over `Vec<String>`: an array of strings. */
  function DecodeErrors(v: Json): (r: Option<seq<string>>)
    ensures r.Some? <==> v.Array? && forall i :: 0 <= i < |v.items| ==> v.items[i].Str?
    ensures r.Some? ==> |r.value| == |v.items| && forall i :: 0 <= i < |v.items| ==> r.value[i] == v.items[i].s
  {
    match v
    case Array(items) =>
      if forall i :: 0 <= i < |items| ==> items[i].Str?
      then Some(seq(|items|, i requires 0 <= i < |items| => items[i].s))
      else None
    case _ => None
  }

  /** `deserialize_optional_field` applied to a value that is present: null
      and every value `decode` refuses become `None`; the decoder never fails
      and never yields `Some(None)`. */
  function DeserializeOptionalField<T>(v: Json, decode: Json -> Option<T>): (r: Option<Option<T>>)
    ensures r != Some(None)
    ensures r.Some? <==> v != Null && decode(v).Some?
    ensures r.Some? ==> r.value == decode(v)
  {
    if v == Null then None
    else match decode(v)
      case Some(t) => Some(Some(t))
      case None => None
  }

  /** A tolerant slot of the envelope: an absent key takes the default `None`,
      a present one goes through `deserialize_optional_field`. */
  function Slot<T>(fields: map<string, Json>, key: string, decode: Json -> Option<T>): (r: Option<Option<T>>)
    ensures r != Some(None)
    ensures r.Some? <==> key in fields && fields[key] != Null && decode(fields[key]).Some?
    ensures r.Some? ==> r.value == decode(fields[key])
  {
    if key in fields then DeserializeOptionalField(fields[key], decode) else None
  }

  /** Decodes a JSON document into `FetchResponses`.  It fails only when the
      document is not an object or `successful` is present and not a boolean;
      `successful` defaults to false. */
  function DecodeEnvelope(v: Json): (r: Option<Envelope>)
    ensures r.Some? <==> v.Object? && ("successful" in v.fields ==> v.fields["successful"].Bool?)
    ensures r.Some? ==> Canonical(r.value)
    ensures r.Some? ==> (r.value.successful <==> "successful" in v.fields && v.fields["successful"] == Bool(true))
    ensures r.Some? ==> r.value.response == Slot(v.fields, "response", DecodeFetchResponse)
    ensures r.Some? ==> r.value.errors == Slot(v.fields, "errors", DecodeErrors)
  {
    match v
    case Object(f) =>
      if "successful" in f && !f["successful"].Bool? then None
      else
        var successful := if "successful" in f then f["successful"].b else DefaultEnvelope().successful;
        Some(Envelope(successful, Slot(f, "response", DecodeFetchResponse), Slot(f, "errors", DecodeErrors)))
    case _ => None
  }

  /** `serde_json::from_str::<FetchResponses>` on a reply body. */
  function FromStr(body: Body): (r: Option<Envelope>)
    ensures body.Unparseable? ==> r.None?
    ensures body.Document? ==> r == DecodeEnvelope(body.value)
  {
    match body
    case Unparseable => None
    case Document(v) => DecodeEnvelope(v)
  }

  /** The JSON array of a list of strings. */
  function StringArray(l: seq<string>): (v: Json)
    ensures v.Array? && |v.items| == |l| && forall i :: 0 <= i < |l| ==> v.items[i] == Str(l[i])
  {
    Array(seq(|l|, i requires 0 <= i < |l| => Str(l[i])))
  }

  /** The document a gateway sends for an envelope: `successful` always, the
      slots only when they hold a value. */
  function EncodeEnvelope(e: Envelope): (v: Json)
    ensures v.Object? && "successful" in v.fields
  {
    var f0 := map["successful" := Bool(e.successful)];
    var f1 := if e.response.Some? && e.response.value.Some?
      then f0["response" := Object(map["id" := Str(e.response.value.value.id)])] else f0;
    var f2 := if e.errors.Some? && e.errors.value.Some?
      then f1["errors" := StringArray(e.errors.value.value)] else f1;
    Object(f2)
  }

  /** Every envelope the decoder can produce is decoded back from its
      rendering. */
  lemma DecodeEncodeEnvelope(e: Envelope)
    requires Canonical(e)
    ensures DecodeEnvelope(EncodeEnvelope(e)) == Some(e)
  {
    var f := EncodeEnvelope(e).fields;
    assert "response" in f <==> e.response.Some?;
    assert "errors" in f <==> e.errors.Some?;
    if e.errors.Some? {
      var l := e.errors.value.value;
      assert f["errors"] == StringArray(l);
      var d := DecodeErrors(f["errors"]);
      assert d.Some? && |d.value| == |l|;
      assert forall i :: 0 <= i < |l| ==> d.value[i] == l[i];
      assert d.value == l;
    }
  }

  /** A document whose slots are null or ill-typed decodes exactly as one
      that leaves them out. */
  lemma IllTypedSlotsAreAbsent(successful: Json, response: Json, errors: Json)
    requires successful.Bool?
    requires response == Null || DecodeFetchResponse(response).None?
    requires errors == Null || DecodeErrors(errors).None?
    ensures DecodeEnvelope(Object(map["successful" := successful, "response" := response, "errors" := errors]))
         == DecodeEnvelope(Object(map["successful" := successful]))
         == Some(Envelope(successful.b, None, None))
  {
  }
}
