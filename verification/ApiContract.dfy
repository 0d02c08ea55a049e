/** The response envelope, the middleware that adds it, and the client that takes it off. */
module ApiContract {
  import opened PyValues

  const RESERVED: set<string> := {"code", "message", "data", "request_id", "timestamp"}

  /** Request id and clock of one request. */
  datatype Context = Context(requestId: string, timestamp: string)

  datatype Body = Empty | NotJson | Json(value: Py)
  datatype Response = Response(status: int, jsonType: bool, body: Body)

  // ----- envelopes

  function SuccessBase(ctx: Context, data: Py, code: string, message: string): (base: map<string, Py>)
    ensures base.Keys == RESERVED
  {
    map["code" := Str(code), "message" := Str(message), "data" := data,
      "request_id" := Str(ctx.requestId), "timestamp" := Str(ctx.timestamp)]
  }

  /** A missing detail is replaced by the message. */
  function ErrorBase(ctx: Context, message: string, errorCode: string, detail: Py, data: Py): (base: map<string, Py>)
    ensures base.Keys == RESERVED + {"error_code", "detail"}
  {
    map["code" := Str(errorCode), "message" := Str(message), "data" := data,
      "request_id" := Str(ctx.requestId), "timestamp" := Str(ctx.timestamp),
      "error_code" := Str(errorCode), "detail" := if detail != Null then detail else Str(message)]
  }

  /** The base wins over every mirrored key. */
  function Mirrored(base: map<string, Py>, source: Py): map<string, Py> {
    if source.Dict? then source.entries + base else base
  }

  method MirrorInto(base: map<string, Py>, source: Py) returns (payload: map<string, Py>)
    ensures payload == Mirrored(base, source)
  {
    payload := base;
    if source.Dict? {
      var keys := source.entries.Keys;
      while keys != {}
        invariant keys <= source.entries.Keys
        invariant payload == (source.entries - keys) + base
        decreases keys
      {
        var key :| key in keys;
        if key !in payload {
          payload := payload[key := source.entries[key]];
        }
        keys := keys - {key};
      }
    }
  }

  method BuildSuccessEnvelope(ctx: Context, data: Py, code: string, message: string) returns (payload: map<string, Py>)
    ensures payload == Mirrored(SuccessBase(ctx, data, code, message), data)
  {
    payload := MirrorInto(SuccessBase(ctx, data, code, message), data);
  }

  method BuildErrorEnvelope(ctx: Context, message: string, errorCode: string, detail: Py, data: Py)
    returns (payload: map<string, Py>)
    ensures payload == Mirrored(ErrorBase(ctx, message, errorCode, detail, data), detail)
  {
    payload := MirrorInto(ErrorBase(ctx, message, errorCode, detail, data), detail);
  }

  // ----- the middleware and the client

  predicate IsEnvelope(p: Py) {
    p.Dict? && RESERVED <= p.entries.Keys
  }

  function Wrap(ctx: Context, p: Py): Py {
    if IsEnvelope(p) then p else Dict(Mirrored(SuccessBase(ctx, p, "OK", "success"), p))
  }

  predicate Wraps(apiPath: bool, r: Response) {
    apiPath && r.status < 400 && r.jsonType && r.body.Json?
  }

  /** Every early exit of the middleware hands the response on as it is. */
  function Dispatch(ctx: Context, apiPath: bool, r: Response): Response {
    if !apiPath then r
    else if r.status >= 400 then r
    else if !r.jsonType then r
    else match r.body
      case Empty => r
      case NotJson => r
      case Json(p) => r.(body := Json(Wrap(ctx, p)))
  }

  /** `payload?.data ?? payload`. */
  function Unwrap(p: Py): Py {
    if p.Dict? && Get(p.entries, "data") != Null then Get(p.entries, "data") else p
  }

  // ----- properties

  /** `part` is one of the values of the dict `whole`. */
  ghost predicate PartOf(part: Py, whole: Py) {
    whole.Dict? && exists k :: k in whole.entries && whole.entries[k] == part
  }

  lemma PartsAreSmaller(part: Py, whole: Py)
    requires PartOf(part, whole)
    ensures part != whole
  {
    assert part < whole;
  }

  /** The client gets the payload back iff it was no envelope and not null, or an envelope without data. */
  lemma RoundTripIff(ctx: Context, p: Py)
    ensures Unwrap(Wrap(ctx, p)) == p <==>
      if IsEnvelope(p) then p.entries["data"] == Null else p != Null
  {
    if IsEnvelope(p) {
      assert "data" in RESERVED;
      if p.entries["data"] != Null {
        assert PartOf(p.entries["data"], p);
        PartsAreSmaller(p.entries["data"], p);
      }
    }
  }

  /** Wrapping twice, even under another request context, is wrapping once. */
  lemma WrapIsIdempotent(ctx: Context, later: Context, p: Py)
    ensures IsEnvelope(Wrap(ctx, p)) && Wrap(later, Wrap(ctx, p)) == Wrap(ctx, p)
  {
  }

  /** No payload key overwrites a reserved field; every other key is mirrored beside them, and nothing else. */
  lemma ReservedFieldsWin(ctx: Context, entries: map<string, Py>, key: string)
    requires !IsEnvelope(Dict(entries))
    ensures var wrapped := Wrap(ctx, Dict(entries)).entries;
      && (key in wrapped <==> key in RESERVED || key in entries)
      && (key in RESERVED ==> wrapped[key] == SuccessBase(ctx, Dict(entries), "OK", "success")[key])
      && (key in entries && key !in RESERVED ==> wrapped[key] == entries[key])
      && wrapped["data"] == Dict(entries) && wrapped["code"] == Str("OK") && wrapped["message"] == Str("success")
      && wrapped["request_id"] == Str(ctx.requestId) && wrapped["timestamp"] == Str(ctx.timestamp)
  {
  }

  /** An error envelope keeps its own seven fields and mirrors the rest of a dict detail. */
  lemma ErrorFieldsWin(ctx: Context, message: string, errorCode: string, detail: Py, data: Py, key: string)
    ensures var e := Mirrored(ErrorBase(ctx, message, errorCode, detail, data), detail);
      && IsEnvelope(Dict(e)) && "error_code" in e && "detail" in e
      && e["code"] == e["error_code"] == Str(errorCode) && e["message"] == Str(message) && e["data"] == data
      && e["detail"] != Null && (detail != Null ==> e["detail"] == detail)
      && e["request_id"] == Str(ctx.requestId) && e["timestamp"] == Str(ctx.timestamp)
      && (detail.Dict? && key in detail.entries && key !in RESERVED + {"error_code", "detail"}
        ==> e[key] == detail.entries[key])
  {
  }

  /** The middleware changes nothing but the JSON body of a successful API response, and stacking it is harmless. */
  lemma DispatchIsIdempotent(ctx: Context, later: Context, apiPath: bool, r: Response)
    ensures var out := Dispatch(ctx, apiPath, r);
      && Dispatch(later, apiPath, out) == out
      && out.status == r.status && out.jsonType == r.jsonType
      && (Wraps(apiPath, r) ==> out.body.Json? && IsEnvelope(out.body.value))
      && (!Wraps(apiPath, r) ==> out == r)
  {
    if Wraps(apiPath, r) {
      WrapIsIdempotent(ctx, later, r.body.value);
    }
  }

  /** The middleware's choice, from the response alone. */
  lemma DispatchFromTheResponse(ctx: Context, apiPath: bool, r: Response, p: Py)
    requires r.body == Json(p)
    ensures var out := Dispatch(ctx, apiPath, r);
      var envelope := p.Dict? && {"code", "message", "data", "request_id", "timestamp"} <= p.entries.Keys;
      if !apiPath || r.status >= 400 || !r.jsonType || envelope then out == r
      else
        && out.body.Json? && out.body.value.Dict? && out.status == r.status
        && var e := out.body.value.entries;
          && {"code", "message", "data", "request_id", "timestamp"} <= e.Keys
          && e["data"] == p && e["code"] == Str("OK") && e["message"] == Str("success")
          && e["request_id"] == Str(ctx.requestId) && e["timestamp"] == Str(ctx.timestamp)
  {
  }

  /** The client takes the data of an envelope, and anything without data as it is. */
  lemma UnwrapFromThePayload(p: Py)
    ensures Unwrap(p) ==
      if p.Dict? && "data" in p.entries && p.entries["data"] != Null then p.entries["data"] else p
  {
  }

  /** An API payload, wrapped and unwrapped, is the payload, unless that is null or an envelope already. */
  lemma ClientSeesThePayload(ctx: Context, r: Response, p: Py)
    requires r.body == Json(p) && r.status < 400 && r.jsonType && p != Null
    requires !(p.Dict? && {"code", "message", "data", "request_id", "timestamp"} <= p.entries.Keys)
    ensures var out := Dispatch(ctx, true, r); out.body.Json? && Unwrap(out.body.value) == p
  {
    RoundTripIff(ctx, p);
  }
}
