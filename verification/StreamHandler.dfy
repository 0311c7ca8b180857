/**
 The external-processing stream of the endpoint picker: what each message from the proxy does to the request context,
 which responses are then flushed and in which order, and how bodies are cut into chunks.
 */
module StreamHandler {
  import opened Wrappers

  type Bytes = seq<bv8>

  const BODY_BYTE_LIMIT: nat := 62000

  datatype Chunk = Chunk(body: Bytes, eos: bool)

  datatype Status = TooManyRequests | InternalServerError | ServiceUnavailable | BadRequest | NotFound

  /** A message sent to the proxy. `contentLength` is the Content-Length entry generated from the request size, if any. */
  datatype Response =
    | RequestHeader(contentLength: Option<nat>)
    | RequestBody(chunk: Chunk)
    | ResponseHeader
    | ResponseBody(chunk: Chunk)
    | Immediate(status: Status)

  // ---------- Chunking ----------

  /** The chunks of a body: one empty chunk for an empty body, otherwise pieces of at most `limit` bytes. */
  function Chunks(bytes: Bytes, limit: nat, setEos: bool): (r: seq<Chunk>)
    requires limit > 0
    ensures r != []
    decreases |bytes|
  {
    if |bytes| <= limit then [Chunk(bytes, setEos)]
    else [Chunk(bytes[..limit], false)] + Chunks(bytes[limit..], limit, setEos)
  }

  function Joined(chunks: seq<Chunk>): Bytes {
    if chunks == [] then [] else chunks[0].body + Joined(chunks[1..])
  }

  function TotalLength(chunks: seq<Chunk>): nat {
    if chunks == [] then 0 else |chunks[0].body| + TotalLength(chunks[1..])
  }

  /** Only the last chunk may be marked as the end of the stream. */
  predicate EosOnlyLast(chunks: seq<Chunk>) {
    forall i :: 0 <= i < |chunks| - 1 ==> !chunks[i].eos
  }

  /** Chunks join up to the body they were cut from. */
  lemma {:induction false} ChunksJoin(bytes: Bytes, limit: nat, setEos: bool)
    requires limit > 0
    ensures Joined(Chunks(bytes, limit, setEos)) == bytes
    ensures TotalLength(Chunks(bytes, limit, setEos)) == |bytes|
    decreases |bytes|
  {
    var r := Chunks(bytes, limit, setEos);
    if |bytes| <= limit {
      assert r[1..] == [];
      assert Joined(r) == bytes + Joined([]);
    } else {
      ChunksJoin(bytes[limit..], limit, setEos);
      assert r[1..] == Chunks(bytes[limit..], limit, setEos);
      assert Joined(r) == bytes[..limit] + bytes[limit..];
    }
  }

  /** No chunk exceeds the limit, none is empty unless the body is, and the end of stream is on the last one iff asked for. */
  lemma {:induction false} ChunksShape(bytes: Bytes, limit: nat, setEos: bool)
    requires limit > 0
    ensures var r := Chunks(bytes, limit, setEos);
      && (forall i :: 0 <= i < |r| ==> |r[i].body| <= limit && (bytes != [] ==> r[i].body != []))
      && EosOnlyLast(r) && r[|r| - 1].eos == setEos
    decreases |bytes|
  {
    if |bytes| > limit {
      var rest := Chunks(bytes[limit..], limit, setEos);
      ChunksShape(bytes[limit..], limit, setEos);
      assert Chunks(bytes, limit, setEos) == [Chunk(bytes[..limit], false)] + rest;
    }
  }

  /** The loop that cuts a body into streamed responses. */
  method BuildCommonResponses(bytes: Bytes, byteLimit: nat, setEos: bool) returns (responses: seq<Chunk>)
    requires byteLimit > 0
    ensures responses == Chunks(bytes, byteLimit, setEos)
  {
    responses := [];
    var startingIndex, bodyLen := 0, |bytes|;
    if bodyLen == 0 {
      return [Chunk(bytes, setEos)];
    }
    while startingIndex < bodyLen
      invariant 0 <= startingIndex <= bodyLen
      invariant startingIndex < bodyLen ==>
                  responses + Chunks(bytes[startingIndex..], byteLimit, setEos) == Chunks(bytes, byteLimit, setEos)
      invariant startingIndex == bodyLen ==> responses == Chunks(bytes, byteLimit, setEos)
    {
      var eos := false;
      var len := if bodyLen - startingIndex < byteLimit then bodyLen - startingIndex else byteLimit;
      var chunk := bytes[startingIndex..len + startingIndex];
      if setEos && len + startingIndex >= bodyLen {
        eos := true;
      }
      ghost var rest := bytes[startingIndex..];
      assert chunk == rest[..len] && bytes[startingIndex + len..] == rest[len..];
      assert len == |rest| ==> rest[..len] == rest;
      responses := responses + [Chunk(chunk, eos)];
      startingIndex := startingIndex + len;
    }
  }

  function AsRequestBodies(chunks: seq<Chunk>): (r: seq<Response>)
    ensures |r| == |chunks| && forall i :: 0 <= i < |r| ==> r[i] == RequestBody(chunks[i])
  {
    seq(|chunks|, i requires 0 <= i < |chunks| => RequestBody(chunks[i]))
  }

  function AsResponseBodies(chunks: seq<Chunk>): (r: seq<Response>)
    ensures |r| == |chunks| && forall i :: 0 <= i < |r| ==> r[i] == ResponseBody(chunks[i])
  {
    seq(|chunks|, i requires 0 <= i < |chunks| => ResponseBody(chunks[i]))
  }

  // ---------- The request context ----------

  datatype State =
    | RequestReceived
    | HeaderRequestResponseComplete
    | BodyRequestResponsesComplete
    | TrailerRequestResponsesComplete
    | ResponseReceived
    | HeaderResponseResponseComplete
    | BodyResponseResponsesComplete
    | TrailerResponseResponsesComplete

  /** The pending responses are chunk lists; an absent list and an empty one are treated alike by the code. */
  datatype Context = Context(
    state: State,
    model: string,
    running: bool,
    streaming: bool,
    body: Bytes,
    reqHeader: Option<Response>,
    reqBody: seq<Chunk>,
    respHeader: bool,
    respBody: seq<Chunk>)

  function NewContext(): Context {
    Context(RequestReceived, "", false, false, [], None, [], false, [])
  }

  /** An error: with a status it is answered by an immediate response, without one the stream just ends. */
  datatype Failure = Failure(status: Option<Status>)

  /** What JSON decoding, the director and JSON encoding make of a complete request body. */
  datatype RequestOutcome =
    | RequestNotJson
    | Rejected(model: string, failure: Failure)
    | RequestNotEncodable(model: string)
    | Accepted(model: string, encoded: Bytes)

  /** What JSON decoding and encoding make of a complete, buffered response body. */
  datatype ResponseOutcome = ResponseNotJson | ResponseNotEncodable | Reencoded(encoded: Bytes)

  datatype Message =
    | RequestHeadersMsg(eos: bool, failure: Option<Failure>)
    | RequestBodyMsg(bytes: Bytes, eos: bool, request: RequestOutcome)
    | RequestTrailersMsg
    | ResponseHeadersMsg(eventStream: bool)
    | ResponseBodyMsg(bytes: Bytes, eos: bool, response: ResponseOutcome)
    | ResponseTrailersMsg

  /** The header response generated for a request of the given size. */
  function RequestHeaderFor(requestSize: nat): Response {
    RequestHeader(if requestSize > 0 then Some(requestSize) else None)
  }

  function HandleRequestBody(c: Context, outcome: RequestOutcome): (Context, Option<Failure>) {
    match outcome
    case RequestNotJson => (c, Some(Failure(Some(BadRequest))))
    case Rejected(model, failure) => (c.(body := [], model := model), Some(failure))
    case RequestNotEncodable(model) => (c.(body := [], model := model), None)
    case Accepted(model, encoded) =>
      (c.(body := [], model := model, reqHeader := Some(RequestHeaderFor(|encoded|)),
       reqBody := Chunks(encoded, BODY_BYTE_LIMIT, true)), None)
  }

  function HandleResponseBody(c: Context, outcome: ResponseOutcome): Context {
    match outcome
    case ResponseNotJson => c.(respBody := Chunks(c.body, BODY_BYTE_LIMIT, true))
    case ResponseNotEncodable => c
    case Reencoded(encoded) => c.(respBody := Chunks(encoded, BODY_BYTE_LIMIT, true))
  }

  /** The switch over the message kinds. */
  function Handle(c: Context, m: Message): (Context, Option<Failure>) {
    match m
    case RequestHeadersMsg(eos, failure) =>
      if !eos then (c, None)
      else if failure.Some? then (c, failure)
      else (c.(reqHeader := Some(RequestHeaderFor(0))), None)
    case RequestBodyMsg(bytes, eos, outcome) =>
      var received := c.(body := c.body + bytes);
      if eos then HandleRequestBody(received, outcome) else (received, None)
    case RequestTrailersMsg => (c, None)
    case ResponseHeadersMsg(eventStream) =>
      (c.(state := ResponseReceived, streaming := c.streaming || eventStream, respHeader := true), None)
    case ResponseBodyMsg(bytes, eos, outcome) =>
      if c.streaming then (c.(respBody := Chunks(bytes, BODY_BYTE_LIMIT, eos)), None) else
        var received := c.(body := c.body + bytes);
        (if eos then HandleResponseBody(received, outcome) else received, None)
    case ResponseTrailersMsg => (c, None)
  }

  // ---------- Flushing ----------

  /** Where a flush stands: what it has sent, whether every send succeeded, and the model it counted as running. */
  datatype Flush = Flush(context: Context, sent: seq<Response>, ok: bool, counted: Option<string>)

  /** Sends `more` and then takes the context to `next`, unless the stream allows fewer than `budget` sends in all. */
  function Sending(f: Flush, budget: nat, more: seq<Response>, next: Context, counted: Option<string>): Flush {
    if |f.sent| + |more| <= budget then Flush(next, f.sent + more, true, counted)
    else Flush(f.context, f.sent + more[..if budget < |f.sent| then 0 else budget - |f.sent|], false, f.counted)
  }

  function FlushRequestHeader(f: Flush, budget: nat): Flush {
    var c := f.context;
    if f.ok && c.state == RequestReceived && c.reqHeader.Some? then
      Sending(f, budget, [c.reqHeader.value], c.(state := HeaderRequestResponseComplete), f.counted)
    else f
  }

  function FlushRequestBody(f: Flush, budget: nat): Flush {
    var c := f.context;
    if f.ok && c.state == HeaderRequestResponseComplete && c.reqBody != [] then
      Sending(f, budget, AsRequestBodies(c.reqBody),
              c.(state := BodyRequestResponsesComplete, running := true, reqBody := []), Some(c.model))
    else f
  }

  function FlushResponseHeader(f: Flush, budget: nat): Flush {
    var c := f.context;
    if f.ok && c.state == ResponseReceived && c.respHeader then
      Sending(f, budget, [ResponseHeader], c.(state := HeaderResponseResponseComplete), f.counted)
    else f
  }

  predicate AnyEos(chunks: seq<Chunk>) {
    exists i :: 0 <= i < |chunks| && chunks[i].eos
  }

  function FlushResponseBody(f: Flush, budget: nat): Flush {
    var c := f.context;
    if f.ok && c.state == HeaderResponseResponseComplete && c.respBody != [] then
      var next := if AnyEos(c.respBody) then BodyResponseResponsesComplete else c.state;
      Sending(f, budget, AsResponseBodies(c.respBody), c.(state := next, respBody := []), f.counted)
    else f
  }

  function FlushPending(c: Context, budget: nat): Flush {
    FlushResponseBody(FlushResponseHeader(FlushRequestBody(FlushRequestHeader(
      Flush(c, [], true, None), budget), budget), budget), budget)
  }

  // ---------- A whole stream ----------

  /** A stream: its context, what it has sent, whether it still receives, and how many more sends will succeed. */
  datatype Stream = Stream(context: Context, sent: seq<Response>, open: bool, budget: nat, counted: Option<string>)

  function NewStream(budget: nat): Stream {
    Stream(NewContext(), [], true, budget, None)
  }

  /** One pass of the receive loop; `counted` is the model whose running-requests gauge this pass incremented. */
  function Receive(s: Stream, m: Message): Stream {
    if !s.open then s.(counted := None) else
      var (c, failure) := Handle(s.context, m);
      if failure.Some? then
        if failure.value.status.Some? && s.budget > 0 then
          Stream(c, s.sent + [Immediate(failure.value.status.value)], false, s.budget - 1, None)
        else Stream(c, s.sent, false, s.budget, None)
      else
        var f := FlushPending(c, s.budget);
        Stream(f.context, s.sent + f.sent, f.ok, if |f.sent| <= s.budget then s.budget - |f.sent| else 0, f.counted)
  }

  function ReceiveAll(s: Stream, messages: seq<Message>): Stream
    decreases |messages|
  {
    if messages == [] then s else ReceiveAll(Receive(s, messages[0]), messages[1..])
  }
}
