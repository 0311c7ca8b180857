/** The stream server as objects: the request context updated in place by the receive loop, and the gRPC stream it sends on. */
module StreamServer {
  import opened StreamBodies
  import opened StreamHandler
  import opened StreamGauge
  import opened StreamOrder
  import opened Wrappers

  /** The sending side of a stream; `budget` is how many sends will still succeed. */
  class ResponseStream {
    var sent: seq<Response>
    var budget: nat

    constructor (budget: nat)
      ensures sent == [] && this.budget == budget
    {
      sent, this.budget := [], budget;
    }

    method Send(r: Response) returns (ok: bool)
      modifies this
      ensures ok == (old(budget) > 0)
      ensures ok ==> sent == old(sent) + [r] && budget == old(budget) - 1
      ensures !ok ==> sent == old(sent) && budget == 0
    {
      ok := budget > 0;
      if ok {
        sent, budget := sent + [r], budget - 1;
      }
    }

    /** The loops over pending body responses: sends until one send fails. */
    method SendAll(responses: seq<Response>) returns (ok: bool)
      modifies this
      ensures ok == (|responses| <= old(budget))
      ensures ok ==> sent == old(sent) + responses && budget == old(budget) - |responses|
      ensures !ok ==> sent == old(sent) + responses[..old(budget)] && budget == 0
    {
      for i := 0 to |responses|
        invariant i <= old(budget) && sent == old(sent) + responses[..i] && budget == old(budget) - i
      {
        var sentOne := Send(responses[i]);
        if !sentOne {
          return false;
        }
        assert responses[..i + 1] == responses[..i] + [responses[i]];
      }
      assert responses[..|responses|] == responses;
      return true;
    }
  }

  class RunningRequests {
    var readings: map<string, int>

    method Inc(model: string)
      modifies this
      ensures readings == Moved(old(readings), model, 1)
    {
      if model != "" {
        readings := readings[model := Reading(readings, model) + 1];
      }
    }

    method Dec(model: string)
      modifies this
      ensures readings == Moved(old(readings), model, -1)
    {
      if model != "" {
        readings := readings[model := Reading(readings, model) - 1];
      }
    }
  }

  class RequestContext {
    var state: State
    var model: string
    var running: bool
    var streaming: bool
    var body: Bytes
    var reqHeader: Option<Response>
    var reqBody: seq<Chunk>
    var respHeader: bool
    var respBody: seq<Chunk>

    ghost function Value(): Context
      reads this
    {
      Context(state, model, running, streaming, body, reqHeader, reqBody, respHeader, respBody)
    }

    constructor ()
      ensures Value() == NewContext()
    {
      state, model, running, streaming, body := RequestReceived, "", false, false, [];
      reqHeader, reqBody, respHeader, respBody := None, [], false, [];
    }

    /** The switch of the receive loop. */
    method HandleMessage(m: Message) returns (failure: Option<Failure>)
      modifies this
      ensures (Value(), failure) == Handle(old(Value()), m)
    {
      failure := None;
      match m
      case RequestHeadersMsg(eos, routing) =>
        if eos {
          if routing.Some? {
            return routing;
          }
          reqHeader := Some(RequestHeaderFor(0));
        }
      case RequestBodyMsg(bytes, eos, outcome) =>
        body := body + bytes;
        if eos {
          failure := HandleRequestOutcome(outcome);
        }
      case RequestTrailersMsg =>
      case ResponseHeadersMsg(eventStream) =>
        if eventStream {
          streaming := true;
        }
        state := ResponseReceived;
        respHeader := true;
      case ResponseBodyMsg(bytes, eos, outcome) =>
        if streaming {
          respBody := BuildCommonResponses(bytes, BODY_BYTE_LIMIT, eos);
        } else {
          body := body + bytes;
          if eos {
            match outcome
            case ResponseNotJson => respBody := BuildCommonResponses(body, BODY_BYTE_LIMIT, true);
            case ResponseNotEncodable =>
            case Reencoded(encoded) => respBody := BuildCommonResponses(encoded, BODY_BYTE_LIMIT, true);
          }
        }
      case ResponseTrailersMsg =>
    }

    method HandleRequestOutcome(outcome: RequestOutcome) returns (failure: Option<Failure>)
      modifies this
      ensures (Value(), failure) == HandleRequestBody(old(Value()), outcome)
    {
      match outcome
      case RequestNotJson => return Some(Failure(Some(BadRequest)));
      case Rejected(name, error) =>
        body, model := [], name;
        return Some(error);
      case RequestNotEncodable(name) =>
        body, model := [], name;
        return None;
      case Accepted(name, encoded) =>
        body, model := [], name;
        reqHeader := Some(RequestHeaderFor(|encoded|));
        reqBody := BuildCommonResponses(encoded, BODY_BYTE_LIMIT, true);
        return None;
    }

    /** The object and the stream stand where the specification's flush `f` stands, `sent0` having been sent before it. */
    ghost predicate At(f: Flush, srv: ResponseStream, sent0: seq<Response>, budget: nat)
      reads this, srv
    {
      Value() == f.context && srv.sent == sent0 + f.sent && |f.sent| + srv.budget == budget
    }

    method SendRequestHeader(srv: ResponseStream, ghost f: Flush, ghost sent0: seq<Response>, ghost budget: nat) returns (ok: bool)
      requires f.ok && At(f, srv, sent0, budget)
      modifies this, srv
      ensures ok == FlushRequestHeader(f, budget).ok && At(FlushRequestHeader(f, budget), srv, sent0, budget)
    {
      if state == RequestReceived && reqHeader.Some? {
        ok := srv.Send(reqHeader.value);
        if !ok {
          return;
        }
        state := HeaderRequestResponseComplete;
      }
      ok := true;
    }

    method SendRequestBody(srv: ResponseStream, gauge: RunningRequests, ghost f: Flush, ghost sent0: seq<Response>, ghost budget: nat)
      returns (ok: bool)
      requires f.ok && f.counted.None? && At(f, srv, sent0, budget)
      modifies this, srv, gauge
      ensures ok == FlushRequestBody(f, budget).ok && At(FlushRequestBody(f, budget), srv, sent0, budget)
      ensures gauge.readings == Counting(old(gauge.readings), FlushRequestBody(f, budget).counted)
    {
      if state == HeaderRequestResponseComplete && |reqBody| > 0 {
        ok := srv.SendAll(AsRequestBodies(reqBody));
        if !ok {
          return;
        }
        state := BodyRequestResponsesComplete;
        gauge.Inc(model);
        running, reqBody := true, [];
      }
      ok := true;
    }

    method SendResponseHeader(srv: ResponseStream, ghost f: Flush, ghost sent0: seq<Response>, ghost budget: nat) returns (ok: bool)
      requires f.ok && At(f, srv, sent0, budget)
      modifies this, srv
      ensures ok == FlushResponseHeader(f, budget).ok && At(FlushResponseHeader(f, budget), srv, sent0, budget)
    {
      if state == ResponseReceived && respHeader {
        ok := srv.Send(ResponseHeader);
        if !ok {
          return;
        }
        state := HeaderResponseResponseComplete;
      }
      ok := true;
    }

    method SendResponseBody(srv: ResponseStream, ghost f: Flush, ghost sent0: seq<Response>, ghost budget: nat) returns (ok: bool)
      requires f.ok && At(f, srv, sent0, budget)
      modifies this, srv
      ensures ok == FlushResponseBody(f, budget).ok && At(FlushResponseBody(f, budget), srv, sent0, budget)
    {
      if state == HeaderResponseResponseComplete && |respBody| > 0 {
        ok := srv.SendAll(AsResponseBodies(respBody));
        if !ok {
          return;
        }
        if AnyEos(respBody) {
          state := BodyResponseResponsesComplete;
        }
        respBody := [];
      }
      ok := true;
    }

    /** Sends what is pending and may go out, in order; the object ends up as the specification's context. */
    method UpdateStateAndSendIfNeeded(srv: ResponseStream, gauge: RunningRequests) returns (ok: bool)
      modifies this, srv, gauge
      ensures ok == FlushPending(old(Value()), old(srv.budget)).ok
      ensures At(FlushPending(old(Value()), old(srv.budget)), srv, old(srv.sent), old(srv.budget))
      ensures gauge.readings == Counting(old(gauge.readings), FlushPending(old(Value()), old(srv.budget)).counted)
    {
      ghost var budget, sent0 := srv.budget, srv.sent;
      ghost var f0 := Flush(Value(), [], true, None);
      ghost var f1 := FlushRequestHeader(f0, budget);
      ghost var f2 := FlushRequestBody(f1, budget);
      ghost var f3 := FlushResponseHeader(f2, budget);
      assert sent0 + [] == sent0;
      ok := SendRequestHeader(srv, f0, sent0, budget);
      if !ok {
        return;
      }
      ok := SendRequestBody(srv, gauge, f1, sent0, budget);
      if !ok {
        return;
      }
      ok := SendResponseHeader(srv, f2, sent0, budget);
      if !ok {
        return;
      }
      ok := SendResponseBody(srv, f3, sent0, budget);
    }

    /** One pass of the receive loop over this context. */
    method ReceiveOne(m: Message, srv: ResponseStream, gauge: RunningRequests, ghost s: Stream) returns (open: bool)
      requires Follows(s, srv) && s.open
      modifies this, srv, gauge
      ensures open == Receive(s, m).open && Follows(Receive(s, m), srv)
      ensures gauge.readings == Counting(old(gauge.readings), Receive(s, m).counted)
    {
      var failure := HandleMessage(m);
      if failure.Some? {
        if failure.value.status.Some? {
          var _ := srv.Send(Immediate(failure.value.status.value));
        }
        return false;
      }
      open := UpdateStateAndSendIfNeeded(srv, gauge);
    }

    ghost predicate Follows(s: Stream, srv: ResponseStream)
      reads this, srv
    {
      Value() == s.context && srv.sent == s.sent && srv.budget == s.budget
    }
  }

  /** The receive loop, from the first message to the end of input or the first failure, and the deferred function. */
  method ReceiveLoop(messages: seq<Message>, srv: ResponseStream, gauge: RunningRequests)
    requires srv.sent == []
    modifies srv, gauge
    ensures srv.sent == ReceiveAll(NewStream(old(srv.budget)), messages).sent
    ensures gauge.readings == GaugeAfter(old(gauge.readings), NewStream(old(srv.budget)), messages)
  {
    ghost var budget := srv.budget;
    var reqCtx := new RequestContext();
    var i, open := 0, true;
    ghost var s := NewStream(budget);
    while open && i < |messages|
      invariant 0 <= i <= |messages|
      invariant fresh(reqCtx)
      invariant s.open == open && reqCtx.Follows(s, srv)
      invariant ReceiveAll(s, messages[i..]) == ReceiveAll(NewStream(budget), messages)
      invariant GaugeAfter(gauge.readings, s, messages[i..]) == GaugeAfter(old(gauge.readings), NewStream(budget), messages)
      decreases |messages| - i
    {
      assert messages[i..][1..] == messages[i + 1..];
      open := reqCtx.ReceiveOne(messages[i], srv, gauge, s);
      s := Receive(s, messages[i]);
      i := i + 1;
    }
    if !open {
      ClosedStaysClosed(s, messages[i..]);
    }
    if reqCtx.running {
      gauge.Dec(reqCtx.model);
    }
  }

  /** A whole stream: what it sends, in the order of the protocol, and what it does to the gauge of each model. */
  method Process(messages: seq<Message>, srv: ResponseStream, gauge: RunningRequests)
    requires srv.sent == []
    modifies srv, gauge
    ensures srv.sent == ReceiveAll(NewStream(old(srv.budget)), messages).sent
    ensures gauge.readings == GaugeAfter(old(gauge.readings), NewStream(old(srv.budget)), messages)
    ensures forall model :: model != "" ==>
              Reading(gauge.readings, model)
              == Reading(old(gauge.readings), model) + StreamDrift(NewStream(old(srv.budget)), messages, model)
    ensures SteadyStream(NewStream(old(srv.budget)), messages) ==>
              forall model :: model != "" ==> Reading(gauge.readings, model) == Reading(old(gauge.readings), model)
    ensures InGrammar(srv.sent)
  {
    EveryTraceIsInGrammar(messages, srv.budget);
    EveryModelMovesByDrift(gauge.readings, srv.budget, messages);
    ReceiveLoop(messages, srv, gauge);
  }
}
