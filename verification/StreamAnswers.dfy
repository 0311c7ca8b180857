/** What a stream answers to each kind of message: errors, requests, response headers and complete responses. */
module StreamAnswers {
  import opened Sequences
  import opened StreamBodies
  import opened StreamHandler
  import opened Wrappers

  // ---------- Errors ----------

  /** The error a message leads to, by its content alone. */
  function FailureOf(m: Message): Option<Failure> {
    match m
    case RequestHeadersMsg(true, failure) => failure
    case RequestBodyMsg(_, true, RequestNotJson) => Some(Failure(Some(BadRequest)))
    case RequestBodyMsg(_, true, Rejected(_, failure)) => Some(failure)
    case _ => None
  }

  lemma HandlingFailsAs(c: Context, m: Message)
    ensures Handle(c, m).1 == FailureOf(m)
  {
  }

  /**
   An error ends the stream. It is answered by one immediate response with its status if it has one and the send
   succeeds, and by nothing otherwise; what was sent before stays.
   */
  lemma ErrorsAreAnsweredOnce(s: Stream, m: Message)
    requires s.open && FailureOf(m).Some?
    ensures var t, status := Receive(s, m), FailureOf(m).value.status;
      && !t.open && t.counted == None
      && t.sent == s.sent + (if status.Some? && s.budget > 0 then [Immediate(status.value)] else [])
  {
    HandlingFailsAs(s.context, m);
    assert s.sent + [] == s.sent;
  }

  /** Without an error, no immediate response is sent. */
  lemma OnlyErrorsAreImmediate(s: Stream, m: Message, i: nat)
    requires s.open && FailureOf(m).None? && (s.context.reqHeader.Some? ==> s.context.reqHeader.value.RequestHeader?)
    requires i < |Receive(s, m).sent| && Receive(s, m).sent[i].Immediate?
    ensures i < |s.sent|
  {
    HandlingFailsAs(s.context, m);
    HandlingKeepsHeader(s.context, m);
    NoImmediateIsFlushed(Handle(s.context, m).0, s.budget);
  }

  lemma HandlingKeepsHeader(c: Context, m: Message)
    requires c.reqHeader.Some? ==> c.reqHeader.value.RequestHeader?
    ensures var d := Handle(c, m).0; d.reqHeader.Some? ==> d.reqHeader.value.RequestHeader?
  {
  }

  predicate NoImmediate(t: seq<Response>) {
    forall i :: 0 <= i < |t| ==> !t[i].Immediate?
  }

  lemma SendingIsNotImmediate(f: Flush, budget: nat, more: seq<Response>, next: Context, counted: Option<string>)
    requires NoImmediate(f.sent) && NoImmediate(more)
    ensures NoImmediate(Sending(f, budget, more, next, counted).sent)
  {
  }

  lemma StagesAreNotImmediate(f: Flush, budget: nat)
    requires NoImmediate(f.sent) && (f.context.reqHeader.Some? ==> f.context.reqHeader.value.RequestHeader?)
    ensures NoImmediate(FlushRequestHeader(f, budget).sent) && NoImmediate(FlushRequestBody(f, budget).sent)
    ensures NoImmediate(FlushResponseHeader(f, budget).sent) && NoImmediate(FlushResponseBody(f, budget).sent)
    ensures FlushRequestHeader(f, budget).context.reqHeader == f.context.reqHeader
    ensures FlushRequestBody(f, budget).context.reqHeader == f.context.reqHeader
    ensures FlushResponseHeader(f, budget).context.reqHeader == f.context.reqHeader
  {
    var c := f.context;
    if c.reqHeader.Some? {
      SendingIsNotImmediate(f, budget, [c.reqHeader.value], c.(state := HeaderRequestResponseComplete), f.counted);
    }
    SendingIsNotImmediate(f, budget, AsRequestBodies(c.reqBody),
                          c.(state := BodyRequestResponsesComplete, running := true, reqBody := []), Some(c.model));
    SendingIsNotImmediate(f, budget, [ResponseHeader], c.(state := HeaderResponseResponseComplete), f.counted);
    var next := if AnyEos(c.respBody) then BodyResponseResponsesComplete else c.state;
    SendingIsNotImmediate(f, budget, AsResponseBodies(c.respBody), c.(state := next, respBody := []), f.counted);
  }

  lemma NoImmediateIsFlushed(c: Context, budget: nat)
    requires c.reqHeader.Some? ==> c.reqHeader.value.RequestHeader?
    ensures NoImmediate(FlushPending(c, budget).sent)
  {
    var f0 := Flush(c, [], true, None);
    StagesAreNotImmediate(f0, budget);
    var f1 := FlushRequestHeader(f0, budget);
    StagesAreNotImmediate(f1, budget);
    var f2 := FlushRequestBody(f1, budget);
    StagesAreNotImmediate(f2, budget);
    StagesAreNotImmediate(FlushResponseHeader(f2, budget), budget);
  }

  // ---------- Requests ----------

  /** Messages that a stream takes in without an answer: request headers with a body to come, its parts, and trailers. */
  predicate Unanswered(messages: seq<Message>) {
    forall i :: 0 <= i < |messages| ==>
      || (messages[i].RequestHeadersMsg? && !messages[i].eos)
      || (messages[i].RequestBodyMsg? && !messages[i].eos)
      || messages[i].RequestTrailersMsg?
  }

  /** Nothing has been sent and nothing is pending. */
  predicate Untouched(s: Stream, budget: nat) {
    && s.open && s.sent == [] && s.budget == budget
    && s.context.state == RequestReceived && s.context.reqHeader == None && s.context.reqBody == []
  }

  lemma UnansweredStep(s: Stream, m: Message, budget: nat)
    requires Untouched(s, budget) && Unanswered([m])
    ensures Untouched(Receive(s, m), budget)
  {
    assert [m][0] == m;
    var c := Handle(s.context, m).0;
    assert c.state == RequestReceived && c.reqHeader == None && c.reqBody == [];
    assert FlushPending(c, s.budget) == Flush(c, [], true, None);
  }

  lemma {:induction false} UnansweredLeavesUntouched(s: Stream, messages: seq<Message>, budget: nat)
    requires Untouched(s, budget) && Unanswered(messages)
    ensures Untouched(ReceiveAll(s, messages), budget)
    decreases |messages|
  {
    if messages != [] {
      UnansweredStep(s, messages[0], budget);
      UnansweredLeavesUntouched(Receive(s, messages[0]), messages[1..], budget);
    }
  }

  /** The answer to an accepted request: a header with the new length, if any, and the whole encoded body. */
  function Forwarded(encoded: Bytes): seq<Response> {
    [RequestHeader(if |encoded| > 0 then Some(|encoded|) else None)] + AsRequestBodies(Chunks(encoded, 62000, true))
  }

  lemma FlushForwards(c: Context, budget: nat)
    requires c.state == RequestReceived && c.reqHeader.Some? && c.reqBody != []
    ensures var f, all := FlushPending(c, budget), [c.reqHeader.value] + AsRequestBodies(c.reqBody);
      && f.ok == (|all| <= budget)
      && f.sent == all[..if |all| <= budget then |all| else budget]
  {
    var all := [c.reqHeader.value] + AsRequestBodies(c.reqBody);
    var f1 := FlushRequestHeader(Flush(c, [], true, None), budget);
    if budget == 0 {
      assert [c.reqHeader.value][..0] == [] && all[..0] == [];
      assert f1.sent == [] && !f1.ok;
    } else {
      assert f1.sent == [c.reqHeader.value] && f1.ok;
      var f2 := FlushRequestBody(f1, budget);
      var bodies := AsRequestBodies(c.reqBody);
      if |all| <= budget {
        assert f2.sent == all && all[..|all|] == all;
      } else {
        assert f2.sent == [c.reqHeader.value] + bodies[..budget - 1];
        assert all[..budget] == [c.reqHeader.value] + bodies[..budget - 1];
      }
    }
  }

  /**
   An accepted request is forwarded: header and body go out at the end of the request body, all of them if the sends
   succeed and as many as succeed otherwise.
   */
  lemma {:induction false} AcceptedRequestIsForwarded(budget: nat, before: seq<Message>, bytes: Bytes, model: string, encoded: Bytes)
    requires Unanswered(before)
    ensures var t, all := ReceiveAll(NewStream(budget), before + [RequestBodyMsg(bytes, true, Accepted(model, encoded))]), Forwarded(encoded);
      && t.open == (|all| <= budget)
      && t.sent == all[..if |all| <= budget then |all| else budget]
      && (t.open ==> t.context.running && t.context.model == model)
  {
    var m := RequestBodyMsg(bytes, true, Accepted(model, encoded));
    var s := ReceiveAll(NewStream(budget), before);
    UnansweredLeavesUntouched(NewStream(budget), before, budget);
    ReceiveOneMore(NewStream(budget), before, m);
    var c := Handle(s.context, m).0;
    FlushForwards(c, budget);
    var f := FlushPending(c, budget);
    assert [] + f.sent == f.sent;
    if f.ok {
      ForwardingRuns(c, budget);
    }
  }

  lemma ForwardingRuns(c: Context, budget: nat)
    requires c.state == RequestReceived && c.reqHeader.Some? && c.reqBody != [] && FlushPending(c, budget).ok
    ensures FlushPending(c, budget).context.running && FlushPending(c, budget).context.model == c.model
    ensures FlushPending(c, budget).counted == Some(c.model)
  {
    var f1 := FlushRequestHeader(Flush(c, [], true, None), budget);
    assert f1.ok ==> f1.context == c.(state := HeaderRequestResponseComplete);
    var f2 := FlushRequestBody(f1, budget);
    assert FlushPending(c, budget) == f2;
  }

  /** A request that is accepted and cannot be encoded is not answered. */
  lemma {:induction false} UnencodableRequestIsDropped(budget: nat, before: seq<Message>, bytes: Bytes, model: string)
    requires Unanswered(before)
    ensures Untouched(ReceiveAll(NewStream(budget), before + [RequestBodyMsg(bytes, true, RequestNotEncodable(model))]), budget)
  {
    var m := RequestBodyMsg(bytes, true, RequestNotEncodable(model));
    var s := ReceiveAll(NewStream(budget), before);
    UnansweredLeavesUntouched(NewStream(budget), before, budget);
    ReceiveOneMore(NewStream(budget), before, m);
    var c := Handle(s.context, m).0;
    assert FlushPending(c, budget) == Flush(c, [], true, None);
  }

  /** A request without a body is answered with a header that announces no length. */
  lemma {:induction false} BodylessRequestIsAnswered(budget: nat, before: seq<Message>)
    requires Unanswered(before)
    ensures var t := ReceiveAll(NewStream(budget), before + [RequestHeadersMsg(true, None)]);
      t.open == (budget > 0) && t.sent == if budget > 0 then [RequestHeader(None)] else []
  {
    var m := RequestHeadersMsg(true, None);
    var s := ReceiveAll(NewStream(budget), before);
    UnansweredLeavesUntouched(NewStream(budget), before, budget);
    ReceiveOneMore(NewStream(budget), before, m);
    var c := Handle(s.context, m).0;
    var f1 := FlushRequestHeader(Flush(c, [], true, None), budget);
    assert FlushPending(c, budget) == f1;
    assert [RequestHeader(None)][..0] == [];
    assert [] + f1.sent == f1.sent;
  }

  // ---------- Responses ----------

  /** Response headers are answered at once, whatever came before. */
  lemma ResponseHeadersAreAnswered(s: Stream, eventStream: bool)
    requires s.open
    ensures var t := Receive(s, ResponseHeadersMsg(eventStream));
      if s.budget > 0 then s.sent + [ResponseHeader] <= t.sent else t.sent == s.sent && !t.open
  {
    var c := Handle(s.context, ResponseHeadersMsg(eventStream)).0;
    HeadersAreFlushed(c, s.budget);
    var f := FlushPending(c, s.budget);
    if s.budget > 0 {
      assert f.sent == [ResponseHeader] + f.sent[1..];
      ConcatIsAssociative(s.sent, [ResponseHeader], f.sent[1..]);
    } else {
      assert s.sent + [] == s.sent;
    }
  }

  lemma HeadersAreFlushed(c: Context, budget: nat)
    requires c.state == ResponseReceived && c.respHeader
    ensures var f := FlushPending(c, budget); if budget > 0 then [ResponseHeader] <= f.sent else f.sent == [] && !f.ok
  {
    var f0 := Flush(c, [], true, None);
    assert FlushRequestBody(FlushRequestHeader(f0, budget), budget) == f0;
    var f3 := FlushResponseHeader(f0, budget);
    if budget > 0 {
      assert f3.sent == [ResponseHeader];
    } else {
      assert [ResponseHeader][..0] == [];
      assert !f3.ok && f3.sent == [];
    }
  }

  predicate Announced(messages: seq<Message>) {
    exists i :: 0 <= i < |messages| && messages[i] == ResponseHeadersMsg(true)
  }

  lemma FlushKeepsStreaming(c: Context, budget: nat)
    ensures FlushPending(c, budget).context.streaming == c.streaming
  {
    var f1 := FlushRequestHeader(Flush(c, [], true, None), budget);
    assert f1.context.streaming == c.streaming;
    var f2 := FlushRequestBody(f1, budget);
    assert f2.context.streaming == c.streaming;
  }

  lemma HandleStreams(c: Context, m: Message)
    ensures Handle(c, m).0.streaming == (c.streaming || (m.ResponseHeadersMsg? && m.eventStream))
  {
  }

  lemma StreamingStep(s: Stream, m: Message)
    requires s.open
    ensures Receive(s, m).context.streaming == (s.context.streaming || (m.ResponseHeadersMsg? && m.eventStream))
  {
    HandleStreams(s.context, m);
    FlushKeepsStreaming(Handle(s.context, m).0, s.budget);
  }

  /** An open stream passes response bodies through if and only if some response headers have announced an event stream. */
  lemma {:induction false} StreamingIffAnnounced(budget: nat, messages: seq<Message>)
    ensures var t := ReceiveAll(NewStream(budget), messages); t.open ==> t.context.streaming == Announced(messages)
    decreases |messages|
  {
    if messages != [] {
      var before, m := messages[..|messages| - 1], messages[|messages| - 1];
      assert messages == before + [m];
      StreamingIffAnnounced(budget, before);
      ReceiveOneMore(NewStream(budget), before, m);
      var s := ReceiveAll(NewStream(budget), before);
      if s.open {
        StreamingStep(s, m);
      }
      if i :| 0 <= i < |before| && before[i] == ResponseHeadersMsg(true) {
        assert messages[i] == before[i];
      }
      if i :| 0 <= i < |messages| && messages[i] == ResponseHeadersMsg(true) {
        assert i < |before| ==> before[i] == messages[i];
      }
    }
  }

  /** What the answer to a complete, buffered response consists of. */
  lemma ResponseEnd(s: Stream, m: Message)
    requires s.open && Waiting(s.context, true) && m.ResponseBodyMsg? && m.eos
    ensures var t, chunks := Receive(s, m), Handle(s.context, m).0.respBody;
      && s.sent <= t.sent && t.sent[|s.sent|..] <= AsResponseBodies(chunks)
      && (t.open ==> t.sent == s.sent + AsResponseBodies(chunks))
  {
    var c := Handle(s.context, m).0;
    FlushWhileResponding(c, s.budget);
    var f := FlushPending(c, s.budget);
    assert (s.sent + f.sent)[|s.sent|..] == f.sent;
  }

  /**
   In every stream, a complete buffered response that decodes goes out re-encoded, in chunks the last of which ends the
   stream: all of it if the stream stays open, a prefix otherwise.
   */
  lemma {:induction false} JsonResponseIsReencoded(budget: nat, before: seq<Message>, last: Bytes, encoded: Bytes)
    requires AllQuiet(before) && Answered(before)
    ensures var s := ReceiveAll(NewStream(budget), before);
      var t, all := ReceiveAll(NewStream(budget), before + [ResponseBodyMsg(last, true, Reencoded(encoded))]),
                    AsResponseBodies(Chunks(encoded, 62000, true));
      && s.sent <= t.sent && t.sent[|s.sent|..] <= all
      && (t.open ==> t.sent == s.sent + all)
  {
    var m := ResponseBodyMsg(last, true, Reencoded(encoded));
    QuietStreamBuffers(budget, before);
    ReceiveOneMore(NewStream(budget), before, m);
    var s := ReceiveAll(NewStream(budget), before);
    if s.open {
      ResponseEnd(s, m);
    } else {
      assert s.sent[|s.sent|..] == [];
    }
  }

  /** The bytes of that answer: those of the encoding while the stream is open, a prefix of them otherwise. */
  lemma {:induction false} JsonResponseBytes(budget: nat, before: seq<Message>, last: Bytes, encoded: Bytes)
    requires AllQuiet(before) && Answered(before)
    ensures var t := ReceiveAll(NewStream(budget), before + [ResponseBodyMsg(last, true, Reencoded(encoded))]);
      ResponseBytes(t.sent) <= encoded && (t.open ==> ResponseBytes(t.sent) == encoded)
  {
    JsonResponseIsReencoded(budget, before, last, encoded);
    QuietStreamBuffers(budget, before);
    var s := ReceiveAll(NewStream(budget), before);
    var t := ReceiveAll(NewStream(budget), before + [ResponseBodyMsg(last, true, Reencoded(encoded))]);
    var chunks := Chunks(encoded, 62000, true);
    ChunksJoin(encoded, 62000, true);
    AnswerBytes(s.sent, t.sent, chunks);
    if t.open {
      assert t.sent[|s.sent|..] == AsResponseBodies(chunks);
    }
  }

  lemma {:induction false} AnswerBytes(sent: seq<Response>, after: seq<Response>, chunks: seq<Chunk>)
    requires sent <= after && ResponseBytes(sent) == [] && after[|sent|..] <= AsResponseBodies(chunks)
    ensures ResponseBytes(after) <= Joined(chunks)
    ensures after[|sent|..] == AsResponseBodies(chunks) ==> ResponseBytes(after) == Joined(chunks)
  {
    var newly := after[|sent|..];
    ResponseBytesOfChunks(chunks);
    assert after == sent + newly;
    ResponseBytesConcat(sent, newly);
    ResponseBytesOfPrefix(newly, AsResponseBodies(chunks));
    assert [] + ResponseBytes(newly) == ResponseBytes(newly);
  }

  /** A response that decodes and cannot be encoded again is not answered at all. */
  lemma {:induction false} UnencodableResponseIsDropped(budget: nat, before: seq<Message>, last: Bytes)
    requires AllQuiet(before) && Answered(before)
    ensures ReceiveAll(NewStream(budget), before + [ResponseBodyMsg(last, true, ResponseNotEncodable)]).sent
         == ReceiveAll(NewStream(budget), before).sent
  {
    var m := ResponseBodyMsg(last, true, ResponseNotEncodable);
    QuietStreamBuffers(budget, before);
    ReceiveOneMore(NewStream(budget), before, m);
    var s := ReceiveAll(NewStream(budget), before);
    if s.open {
      ResponseEnd(s, m);
      assert AsResponseBodies([]) == [];
      var t := Receive(s, m);
      assert t.sent == s.sent + t.sent[|s.sent|..];
    }
  }
}
