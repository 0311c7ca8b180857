/** What a stream does to the bytes of request and response bodies. */
module StreamBodies {
  import opened Sequences
  import opened StreamHandler
  import opened Wrappers

  // ---------- Bytes in a trace ----------

  function BodyOf(r: Response): Bytes {
    if r.ResponseBody? then r.chunk.body else []
  }

  /** The response-body bytes of a trace, in order. */
  function ResponseBytes(t: seq<Response>): Bytes {
    if t == [] then [] else BodyOf(t[0]) + ResponseBytes(t[1..])
  }

  lemma {:induction false} ResponseBytesConcat(s: seq<Response>, t: seq<Response>)
    ensures ResponseBytes(s + t) == ResponseBytes(s) + ResponseBytes(t)
    decreases |s|
  {
    if s == [] {
      assert s + t == t;
    } else {
      assert (s + t)[1..] == s[1..] + t;
      ResponseBytesConcat(s[1..], t);
      ConcatIsAssociative(BodyOf(s[0]), ResponseBytes(s[1..]), ResponseBytes(t));
    }
  }

  lemma {:induction false} ResponseBytesOfChunks(chunks: seq<Chunk>)
    ensures ResponseBytes(AsResponseBodies(chunks)) == Joined(chunks)
    decreases |chunks|
  {
    if chunks != [] {
      assert AsResponseBodies(chunks)[1..] == AsResponseBodies(chunks[1..]);
      ResponseBytesOfChunks(chunks[1..]);
    }
  }

  // ---------- Request bodies and Content-Length ----------

  /** Between two messages, nothing is left pending for a stream that has sent nothing yet. */
  predicate NothingHeldBack(s: Stream) {
    s.open && s.context.state == RequestReceived ==> s.context.reqHeader.None? && s.context.reqBody == []
  }

  lemma HandleHoldsNothingBack(c: Context, m: Message)
    requires c.state == RequestReceived ==> c.reqHeader.None? && c.reqBody == []
    ensures var d := Handle(c, m).0; d.state == RequestReceived && d.reqHeader.None? ==> d.reqBody == []
  {
  }

  lemma FlushHoldsNothingBack(c: Context, budget: nat)
    requires c.state == RequestReceived && c.reqHeader.None? ==> c.reqBody == []
    ensures var f := FlushPending(c, budget);
      f.ok && f.context.state == RequestReceived ==> f.context.reqHeader.None? && f.context.reqBody == []
  {
  }

  lemma ReceiveHoldsNothingBack(s: Stream, m: Message)
    requires NothingHeldBack(s)
    ensures NothingHeldBack(Receive(s, m))
  {
    if s.open {
      HandleHoldsNothingBack(s.context, m);
      FlushHoldsNothingBack(Handle(s.context, m).0, s.budget);
    }
  }

  lemma {:induction false} NothingIsEverHeldBack(s: Stream, messages: seq<Message>)
    requires NothingHeldBack(s)
    ensures NothingHeldBack(ReceiveAll(s, messages))
    decreases |messages|
  {
    if messages != [] {
      ReceiveHoldsNothingBack(s, messages[0]);
      NothingIsEverHeldBack(Receive(s, messages[0]), messages[1..]);
    }
  }

  /** What one more message made the stream send. */
  function Newly(s: Stream, m: Message): seq<Response> {
    var t := Receive(s, m).sent;
    if |s.sent| <= |t| then t[|s.sent|..] else []
  }

  /**
   Whenever one pass of any stream sends the request header and, completely, the request body, the header announces the
   length of the chunks that follow it, and those chunks join up to the encoded body.
   */
  lemma ContentLengthMatchesBody(budget: nat, messages: seq<Message>, m: Message)
    requires var s := ReceiveAll(NewStream(budget), messages);
      && Receive(s, m).open
      && |Newly(s, m)| >= 2 && Newly(s, m)[0].RequestHeader? && Newly(s, m)[1].RequestBody?
    ensures m.RequestBodyMsg? && m.eos && m.request.Accepted?
    ensures var chunks := Chunks(m.request.encoded, BODY_BYTE_LIMIT, true);
      && Newly(ReceiveAll(NewStream(budget), messages), m)
         == [RequestHeader(if TotalLength(chunks) > 0 then Some(TotalLength(chunks)) else None)] + AsRequestBodies(chunks)
      && Joined(chunks) == m.request.encoded
  {
    var s := ReceiveAll(NewStream(budget), messages);
    NothingIsEverHeldBack(NewStream(budget), messages);
    if m.RequestBodyMsg? && m.request.Accepted? {
      ChunksJoin(m.request.encoded, BODY_BYTE_LIMIT, true);
    }
    PassSendsHeaderAndBody(s, m);
  }

  /** A flush that starts with a request header and a request body sends just the pending two. */
  lemma FlushSendsHeaderAndBody(c: Context, budget: nat)
    requires var f := FlushPending(c, budget); f.ok && |f.sent| >= 2 && f.sent[0].RequestHeader? && f.sent[1].RequestBody?
    ensures c.state == RequestReceived && c.reqHeader.Some? && c.reqBody != []
    ensures FlushPending(c, budget).sent == [c.reqHeader.value] + AsRequestBodies(c.reqBody)
  {
    var f1 := FlushRequestHeader(Flush(c, [], true, None), budget);
    var f2 := FlushRequestBody(f1, budget);
    if c.state == RequestReceived || c.state == HeaderRequestResponseComplete {
      assert FlushPending(c, budget) == f2;
    }
  }

  lemma PassSendsHeaderAndBody(s: Stream, m: Message)
    requires NothingHeldBack(s) && Receive(s, m).open
    requires |Newly(s, m)| >= 2 && Newly(s, m)[0].RequestHeader? && Newly(s, m)[1].RequestBody?
    ensures m.RequestBodyMsg? && m.eos && m.request.Accepted?
    ensures Newly(s, m) == [RequestHeaderFor(|m.request.encoded|)]
                         + AsRequestBodies(Chunks(m.request.encoded, BODY_BYTE_LIMIT, true))
  {
    var c := Handle(s.context, m).0;
    assert Newly(s, m) == FlushPending(c, s.budget).sent;
    FlushSendsHeaderAndBody(c, s.budget);
  }

  // ---------- Streams that end early ----------

  lemma {:induction false} ClosedStaysClosed(s: Stream, messages: seq<Message>)
    requires !s.open
    ensures !ReceiveAll(s, messages).open && ReceiveAll(s, messages).sent == s.sent
    decreases |messages|
  {
    if messages != [] {
      ClosedStaysClosed(Receive(s, messages[0]), messages[1..]);
    }
  }

  lemma {:induction false} ReceiveAllConcat(s: Stream, a: seq<Message>, b: seq<Message>)
    ensures ReceiveAll(s, a + b) == ReceiveAll(ReceiveAll(s, a), b)
    decreases |a|
  {
    if a == [] {
      assert a + b == b;
    } else {
      assert (a + b)[1..] == a[1..] + b;
      ReceiveAllConcat(Receive(s, a[0]), a[1..], b);
    }
  }

  lemma ReceiveOneMore(s: Stream, messages: seq<Message>, m: Message)
    ensures ReceiveAll(s, messages + [m]) == Receive(ReceiveAll(s, messages), m)
  {
    ReceiveAllConcat(s, messages, [m]);
    assert [m][1..] == [];
  }

  /** A message that ends the stream with an error sends no body. */
  lemma FailureSendsNoBody(s: Stream, m: Message)
    requires s.open && Handle(s.context, m).1.Some?
    ensures !Receive(s, m).open && ResponseBytes(Receive(s, m).sent) == ResponseBytes(s.sent)
  {
    var failure := Handle(s.context, m).1.value;
    if failure.status.Some? {
      var r := Immediate(failure.status.value);
      ResponseBytesConcat(s.sent, [r]);
      assert [r][1..] == [] && ResponseBytes([r]) == BodyOf(r) + ResponseBytes([]);
    }
  }

  lemma ResponseBytesOfPrefix(t: seq<Response>, u: seq<Response>)
    requires t <= u
    ensures ResponseBytes(t) <= ResponseBytes(u)
  {
    assert u == t + u[|t|..];
    ResponseBytesConcat(t, u[|t|..]);
  }

  /** With the response headers answered, a pass sends the pending response body, or as much of it as the stream takes. */
  lemma FlushWhileResponding(c: Context, budget: nat)
    requires c.state == HeaderResponseResponseComplete
    ensures var f := FlushPending(c, budget);
      && f.sent <= AsResponseBodies(c.respBody)
      && (f.ok ==>
           && f.sent == AsResponseBodies(c.respBody)
           && f.context == c.(respBody := [], state := if AnyEos(c.respBody) then BodyResponseResponsesComplete else c.state))
  {
    var start := Flush(c, [], true, None);
    assert FlushResponseHeader(FlushRequestBody(FlushRequestHeader(start, budget), budget), budget) == start;
    var more := AsResponseBodies(c.respBody);
    assert start.sent + more == more;
  }

  /** The bytes a pass adds while the response is being answered. */
  lemma RespondingStep(s: Stream, m: Message)
    requires s.open && Handle(s.context, m).0.state == HeaderResponseResponseComplete && Handle(s.context, m).1.None?
    ensures var c, t := Handle(s.context, m).0, Receive(s, m);
      && ResponseBytes(t.sent) <= ResponseBytes(s.sent) + Joined(c.respBody)
      && (t.open ==>
           && ResponseBytes(t.sent) == ResponseBytes(s.sent) + Joined(c.respBody)
           && t.context == c.(respBody := [], state := if AnyEos(c.respBody) then BodyResponseResponsesComplete else c.state))
  {
    var c := Handle(s.context, m).0;
    FlushWhileResponding(c, s.budget);
    var f := FlushPending(c, s.budget);
    ResponseBytesOfChunks(c.respBody);
    ResponseBytesOfPrefix(f.sent, AsResponseBodies(c.respBody));
    ResponseBytesConcat(s.sent, f.sent);
  }

  // ---------- Streaming responses ----------

  /** The response-body bytes received, up to and including the first message that ends the stream. */
  function ReceivedUntilEos(messages: seq<Message>): Bytes {
    if messages == [] then []
    else if !messages[0].ResponseBodyMsg? then ReceivedUntilEos(messages[1..])
    else if messages[0].eos then messages[0].bytes
    else messages[0].bytes + ReceivedUntilEos(messages[1..])
  }

  predicate NoResponseHeaders(messages: seq<Message>) {
    forall m :: m in messages ==> !m.ResponseHeadersMsg?
  }

  /** A streaming response whose headers have been answered, with nothing pending. */
  predicate Relaying(s: Stream) {
    s.open && s.context.streaming && s.context.state == HeaderResponseResponseComplete && s.context.respBody == []
  }

  /** The response has been ended; bodies that still arrive stay pending. */
  predicate Ended(s: Stream) {
    s.open && s.context.state == BodyResponseResponsesComplete
  }

  lemma EndedFlushIsEmpty(c: Context, budget: nat)
    requires c.state == BodyResponseResponsesComplete
    ensures FlushPending(c, budget) == Flush(c, [], true, None)
  {
  }

  lemma EndedSendsNoBody(s: Stream, m: Message)
    requires Ended(s) && !m.ResponseHeadersMsg?
    ensures ResponseBytes(Receive(s, m).sent) == ResponseBytes(s.sent)
    ensures Receive(s, m).open ==> Ended(Receive(s, m))
  {
    if Handle(s.context, m).1.Some? {
      FailureSendsNoBody(s, m);
    } else {
      EndedFlushIsEmpty(Handle(s.context, m).0, s.budget);
      assert s.sent + [] == s.sent;
    }
  }

  lemma {:induction false} EndedStaysSilent(s: Stream, messages: seq<Message>)
    requires Ended(s) && NoResponseHeaders(messages)
    ensures ResponseBytes(ReceiveAll(s, messages).sent) == ResponseBytes(s.sent)
    decreases |messages|
  {
    if messages != [] {
      assert messages[0] in messages;
      EndedSendsNoBody(s, messages[0]);
      if Receive(s, messages[0]).open {
        EndedStaysSilent(Receive(s, messages[0]), messages[1..]);
      } else {
        ClosedStaysClosed(Receive(s, messages[0]), messages[1..]);
      }
    }
  }

  lemma AnyEosIffLast(chunks: seq<Chunk>)
    requires EosOnlyLast(chunks)
    ensures AnyEos(chunks) <==> chunks != [] && chunks[|chunks| - 1].eos
  {
  }

  lemma RelayHandle(c: Context, m: Message)
    requires c.streaming && c.state == HeaderResponseResponseComplete && c.respBody == [] && !m.ResponseHeadersMsg?
    ensures var d := Handle(c, m).0;
      && d.streaming && d.state == c.state
      && d.respBody == if m.ResponseBodyMsg? then Chunks(m.bytes, BODY_BYTE_LIMIT, m.eos) else []
  {
  }

  lemma RelayedChunks(m: Message, chunks: seq<Chunk>)
    requires chunks == if m.ResponseBodyMsg? then Chunks(m.bytes, BODY_BYTE_LIMIT, m.eos) else []
    ensures Joined(chunks) == if m.ResponseBodyMsg? then m.bytes else []
    ensures AnyEos(chunks) <==> m.ResponseBodyMsg? && m.eos
  {
    if m.ResponseBodyMsg? {
      ChunksJoin(m.bytes, BODY_BYTE_LIMIT, m.eos);
      ChunksShape(m.bytes, BODY_BYTE_LIMIT, m.eos);
      AnyEosIffLast(chunks);
    }
  }

  lemma RelayStep(s: Stream, m: Message)
    requires Relaying(s) && !m.ResponseHeadersMsg?
    ensures var t, now := Receive(s, m), ResponseBytes(s.sent) + if m.ResponseBodyMsg? then m.bytes else [];
      && ResponseBytes(t.sent) <= now
      && (t.open ==> ResponseBytes(t.sent) == now && if m.ResponseBodyMsg? && m.eos then Ended(t) else Relaying(t))
  {
    if Handle(s.context, m).1.Some? {
      FailureSendsNoBody(s, m);
    } else {
      RelayHandle(s.context, m);
      RelayedChunks(m, Handle(s.context, m).0.respBody);
      RespondingStep(s, m);
    }
  }

  /** Bytes already relayed, those of one message, and those of the rest. */
  lemma ReceivedBytesJoin(relayed: Bytes, messages: seq<Message>)
    requires messages != []
    ensures var now := relayed + if messages[0].ResponseBodyMsg? then messages[0].bytes else [];
      relayed + ReceivedUntilEos(messages)
      == if messages[0].ResponseBodyMsg? && messages[0].eos then now else now + ReceivedUntilEos(messages[1..])
  {
    if messages[0].ResponseBodyMsg? {
      ConcatIsAssociative(relayed, messages[0].bytes, ReceivedUntilEos(messages[1..]));
    } else {
      assert relayed + [] == relayed;
    }
  }

  /** What a relaying stream sends is a prefix of what it receives until the end of stream, and all of it if it stays open. */
  lemma {:induction false} RelayIsFaithful(s: Stream, messages: seq<Message>)
    requires Relaying(s) && NoResponseHeaders(messages)
    ensures var t, all := ReceiveAll(s, messages), ResponseBytes(s.sent) + ReceivedUntilEos(messages);
      ResponseBytes(t.sent) <= all && (t.open ==> ResponseBytes(t.sent) == all)
    decreases |messages|
  {
    if messages == [] {
      assert ResponseBytes(s.sent) + [] == ResponseBytes(s.sent);
    } else {
      var m := messages[0];
      assert m in messages;
      RelayStep(s, m);
      ReceivedBytesJoin(ResponseBytes(s.sent), messages);
      var t, rest := Receive(s, m), messages[1..];
      if !t.open {
        ClosedStaysClosed(t, rest);
      } else if m.ResponseBodyMsg? && m.eos {
        EndedStaysSilent(t, rest);
      } else {
        RelayIsFaithful(t, rest);
      }
    }
  }

  // ---------- Before a response body is complete ----------

  /** A message after which no response body is ready to be sent: a whole or streaming response body makes one ready. */
  predicate Quiet(m: Message) {
    !(m.ResponseHeadersMsg? && m.eventStream) && !(m.ResponseBodyMsg? && m.eos)
  }

  predicate AllQuiet(messages: seq<Message>) {
    forall i :: 0 <= i < |messages| ==> Quiet(messages[i])
  }

  predicate Answered(messages: seq<Message>) {
    exists i :: 0 <= i < |messages| && messages[i].ResponseHeadersMsg?
  }

  /** The bytes in the buffer that both directions share: those since the last end of a request body. */
  function Buffered(messages: seq<Message>): Bytes {
    if messages == [] then [] else
      var m, before := messages[|messages| - 1], Buffered(messages[..|messages| - 1]);
      match m
      case RequestBodyMsg(bytes, eos, _) => if eos then [] else before + bytes
      case ResponseBodyMsg(bytes, _, _) => before + bytes
      case _ => before
  }

  /** No response body is pending, and the response headers are answered if `answered`. */
  predicate Waiting(c: Context, answered: bool) {
    && c.respBody == [] && !c.streaming && (c.reqHeader.Some? ==> c.reqHeader.value.RequestHeader?)
    && (if answered then c.state == HeaderResponseResponseComplete
        else c.state == RequestReceived || c.state == HeaderRequestResponseComplete || c.state == BodyRequestResponsesComplete)
  }

  predicate NoBodies(t: seq<Response>) {
    forall r :: r in t ==> !r.ResponseBody?
  }

  lemma {:induction false} NoBodiesNoBytes(t: seq<Response>)
    requires NoBodies(t)
    ensures ResponseBytes(t) == []
    decreases |t|
  {
    if t != [] {
      assert t[0] in t;
      NoBodiesNoBytes(t[1..]);
    }
  }

  /** A flush while a request is being answered. */
  lemma RequestFlush(c: Context, budget: nat)
    requires Waiting(c, false)
    ensures var f := FlushPending(c, budget); Waiting(f.context, false) && f.context.body == c.body && NoBodies(f.sent)
  {
    var f1 := FlushRequestHeader(Flush(c, [], true, None), budget);
    assert Waiting(f1.context, false) && NoBodies(f1.sent) && f1.context.body == c.body;
    var f2 := FlushRequestBody(f1, budget);
    assert Waiting(f2.context, false) && NoBodies(f2.sent) && f2.context.body == c.body;
    assert FlushPending(c, budget) == f2;
  }

  /** A flush after response headers have arrived. */
  lemma HeaderFlush(c: Context, budget: nat)
    requires c.state == ResponseReceived && c.respHeader && c.respBody == []
    ensures var f := FlushPending(c, budget);
      && NoBodies(f.sent)
      && (f.ok ==> f.context == c.(state := HeaderResponseResponseComplete))
  {
    var f0 := Flush(c, [], true, None);
    assert FlushRequestBody(FlushRequestHeader(f0, budget), budget) == f0;
  }

  lemma QuietHandle(c: Context, answered: bool, m: Message)
    requires Waiting(c, answered) && Quiet(m)
    ensures var (d, failure) := Handle(c, m);
      && (if m.ResponseHeadersMsg? then d == c.(state := ResponseReceived, respHeader := true)
          else Waiting(d, answered))
      && (failure.None? ==> d.body == match m
                                       case RequestBodyMsg(bytes, eos, _) => if eos then [] else c.body + bytes
                                       case ResponseBodyMsg(bytes, _, _) => c.body + bytes
                                       case _ => c.body)
  {
  }

  /** One quiet message sends no response body; the buffer and the state follow. */
  lemma QuietStep(s: Stream, answered: bool, m: Message)
    requires s.open && Waiting(s.context, answered) && Quiet(m)
    ensures var t := Receive(s, m);
      && ResponseBytes(t.sent) == ResponseBytes(s.sent)
      && (t.open ==>
           && Waiting(t.context, answered || m.ResponseHeadersMsg?)
           && t.context.body == Handle(s.context, m).0.body && Handle(s.context, m).1.None?)
  {
    QuietHandle(s.context, answered, m);
    var (c, failure) := Handle(s.context, m);
    if failure.Some? {
      FailureSendsNoBody(s, m);
    } else if c.state == HeaderResponseResponseComplete {
      RespondingStep(s, m);
      assert ResponseBytes(s.sent) + [] == ResponseBytes(s.sent);
      assert !AnyEos(c.respBody) && NoBodies(FlushPending(c, s.budget).sent) by {
        FlushWhileResponding(c, s.budget);
      }
      PassSendsNoBody(s, m);
    } else {
      if m.ResponseHeadersMsg? {
        HeaderFlush(c, s.budget);
      } else {
        RequestFlush(c, s.budget);
      }
      PassSendsNoBody(s, m);
    }
  }

  lemma PassSendsNoBody(s: Stream, m: Message)
    requires s.open && Handle(s.context, m).1.None?
    requires NoBodies(FlushPending(Handle(s.context, m).0, s.budget).sent)
    ensures ResponseBytes(Receive(s, m).sent) == ResponseBytes(s.sent)
  {
    var f := FlushPending(Handle(s.context, m).0, s.budget);
    NoBodiesNoBytes(f.sent);
    ResponseBytesConcat(s.sent, f.sent);
  }

  /**
   Until a response body is complete, every stream sends none of it; while the stream is open its buffer holds the bytes
   received since the last end of a request body.
   */
  lemma {:induction false} QuietStreamBuffers(budget: nat, messages: seq<Message>)
    requires AllQuiet(messages)
    ensures var t := ReceiveAll(NewStream(budget), messages);
      && ResponseBytes(t.sent) == []
      && (t.open ==> Waiting(t.context, Answered(messages)) && t.context.body == Buffered(messages))
    decreases |messages|
  {
    if messages != [] {
      var before, m := messages[..|messages| - 1], messages[|messages| - 1];
      assert messages == before + [m];
      QuietStreamBuffers(budget, before);
      var s := ReceiveAll(NewStream(budget), before);
      ReceiveOneMore(NewStream(budget), before, m);
      AnsweredSoFar(messages);
      if s.open {
        QuietStep(s, Answered(before), m);
        QuietHandle(s.context, Answered(before), m);
      }
    }
  }

  lemma AnsweredSoFar(messages: seq<Message>)
    requires messages != []
    ensures Answered(messages) <==> Answered(messages[..|messages| - 1]) || messages[|messages| - 1].ResponseHeadersMsg?
  {
    var before := messages[..|messages| - 1];
    if i :| 0 <= i < |before| && before[i].ResponseHeadersMsg? {
      assert messages[i].ResponseHeadersMsg?;
    }
    if i :| 0 <= i < |messages| && messages[i].ResponseHeadersMsg? {
      assert i < |before| ==> before[i] == messages[i];
    }
  }

  predicate RequestOnly(messages: seq<Message>) {
    forall i :: 0 <= i < |messages| ==> !messages[i].ResponseHeadersMsg? && !messages[i].ResponseBodyMsg?
  }

  lemma StreamingHeadersStep(s: Stream)
    requires s.open && Waiting(s.context, false)
    ensures var t := Receive(s, ResponseHeadersMsg(true));
      ResponseBytes(t.sent) == ResponseBytes(s.sent) && (t.open ==> Relaying(t))
  {
    var m := ResponseHeadersMsg(true);
    HeaderFlush(Handle(s.context, m).0, s.budget);
    PassSendsNoBody(s, m);
  }

  /**
   In every stream with one response header message, a streaming response passes through unchanged: the chunks sent join
   up to the bytes received until the first end of stream, or to a prefix of them if the stream ended early, whatever
   request messages come before or in between.
   */
  lemma StreamingResponsePassesThrough(budget: nat, before: seq<Message>, after: seq<Message>)
    requires RequestOnly(before) && NoResponseHeaders(after)
    ensures var t := ReceiveAll(NewStream(budget), before + [ResponseHeadersMsg(true)] + after);
      && ResponseBytes(t.sent) <= ReceivedUntilEos(after)
      && (t.open ==> ResponseBytes(t.sent) == ReceivedUntilEos(after))
  {
    var s, m := ReceiveAll(NewStream(budget), before), ResponseHeadersMsg(true);
    QuietStreamBuffers(budget, before);
    ReceiveOneMore(NewStream(budget), before, m);
    ReceiveAllConcat(NewStream(budget), before + [m], after);
    if s.open {
      StreamingHeadersStep(s);
      if Receive(s, m).open {
        RelayIsFaithful(Receive(s, m), after);
        assert [] + ReceivedUntilEos(after) == ReceivedUntilEos(after);
      } else {
        ClosedStaysClosed(Receive(s, m), after);
      }
    } else {
      ClosedStaysClosed(s, [m]);
      ClosedStaysClosed(Receive(s, m), after);
    }
  }

  // ---------- Buffered responses ----------

  /** The response-body bytes received. */
  function ResponseReceivedBytes(messages: seq<Message>): Bytes {
    if messages == [] then [] else
      var m, before := messages[|messages| - 1], ResponseReceivedBytes(messages[..|messages| - 1]);
      if m.ResponseBodyMsg? then before + m.bytes else before
  }

  function LastPart(last: Bytes): Message {
    ResponseBodyMsg(last, true, ResponseNotJson)
  }

  lemma UnparseableEnd(s: Stream, last: Bytes)
    requires s.open && Waiting(s.context, true)
    ensures var t, all := Receive(s, LastPart(last)), ResponseBytes(s.sent) + (s.context.body + last);
      ResponseBytes(t.sent) <= all && (t.open ==> ResponseBytes(t.sent) == all)
  {
    var body := s.context.body + last;
    ChunksJoin(body, BODY_BYTE_LIMIT, true);
    assert Handle(s.context, LastPart(last)).0.respBody == Chunks(body, BODY_BYTE_LIMIT, true);
    RespondingStep(s, LastPart(last));
  }

  /**
   In every stream, a buffered response that cannot be parsed goes out as what the shared buffer holds: all of it if the
   stream stays open, a prefix of it otherwise.
   */
  lemma UnparseableResponseBytes(budget: nat, before: seq<Message>, last: Bytes)
    requires AllQuiet(before) && Answered(before)
    ensures var t := ReceiveAll(NewStream(budget), before + [LastPart(last)]);
      && ResponseBytes(t.sent) <= Buffered(before) + last
      && (t.open ==> ResponseBytes(t.sent) == Buffered(before) + last)
  {
    QuietStreamBuffers(budget, before);
    ReceiveOneMore(NewStream(budget), before, LastPart(last));
    var s := ReceiveAll(NewStream(budget), before);
    if s.open {
      UnparseableEnd(s, last);
      assert [] + (Buffered(before) + last) == Buffered(before) + last;
    }
  }

  /**
   It is re-emitted byte for byte if and only if the shared buffer held just the response, that is if no request bytes
   came in between or were left over, and no request body ended after the response began.
   */
  lemma UnparseableResponseIsReemitted(budget: nat, before: seq<Message>, last: Bytes)
    requires AllQuiet(before) && Answered(before)
    requires ReceiveAll(NewStream(budget), before + [LastPart(last)]).open
    ensures ResponseBytes(ReceiveAll(NewStream(budget), before + [LastPart(last)]).sent) == ResponseReceivedBytes(before) + last
            <==> Buffered(before) == ResponseReceivedBytes(before)
  {
    UnparseableResponseBytes(budget, before, last);
    SameFrontIff(Buffered(before), ResponseReceivedBytes(before), last);
  }

  lemma SameFrontIff(a: Bytes, b: Bytes, c: Bytes)
    ensures a + c == b + c <==> a == b
  {
    if a + c == b + c {
      assert |a| == |b|;
      assert a == (a + c)[..|a|] && b == (b + c)[..|b|];
    }
  }

  /** Parts of a response body, none of them the last. */
  predicate BodyParts(messages: seq<Message>) {
    forall i :: 0 <= i < |messages| ==> messages[i].ResponseBodyMsg? && !messages[i].eos
  }

  lemma {:induction false} PartsAreBuffered(before: seq<Message>, parts: seq<Message>)
    requires RequestOnly(before) && BodyParts(parts)
    ensures var all := before + [ResponseHeadersMsg(false)] + parts;
      && AllQuiet(all) && Answered(all)
      && Buffered(all) == Buffered(before) + ResponseReceivedBytes(parts)
      && ResponseReceivedBytes(all) == ResponseReceivedBytes(parts)
    decreases |parts|
  {
    var headers := before + [ResponseHeadersMsg(false)];
    var all := headers + parts;
    assert all[|before|].ResponseHeadersMsg?;
    if parts == [] {
      assert all == headers && headers[..|headers| - 1] == before;
      assert Buffered(before) + [] == Buffered(before);
      RequestHasNoResponseBytes(before);
    } else {
      var front, m := parts[..|parts| - 1], parts[|parts| - 1];
      assert all[..|all| - 1] == headers + front && all[|all| - 1] == m;
      PartsAreBuffered(before, front);
      ConcatIsAssociative(Buffered(before), ResponseReceivedBytes(front), m.bytes);
    }
  }

  lemma {:induction false} RequestHasNoResponseBytes(before: seq<Message>)
    requires RequestOnly(before)
    ensures ResponseReceivedBytes(before) == []
    decreases |before|
  {
    if before != [] {
      RequestHasNoResponseBytes(before[..|before| - 1]);
    }
  }

  /**
   A request, response headers and the parts of an unparseable response: the response passes unchanged if and only if no
   bytes were left over from the request, that is none came after the last end of its body.
   */
  lemma UnparseableResponsePassesThrough(budget: nat, before: seq<Message>, parts: seq<Message>, last: Bytes)
    requires RequestOnly(before) && BodyParts(parts)
    requires ReceiveAll(NewStream(budget), before + [ResponseHeadersMsg(false)] + parts + [LastPart(last)]).open
    ensures ResponseBytes(ReceiveAll(NewStream(budget), before + [ResponseHeadersMsg(false)] + parts + [LastPart(last)]).sent)
            == ResponseReceivedBytes(parts) + last
            <==> Buffered(before) == []
  {
    PartsAreBuffered(before, parts);
    UnparseableResponseIsReemitted(budget, before + [ResponseHeadersMsg(false)] + parts, last);
    SameFrontIff(Buffered(before), [], ResponseReceivedBytes(parts));
    assert [] + ResponseReceivedBytes(parts) == ResponseReceivedBytes(parts);
  }

  /** The last request-body message, if any, ended the request body. */
  predicate RequestFinished(messages: seq<Message>) {
    messages == [] ||
    var m := messages[|messages| - 1];
    if m.RequestBodyMsg? then m.eos else RequestFinished(messages[..|messages| - 1])
  }

  lemma {:induction false} FinishedRequestLeavesNoBytes(messages: seq<Message>)
    requires RequestOnly(messages) && RequestFinished(messages)
    ensures Buffered(messages) == []
    decreases |messages|
  {
    if messages != [] && !messages[|messages| - 1].RequestBodyMsg? {
      FinishedRequestLeavesNoBytes(messages[..|messages| - 1]);
    }
  }

  /** A stream whose response starts while a byte of the request is buffered: the byte goes out in front of the response. */
  lemma LeftoverLeaksIntoTheResponse(a: bv8, b: bv8, request: RequestOutcome)
    ensures var t := ReceiveAll(NewStream(10), [RequestBodyMsg([a], false, request), ResponseHeadersMsg(false), LastPart([b])]);
      t.open && ResponseBytes(t.sent) == [a, b]
  {
    var before := [RequestBodyMsg([a], false, request), ResponseHeadersMsg(false)];
    assert before + [LastPart([b])] == [RequestBodyMsg([a], false, request), ResponseHeadersMsg(false), LastPart([b])];
    assert before[..1] == [RequestBodyMsg([a], false, request)] && before[..1][..0] == [];
    assert before[1].ResponseHeadersMsg?;
    assert Buffered(before[..1]) == [a];
    UnparseableResponseBytes(10, before, [b]);
    LeakIsOpen(a, b, request);
  }

  lemma LeakIsOpen(a: bv8, b: bv8, request: RequestOutcome)
    ensures ReceiveAll(NewStream(10), [RequestBodyMsg([a], false, request), ResponseHeadersMsg(false), LastPart([b])]).open
  {
    var all := [RequestBodyMsg([a], false, request), ResponseHeadersMsg(false), LastPart([b])];
    var s0 := NewStream(10);
    var s1 := Receive(s0, all[0]);
    assert s1.open && s1.budget == 10 && s1.context == s0.context.(body := [a]);
    var s2 := Receive(s1, all[1]);
    assert s2.open && s2.budget == 9 && s2.context.state == HeaderResponseResponseComplete && s2.context.body == [a];
    assert Handle(s2.context, all[2]).0.respBody == [Chunk([a] + [b], true)];
    var s3 := Receive(s2, all[2]);
    assert s3.open;
    assert all[1..][0] == all[1] && all[1..][1..] == all[2..] && all[2..][0] == all[2] && all[2..][1..] == [];
    assert ReceiveAll(s2, all[2..]) == ReceiveAll(s3, []) == s3;
    assert ReceiveAll(s1, all[1..]) == ReceiveAll(s2, all[2..]);
    assert ReceiveAll(s0, all) == ReceiveAll(s1, all[1..]);
  }

  // ---------- The size of what is sent ----------

  predicate Small(chunks: seq<Chunk>) {
    forall i :: 0 <= i < |chunks| ==> |chunks[i].body| <= 62000
  }

  predicate SmallResponse(r: Response) {
    r.RequestBody? || r.ResponseBody? ==> |r.chunk.body| <= 62000
  }

  predicate AllSmall(t: seq<Response>) {
    forall i :: 0 <= i < |t| ==> SmallResponse(t[i])
  }

  /** What is pending is small. */
  predicate PendingSmall(c: Context) {
    Small(c.reqBody) && Small(c.respBody) && (c.reqHeader.Some? ==> SmallResponse(c.reqHeader.value))
  }

  lemma ChunksAreSmall(bytes: Bytes, setEos: bool)
    ensures Small(Chunks(bytes, BODY_BYTE_LIMIT, setEos))
  {
    ChunksShape(bytes, BODY_BYTE_LIMIT, setEos);
  }

  lemma HandleKeepsPendingSmall(c: Context, m: Message)
    requires PendingSmall(c)
    ensures PendingSmall(Handle(c, m).0)
  {
    match m
    case RequestBodyMsg(_, _, outcome) =>
      if outcome.Accepted? {
        ChunksAreSmall(outcome.encoded, true);
      }
    case ResponseBodyMsg(bytes, eos, outcome) =>
      ChunksAreSmall(bytes, eos);
      ChunksAreSmall(c.body + bytes, true);
      if outcome.Reencoded? {
        ChunksAreSmall(outcome.encoded, true);
      }
    case _ =>
  }

  lemma SendingKeepsSmall(f: Flush, budget: nat, more: seq<Response>, next: Context, counted: Option<string>)
    requires PendingSmall(f.context) && AllSmall(f.sent) && AllSmall(more) && PendingSmall(next)
    ensures var g := Sending(f, budget, more, next, counted); PendingSmall(g.context) && AllSmall(g.sent)
  {
  }

  lemma RequestStagesKeepSmall(f: Flush, budget: nat)
    requires PendingSmall(f.context) && AllSmall(f.sent)
    ensures var g := FlushRequestHeader(f, budget); PendingSmall(g.context) && AllSmall(g.sent)
    ensures var g := FlushRequestBody(f, budget); PendingSmall(g.context) && AllSmall(g.sent)
  {
    var c := f.context;
    if c.reqHeader.Some? {
      SendingKeepsSmall(f, budget, [c.reqHeader.value], c.(state := HeaderRequestResponseComplete), f.counted);
    }
    SendingKeepsSmall(f, budget, AsRequestBodies(c.reqBody),
                      c.(state := BodyRequestResponsesComplete, running := true, reqBody := []), Some(c.model));
  }

  lemma ResponseStagesKeepSmall(f: Flush, budget: nat)
    requires PendingSmall(f.context) && AllSmall(f.sent)
    ensures var g := FlushResponseHeader(f, budget); PendingSmall(g.context) && AllSmall(g.sent)
    ensures var g := FlushResponseBody(f, budget); PendingSmall(g.context) && AllSmall(g.sent)
  {
    var c := f.context;
    SendingKeepsSmall(f, budget, [ResponseHeader], c.(state := HeaderResponseResponseComplete), f.counted);
    var next := if AnyEos(c.respBody) then BodyResponseResponsesComplete else c.state;
    SendingKeepsSmall(f, budget, AsResponseBodies(c.respBody), c.(state := next, respBody := []), f.counted);
  }

  lemma FlushKeepsSmall(c: Context, budget: nat)
    requires PendingSmall(c)
    ensures var f := FlushPending(c, budget); PendingSmall(f.context) && AllSmall(f.sent)
  {
    var f0 := Flush(c, [], true, None);
    RequestStagesKeepSmall(f0, budget);
    var f1 := FlushRequestHeader(f0, budget);
    RequestStagesKeepSmall(f1, budget);
    var f2 := FlushRequestBody(f1, budget);
    ResponseStagesKeepSmall(f2, budget);
    ResponseStagesKeepSmall(FlushResponseHeader(f2, budget), budget);
  }

  lemma ReceiveKeepsSmall(s: Stream, m: Message)
    requires PendingSmall(s.context) && AllSmall(s.sent)
    ensures PendingSmall(Receive(s, m).context) && AllSmall(Receive(s, m).sent)
  {
    if s.open {
      HandleKeepsPendingSmall(s.context, m);
      FlushKeepsSmall(Handle(s.context, m).0, s.budget);
    }
  }

  lemma {:induction false} ReceiveAllKeepsSmall(s: Stream, messages: seq<Message>)
    requires PendingSmall(s.context) && AllSmall(s.sent)
    ensures AllSmall(ReceiveAll(s, messages).sent)
    decreases |messages|
  {
    if messages != [] {
      ReceiveKeepsSmall(s, messages[0]);
      ReceiveAllKeepsSmall(Receive(s, messages[0]), messages[1..]);
    }
  }

  /** No stream ever sends a body chunk of more than the limit, in either direction. */
  lemma EveryChunkSentIsSmall(budget: nat, messages: seq<Message>)
    ensures AllSmall(ReceiveAll(NewStream(budget), messages).sent)
  {
    ReceiveAllKeepsSmall(NewStream(budget), messages);
  }
}
