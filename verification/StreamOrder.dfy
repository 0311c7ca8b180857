/** The order in which a stream answers: whatever the proxy sends, headers come before bodies and requests before responses. */
module StreamOrder {
  import opened StreamHandler
  import opened Wrappers

  /** How far a trace of sent messages has come; `Broken` if it has left the protocol. */
  datatype Phase =
    | Start
    | RequestHeaderSent
    | RequestBodyOpen
    | RequestBodyClosed
    | ResponseOpen
    | ResponseClosed
    | Finished
    | Broken

  function Next(p: Phase, r: Response): Phase {
    match r
    case RequestHeader(_) => if p == Start then RequestHeaderSent else Broken
    case RequestBody(chunk) =>
      if p != RequestHeaderSent && p != RequestBodyOpen then Broken
      else if chunk.eos then RequestBodyClosed else RequestBodyOpen
    case ResponseHeader =>
      if p == RequestBodyOpen || p == Finished || p == Broken then Broken else ResponseOpen
    case ResponseBody(chunk) =>
      if p != ResponseOpen then Broken else if chunk.eos then ResponseClosed else ResponseOpen
    case Immediate(_) => if p == RequestBodyOpen || p == Finished || p == Broken then Broken else Finished
  }

  function PhaseAfter(p: Phase, trace: seq<Response>): Phase {
    if trace == [] then p else Next(PhaseAfter(p, trace[..|trace| - 1]), trace[|trace| - 1])
  }

  lemma {:induction false} PhaseAfterConcat(p: Phase, s: seq<Response>, t: seq<Response>)
    ensures PhaseAfter(p, s + t) == PhaseAfter(PhaseAfter(p, s), t)
    decreases |t|
  {
    if t == [] {
      assert s + t == s;
    } else {
      var last := |t| - 1;
      PhaseAfterConcat(p, s, t[..last]);
      assert (s + t)[..|s + t| - 1] == s + t[..last];
    }
  }

  // ---------- The grammar ----------

  /** The first `i` messages: RequestHeader RequestBody*, with the end of stream on the last body only; or nothing. */
  predicate RequestPart(t: seq<Response>, i: int)
    requires 0 <= i <= |t|
  {
    i > 0 ==>
      && t[0].RequestHeader?
      && forall k :: 1 <= k < i ==> t[k].RequestBody? && (t[k].chunk.eos ==> k == i - 1)
  }

  /** From `i` to `j`: (ResponseHeader ResponseBody*)*, with no body following an end of stream but through another header. */
  predicate ResponsePart(t: seq<Response>, i: int, j: int)
    requires 0 <= i <= j <= |t|
  {
    i < j ==> t[i].ResponseHeader? && forall k :: i < k < j ==> FollowsAt(t, k)
  }

  predicate EndsBody(r: Response) {
    r.ResponseBody? && r.chunk.eos
  }

  predicate MayFollow(previous: Response, r: Response) {
    r.ResponseHeader? || (r.ResponseBody? && !EndsBody(previous))
  }

  predicate FollowsAt(t: seq<Response>, k: int)
    requires 1 <= k < |t|
  {
    MayFollow(t[k - 1], t[k])
  }

  /** From `j` to `n`: at most one immediate response. */
  predicate ImmediatePart(t: seq<Response>, j: int, n: int)
    requires 0 <= j <= n <= |t|
  {
    j == n || (j + 1 == n && t[j].Immediate?)
  }

  ghost predicate InGrammar(t: seq<Response>) {
    exists i, j :: SplitsAt(t, |t|, i, j)
  }

  /**
   The first `n` messages are a request part, a response part and an immediate response; what follows a request body
   follows its end of stream.
   */
  predicate SplitsAt(t: seq<Response>, n: int, i: int, j: int) {
    && 0 <= i <= j <= n <= |t|
    && RequestPart(t, i) && (2 <= i < n ==> t[i - 1].chunk.eos)
    && ResponsePart(t, i, j)
    && ImmediatePart(t, j, n)
  }

  /** Where the response part of the first `n` messages begins and ends. */
  predicate PhaseFits(t: seq<Response>, n: int, p: Phase, i: int, j: int) {
    && SplitsAt(t, n, i, j)
    && (p == Start ==> n == 0)
    && (p == RequestHeaderSent ==> i == n == 1)
    && (p == RequestBodyOpen ==> i == n >= 2 && !t[n - 1].chunk.eos)
    && (p == RequestBodyClosed ==> i == n >= 2 && t[n - 1].chunk.eos)
    && (p == ResponseOpen || p == ResponseClosed ==> i < j == n)
    && (p == ResponseOpen ==> !EndsBody(t[n - 1]))
  }

  lemma ExtendRequest(t: seq<Response>, n: nat, p: Phase, i: int, j: int)
    requires n < |t| && PhaseFits(t, n, p, i, j) && Next(p, t[n]) != Broken
    requires t[n].RequestHeader? || t[n].RequestBody?
    ensures PhaseFits(t, n + 1, Next(p, t[n]), n + 1, n + 1)
  {
  }

  lemma ExtendResponse(t: seq<Response>, n: nat, p: Phase, i: int, j: int)
    requires n < |t| && PhaseFits(t, n, p, i, j) && Next(p, t[n]) != Broken
    requires t[n].ResponseHeader? || t[n].ResponseBody?
    ensures PhaseFits(t, n + 1, Next(p, t[n]), i, n + 1)
  {
  }

  lemma ExtendImmediate(t: seq<Response>, n: nat, p: Phase, i: int, j: int)
    requires n < |t| && PhaseFits(t, n, p, i, j) && Next(p, t[n]) != Broken && t[n].Immediate?
    ensures PhaseFits(t, n + 1, Next(p, t[n]), i, n)
  {
  }

  /** Every trace the automaton accepts has the shape of the grammar. */
  lemma {:induction false} AcceptedTraceSplits(t: seq<Response>, n: nat) returns (i: int, j: int)
    requires n <= |t| && PhaseAfter(Start, t[..n]) != Broken
    ensures PhaseFits(t, n, PhaseAfter(Start, t[..n]), i, j)
    decreases n
  {
    if n == 0 {
      return 0, 0;
    }
    var m := n - 1;
    assert t[..n][..m] == t[..m];
    var p := PhaseAfter(Start, t[..m]);
    i, j := AcceptedTraceSplits(t, m);
    match t[m]
    case RequestHeader(_) | RequestBody(_) =>
      ExtendRequest(t, m, p, i, j);
      i, j := n, n;
    case ResponseHeader | ResponseBody(_) =>
      ExtendResponse(t, m, p, i, j);
      j := n;
    case Immediate(_) =>
      ExtendImmediate(t, m, p, i, j);
      j := m;
  }

  lemma {:induction false} RequestPartPhase(t: seq<Response>, i: nat, k: nat)
    requires i <= |t| && RequestPart(t, i) && k <= i
    ensures PhaseAfter(Start, t[..k]) ==
            if k == 0 then Start else if k == 1 then RequestHeaderSent
            else if t[k - 1].chunk.eos then RequestBodyClosed else RequestBodyOpen
    decreases k
  {
    if k > 0 {
      RequestPartPhase(t, i, k - 1);
      assert t[..k][..k - 1] == t[..k - 1];
    }
  }

  lemma {:induction false} ResponsePartPhase(t: seq<Response>, i: nat, j: nat, k: nat)
    requires i <= j <= |t| && ResponsePart(t, i, j) && i <= k <= j
    requires var p := PhaseAfter(Start, t[..i]); p != RequestBodyOpen && p != Finished && p != Broken
    ensures PhaseAfter(Start, t[..k]) ==
            if k == i then PhaseAfter(Start, t[..i])
            else if EndsBody(t[k - 1]) then ResponseClosed else ResponseOpen
    decreases k
  {
    if k > i {
      ResponsePartPhase(t, i, j, k - 1);
      assert t[..k][..k - 1] == t[..k - 1];
      assert k - 1 > i ==> FollowsAt(t, k - 1);
    }
  }

  lemma GrammarIsAccepted(t: seq<Response>, i: int, j: int)
    requires SplitsAt(t, |t|, i, j)
    ensures PhaseAfter(Start, t) != Broken
  {
    RequestPartPhase(t, i, i);
    if i < |t| {
      ResponsePartPhase(t, i, j, j);
    }
    assert t[..|t|] == t;
    assert j < |t| ==> t[..|t| - 1] == t[..j];
  }

  /** The automaton accepts exactly the traces of the grammar. */
  lemma AcceptedIffInGrammar(t: seq<Response>)
    ensures PhaseAfter(Start, t) != Broken <==> InGrammar(t)
  {
    if PhaseAfter(Start, t) != Broken {
      assert t[..|t|] == t;
      var i, j := AcceptedTraceSplits(t, |t|);
      assert SplitsAt(t, |t|, i, j);
    }
    if InGrammar(t) {
      var i, j :| SplitsAt(t, |t|, i, j);
      GrammarIsAccepted(t, i, j);
    }
  }

  // ---------- The context follows the trace ----------

  predicate Linked(state: State, p: Phase) {
    match state
    case RequestReceived => p == Start
    case HeaderRequestResponseComplete => p == RequestHeaderSent
    case BodyRequestResponsesComplete => p == RequestBodyClosed
    case ResponseReceived => p != Broken && p != Finished && p != RequestBodyOpen
    case HeaderResponseResponseComplete => p == ResponseOpen
    case BodyResponseResponsesComplete => p == ResponseClosed
    case _ => false
  }

  /** What is pending is what the generators make: a header response, and chunk lists ending at their end of stream. */
  predicate PendingOk(c: Context) {
    && (c.reqHeader.Some? ==> c.reqHeader.value.RequestHeader?)
    && EosOnlyLast(c.reqBody) && (c.reqBody != [] ==> c.reqBody[|c.reqBody| - 1].eos)
    && EosOnlyLast(c.respBody)
  }

  predicate FlushOk(p: Phase, f: Flush) {
    && PendingOk(f.context)
    && if f.ok then Linked(f.context.state, PhaseAfter(p, f.sent)) else PhaseAfter(p, f.sent) != Broken
  }

  lemma {:induction false} RequestBodiesPrefix(chunks: seq<Chunk>, k: nat)
    requires k <= |chunks| && EosOnlyLast(chunks) && chunks != [] && chunks[|chunks| - 1].eos
    ensures PhaseAfter(RequestHeaderSent, AsRequestBodies(chunks)[..k]) ==
            if k == 0 then RequestHeaderSent else if k < |chunks| then RequestBodyOpen else RequestBodyClosed
    decreases k
  {
    if k > 0 {
      RequestBodiesPrefix(chunks, k - 1);
      assert AsRequestBodies(chunks)[..k][..k - 1] == AsRequestBodies(chunks)[..k - 1];
    }
  }

  lemma {:induction false} ResponseBodiesPrefix(chunks: seq<Chunk>, k: nat)
    requires k <= |chunks| && EosOnlyLast(chunks)
    ensures PhaseAfter(ResponseOpen, AsResponseBodies(chunks)[..k]) ==
            if k > 0 && k == |chunks| && chunks[k - 1].eos then ResponseClosed else ResponseOpen
    decreases k
  {
    if k > 0 {
      ResponseBodiesPrefix(chunks, k - 1);
      assert AsResponseBodies(chunks)[..k][..k - 1] == AsResponseBodies(chunks)[..k - 1];
    }
  }

  /** Sending part of `more` keeps to the protocol if every prefix of it does, and all of it links to the next context. */
  lemma SendingKeepsOrder(p: Phase, f: Flush, budget: nat, more: seq<Response>, next: Context, counted: Option<string>)
    requires FlushOk(p, f) && f.ok && PendingOk(next)
    requires forall k :: 0 <= k <= |more| ==> PhaseAfter(PhaseAfter(p, f.sent), more[..k]) != Broken
    requires Linked(next.state, PhaseAfter(PhaseAfter(p, f.sent), more))
    ensures FlushOk(p, Sending(f, budget, more, next, counted))
  {
    PhaseAfterConcat(p, f.sent, more);
    var k := if budget < |f.sent| then 0 else budget - |f.sent|;
    if k <= |more| {
      PhaseAfterConcat(p, f.sent, more[..k]);
    }
  }

  lemma OneMessagePhases(p: Phase, r: Response)
    ensures PhaseAfter(p, [r]) == Next(p, r)
    ensures forall k :: 0 <= k <= 1 ==> PhaseAfter(p, [r][..k]) == if k == 0 then p else Next(p, r)
  {
    assert [r][..0] == [] && [r][..1] == [r];
  }

  lemma FlushRequestHeaderKeepsOrder(p: Phase, f: Flush, budget: nat)
    requires FlushOk(p, f)
    ensures FlushOk(p, FlushRequestHeader(f, budget))
  {
    var c := f.context;
    if f.ok && c.state == RequestReceived && c.reqHeader.Some? {
      OneMessagePhases(Start, c.reqHeader.value);
      SendingKeepsOrder(p, f, budget, [c.reqHeader.value], c.(state := HeaderRequestResponseComplete), f.counted);
    }
  }

  lemma FlushRequestBodyKeepsOrder(p: Phase, f: Flush, budget: nat)
    requires FlushOk(p, f)
    ensures FlushOk(p, FlushRequestBody(f, budget))
  {
    var c := f.context;
    if f.ok && c.state == HeaderRequestResponseComplete && c.reqBody != [] {
      var more := AsRequestBodies(c.reqBody);
      forall k | 0 <= k <= |more| ensures PhaseAfter(RequestHeaderSent, more[..k]) != Broken {
        RequestBodiesPrefix(c.reqBody, k);
      }
      RequestBodiesPrefix(c.reqBody, |more|);
      assert more[..|more|] == more;
      SendingKeepsOrder(p, f, budget, more,
                        c.(state := BodyRequestResponsesComplete, running := true, reqBody := []), Some(c.model));
    }
  }

  lemma FlushResponseHeaderKeepsOrder(p: Phase, f: Flush, budget: nat)
    requires FlushOk(p, f)
    ensures FlushOk(p, FlushResponseHeader(f, budget))
  {
    var c := f.context;
    if f.ok && c.state == ResponseReceived && c.respHeader {
      OneMessagePhases(PhaseAfter(p, f.sent), ResponseHeader);
      SendingKeepsOrder(p, f, budget, [ResponseHeader], c.(state := HeaderResponseResponseComplete), f.counted);
    }
  }

  lemma FlushResponseBodyKeepsOrder(p: Phase, f: Flush, budget: nat)
    requires FlushOk(p, f)
    ensures FlushOk(p, FlushResponseBody(f, budget))
  {
    var c := f.context;
    if f.ok && c.state == HeaderResponseResponseComplete && c.respBody != [] {
      var more, last := AsResponseBodies(c.respBody), |c.respBody| - 1;
      forall k | 0 <= k <= |more| ensures PhaseAfter(ResponseOpen, more[..k]) != Broken {
        ResponseBodiesPrefix(c.respBody, k);
      }
      ResponseBodiesPrefix(c.respBody, |more|);
      assert more[..|more|] == more;
      assert AnyEos(c.respBody) <==> c.respBody[last].eos;
      var next := if AnyEos(c.respBody) then BodyResponseResponsesComplete else c.state;
      SendingKeepsOrder(p, f, budget, more, c.(state := next, respBody := []), f.counted);
    }
  }

  lemma FlushKeepsOrder(p: Phase, c: Context, budget: nat)
    requires PendingOk(c) && Linked(c.state, p)
    ensures FlushOk(p, FlushPending(c, budget))
  {
    var f0 := Flush(c, [], true, None);
    var f1 := FlushRequestHeader(f0, budget);
    var f2 := FlushRequestBody(f1, budget);
    var f3 := FlushResponseHeader(f2, budget);
    FlushRequestHeaderKeepsOrder(p, f0, budget);
    FlushRequestBodyKeepsOrder(p, f1, budget);
    FlushResponseHeaderKeepsOrder(p, f2, budget);
    FlushResponseBodyKeepsOrder(p, f3, budget);
  }

  // ---------- Whole streams ----------

  predicate StreamOk(s: Stream) {
    && PendingOk(s.context)
    && if s.open then Linked(s.context.state, PhaseAfter(Start, s.sent)) else PhaseAfter(Start, s.sent) != Broken
  }

  lemma HandleKeepsPending(c: Context, m: Message)
    requires PendingOk(c)
    ensures PendingOk(Handle(c, m).0)
    ensures Handle(c, m).0.state == if m.ResponseHeadersMsg? then ResponseReceived else c.state
  {
    if m.RequestBodyMsg? && m.request.Accepted? {
      ChunksShape(m.request.encoded, BODY_BYTE_LIMIT, true);
    }
    if m.ResponseBodyMsg? {
      ChunksShape(m.bytes, BODY_BYTE_LIMIT, m.eos);
      ChunksShape(c.body + m.bytes, BODY_BYTE_LIMIT, true);
      if m.response.Reencoded? {
        ChunksShape(m.response.encoded, BODY_BYTE_LIMIT, true);
      }
    }
  }

  lemma ImmediateMayFollow(state: State, sent: seq<Response>, r: Response)
    requires Linked(state, PhaseAfter(Start, sent)) && r.Immediate?
    ensures PhaseAfter(Start, sent + [r]) != Broken
  {
    OneMessagePhases(PhaseAfter(Start, sent), r);
    PhaseAfterConcat(Start, sent, [r]);
  }

  lemma ReceiveKeepsOrder(s: Stream, m: Message)
    requires StreamOk(s)
    ensures StreamOk(Receive(s, m))
  {
    if s.open {
      HandleKeepsPending(s.context, m);
      var (c, failure) := Handle(s.context, m);
      var p := PhaseAfter(Start, s.sent);
      assert Linked(c.state, p);
      if failure.Some? {
        if failure.value.status.Some? {
          ImmediateMayFollow(c.state, s.sent, Immediate(failure.value.status.value));
        }
      } else {
        var f := FlushPending(c, s.budget);
        FlushKeepsOrder(p, c, s.budget);
        PhaseAfterConcat(Start, s.sent, f.sent);
      }
    }
  }

  lemma {:induction false} ReceiveAllKeepsOrder(s: Stream, messages: seq<Message>)
    requires StreamOk(s)
    ensures StreamOk(ReceiveAll(s, messages))
    decreases |messages|
  {
    if messages != [] {
      ReceiveKeepsOrder(s, messages[0]);
      ReceiveAllKeepsOrder(Receive(s, messages[0]), messages[1..]);
    }
  }

  /**
   For every stream, any messages in any order, and a send failing at any point, what was sent has the form
   (RequestHeader RequestBody*)? (ResponseHeader ResponseBody*)* Immediate?, with one end of stream per flushed body.
   */
  lemma EveryTraceIsInGrammar(messages: seq<Message>, budget: nat)
    ensures InGrammar(ReceiveAll(NewStream(budget), messages).sent)
  {
    assert StreamOk(NewStream(budget));
    ReceiveAllKeepsOrder(NewStream(budget), messages);
    var s := ReceiveAll(NewStream(budget), messages);
    AcceptedIffInGrammar(s.sent);
  }
}
