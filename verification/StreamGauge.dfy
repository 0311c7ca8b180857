/** The running-requests gauge over any number of interleaved streams. */
module StreamGauge {
  import opened StreamHandler
  import opened Sums
  import opened Wrappers

  /** The streams being processed, and the per-model gauge they share. */
  datatype World = World(streams: map<nat, Stream>, gauge: map<string, int>)

  datatype Step = Open(id: nat, budget: nat) | Deliver(id: nat, message: Message) | End(id: nat)

  function Reading(gauge: map<string, int>, model: string): int {
    if model in gauge then gauge[model] else 0
  }

  /** Incrementing and decrementing ignore requests without a model name. */
  function Moved(gauge: map<string, int>, model: string, delta: int): map<string, int> {
    if model == "" then gauge else gauge[model := Reading(gauge, model) + delta]
  }

  function Counting(gauge: map<string, int>, counted: Option<string>): map<string, int> {
    if counted.Some? then Moved(gauge, counted.value, 1) else gauge
  }

  /** The deferred function of a stream that returns. */
  function Released(gauge: map<string, int>, c: Context): map<string, int> {
    if c.running then Moved(gauge, c.model, -1) else gauge
  }

  predicate Enabled(w: World, step: Step) {
    match step
    case Open(id, _) => id !in w.streams
    case Deliver(id, _) => id in w.streams
    case End(id) => id in w.streams
  }

  function Apply(w: World, step: Step): World
    requires Enabled(w, step)
  {
    match step
    case Open(id, budget) => w.(streams := w.streams[id := NewStream(budget)])
    case Deliver(id, m) =>
      var t := Receive(w.streams[id], m);
      var gauge := Counting(w.gauge, t.counted);
      if t.open then World(w.streams[id := t], gauge) else World(w.streams - {id}, Released(gauge, t.context))
    case End(id) => World(w.streams - {id}, Released(w.gauge, w.streams[id].context))
  }

  predicate IsRun(w: World, steps: seq<Step>)
    decreases |steps|
  {
    steps == [] || (Enabled(w, steps[0]) && IsRun(Apply(w, steps[0]), steps[1..]))
  }

  function RunState(w: World, steps: seq<Step>): World
    requires IsRun(w, steps)
    decreases |steps|
  {
    if steps == [] then w else RunState(Apply(w, steps[0]), steps[1..])
  }

  /** The end of a request body that can be decoded names the model anew. */
  function ModelAfter(model: string, m: Message): string {
    if m.RequestBodyMsg? && m.eos && !m.request.RequestNotJson? then m.request.model else model
  }

  /** A message that leaves the model name of a stream already counted as running as it was. */
  predicate Steady(w: World, step: Step) {
    step.Deliver? && step.id in w.streams ==>
      var c := w.streams[step.id].context;
      c.running ==> ModelAfter(c.model, step.message) == c.model
  }

  predicate SteadyRun(w: World, steps: seq<Step>)
    requires IsRun(w, steps)
    decreases |steps|
  {
    steps != [] ==> Steady(w, steps[0]) && SteadyRun(Apply(w, steps[0]), steps[1..])
  }

  // ---------- What the gauge should read ----------

  function Contribution(c: Context, model: string): int {
    if c.running && c.model == model then 1 else 0
  }

  function Contributions(streams: map<nat, Stream>, model: string): map<nat, int> {
    map id | id in streams :: Contribution(streams[id].context, model)
  }

  /** Open streams whose request body has been flushed for `model`. */
  ghost function RunningFor(streams: map<nat, Stream>, model: string): int {
    Sum(Contributions(streams, model))
  }

  ghost predicate Counted(w: World) {
    forall model :: model != "" ==> Reading(w.gauge, model) == RunningFor(w.streams, model)
  }

  /** A stream is counted only after its request body went out. */
  predicate CountedLate(c: Context) {
    c.running ==> c.state != RequestReceived && c.state != HeaderRequestResponseComplete
  }

  predicate StreamOk(s: Stream) {
    s.open && CountedLate(s.context)
  }

  predicate StreamsOk(w: World) {
    forall id :: id in w.streams ==> StreamOk(w.streams[id])
  }

  lemma HandleCountsNothing(c: Context, m: Message)
    requires CountedLate(c)
    ensures CountedLate(Handle(c, m).0) && Handle(c, m).0.running == c.running
    ensures Handle(c, m).0.model == ModelAfter(c.model, m)
  {
  }

  lemma FlushCounts(c: Context, budget: nat)
    requires CountedLate(c)
    ensures var f := FlushPending(c, budget);
      && f.context.model == c.model
      && (f.counted.Some? ==> !c.running && f.counted.value == c.model)
      && (f.context.running <==> c.running || f.counted.Some?)
      && CountedLate(f.context)
  {
    var f1 := FlushRequestHeader(Flush(c, [], true, None), budget);
    assert f1.context.model == c.model && f1.context.running == c.running && f1.counted.None? && CountedLate(f1.context);
    var f2 := FlushRequestBody(f1, budget);
    assert f2.context.running ==> c.running || f2.counted.Some?;
    var f3 := FlushResponseHeader(f2, budget);
    assert f3.counted == f2.counted && f3.context.running == f2.context.running && CountedLate(f3.context);
  }

  /** A pass counts a stream exactly when it first becomes running, and under the model it then has. */
  lemma ReceiveCounts(s: Stream, m: Message)
    requires StreamOk(s)
    ensures var t := Receive(s, m);
      && t.context.model == ModelAfter(s.context.model, m)
      && (t.counted.Some? ==> !s.context.running && t.counted.value == t.context.model)
      && (t.context.running <==> s.context.running || t.counted.Some?)
      && (t.open ==> StreamOk(t))
  {
    HandleCountsNothing(s.context, m);
    FlushCounts(Handle(s.context, m).0, s.budget);
  }

  lemma RunningAfterReplacing(streams: map<nat, Stream>, id: nat, s: Stream, model: string)
    ensures RunningFor(streams[id := s], model) == RunningFor(streams, model) + Contribution(s.context, model)
         - if id in streams then Contribution(streams[id].context, model) else 0
  {
    var before, after := Contributions(streams, model), Contributions(streams[id := s], model);
    assert after == before[id := Contribution(s.context, model)];
    SumReplace(before, id, Contribution(s.context, model));
  }

  lemma RunningAfterRemoving(streams: map<nat, Stream>, id: nat, model: string)
    requires id in streams
    ensures RunningFor(streams - {id}, model) == RunningFor(streams, model) - Contribution(streams[id].context, model)
  {
    var before := Contributions(streams, model);
    assert Contributions(streams - {id}, model) == before - {id};
    SumSplit(before, id);
  }

  /** By how much a message moves the gauge of a model away from the number of its running streams. */
  function MessageDrift(c: Context, m: Message, model: string): int {
    if !c.running then 0
    else (if c.model == model then 1 else 0) - if ModelAfter(c.model, m) == model then 1 else 0
  }

  lemma CountingReads(gauge: map<string, int>, counted: Option<string>, model: string)
    requires model != ""
    ensures Reading(Counting(gauge, counted), model) == Reading(gauge, model) + if counted == Some(model) then 1 else 0
  {
  }

  lemma ReleasingReads(gauge: map<string, int>, c: Context, model: string)
    requires model != ""
    ensures Reading(Released(gauge, c), model) == Reading(gauge, model) - Contribution(c, model)
  {
  }

  lemma DeliverDrift(w: World, id: nat, m: Message, model: string)
    requires StreamsOk(w) && id in w.streams && model != ""
    ensures var x := Apply(w, Deliver(id, m));
      Reading(x.gauge, model) - RunningFor(x.streams, model)
      == Reading(w.gauge, model) - RunningFor(w.streams, model) + MessageDrift(w.streams[id].context, m, model)
  {
    var s := w.streams[id];
    var t := Receive(s, m);
    ReceiveCounts(s, m);
    CountingReads(w.gauge, t.counted, model);
    ReleasingReads(Counting(w.gauge, t.counted), t.context, model);
    if t.open {
      RunningAfterReplacing(w.streams, id, t, model);
    } else {
      RunningAfterRemoving(w.streams, id, model);
    }
  }

  lemma StepKeepsStreamsOk(w: World, step: Step)
    requires StreamsOk(w) && Enabled(w, step)
    ensures StreamsOk(Apply(w, step))
  {
    if step.Deliver? {
      ReceiveCounts(w.streams[step.id], step.message);
    }
  }

  function StepDrift(w: World, step: Step, model: string): int
    requires Enabled(w, step)
  {
    if step.Deliver? then MessageDrift(w.streams[step.id].context, step.message, model) else 0
  }

  lemma StepMovesByDrift(w: World, step: Step, model: string)
    requires StreamsOk(w) && Enabled(w, step) && model != ""
    ensures Reading(Apply(w, step).gauge, model) - RunningFor(Apply(w, step).streams, model)
         == Reading(w.gauge, model) - RunningFor(w.streams, model) + StepDrift(w, step, model)
  {
    match step
    case Open(id, budget) => RunningAfterReplacing(w.streams, id, NewStream(budget), model);
    case End(id) => RunningAfterRemoving(w.streams, id, model);
    case Deliver(id, m) => DeliverDrift(w, id, m, model);
  }

  /** What all steps of a run together move the gauge away from the number of running streams. */
  function Drift(w: World, steps: seq<Step>, model: string): int
    requires IsRun(w, steps)
    decreases |steps|
  {
    if steps == [] then 0 else StepDrift(w, steps[0], model) + Drift(Apply(w, steps[0]), steps[1..], model)
  }

  lemma {:induction false} RunMovesByDrift(w: World, steps: seq<Step>, model: string)
    requires StreamsOk(w) && IsRun(w, steps) && model != ""
    ensures Reading(RunState(w, steps).gauge, model) - RunningFor(RunState(w, steps).streams, model)
         == Reading(w.gauge, model) - RunningFor(w.streams, model) + Drift(w, steps, model)
    decreases |steps|
  {
    if steps != [] {
      StepMovesByDrift(w, steps[0], model);
      StepKeepsStreamsOk(w, steps[0]);
      RunMovesByDrift(Apply(w, steps[0]), steps[1..], model);
    }
  }

  /** In every run, the gauge of a model reads the number of its running streams plus the drift of the messages. */
  lemma GaugeReadsCountPlusDrift(steps: seq<Step>, model: string)
    requires IsRun(World(map[], map[]), steps) && model != ""
    ensures var w := RunState(World(map[], map[]), steps);
      Reading(w.gauge, model) == RunningFor(w.streams, model) + Drift(World(map[], map[]), steps, model)
  {
    SumOfZeros(Contributions(map[], model));
    RunMovesByDrift(World(map[], map[]), steps, model);
  }

  /** A step keeps the gauge right if and only if it does not rename the model of a stream already counted. */
  lemma StepCountsIffSteady(w: World, step: Step)
    requires StreamsOk(w) && Counted(w) && Enabled(w, step)
    ensures Counted(Apply(w, step)) <==> Steady(w, step)
  {
    var x := Apply(w, step);
    forall model | model != "" ensures Reading(x.gauge, model) - RunningFor(x.streams, model) == StepDrift(w, step, model) {
      StepMovesByDrift(w, step, model);
    }
    if step.Deliver? {
      var c := w.streams[step.id].context;
      var after := ModelAfter(c.model, step.message);
      if c.running && c.model != after {
        var renamed := if c.model != "" then c.model else after;
        assert Reading(x.gauge, renamed) != RunningFor(x.streams, renamed);
      }
    }
  }

  /** The gauge is right after every step of the run. */
  ghost predicate CountedThroughout(w: World, steps: seq<Step>)
    requires IsRun(w, steps)
    decreases |steps|
  {
    steps != [] ==> Counted(Apply(w, steps[0])) && CountedThroughout(Apply(w, steps[0]), steps[1..])
  }

  /** The gauge is right all along a run if and only if no message of the run renames a running stream. */
  lemma {:induction false} CountedThroughoutIffSteady(w: World, steps: seq<Step>)
    requires StreamsOk(w) && Counted(w) && IsRun(w, steps)
    ensures CountedThroughout(w, steps) <==> SteadyRun(w, steps)
    decreases |steps|
  {
    if steps != [] {
      StepCountsIffSteady(w, steps[0]);
      StepKeepsStreamsOk(w, steps[0]);
      if Steady(w, steps[0]) {
        CountedThroughoutIffSteady(Apply(w, steps[0]), steps[1..]);
      }
    }
  }

  lemma {:induction false} SteadyRunKeepsCount(w: World, steps: seq<Step>)
    requires StreamsOk(w) && Counted(w) && IsRun(w, steps) && SteadyRun(w, steps)
    ensures Counted(RunState(w, steps)) && StreamsOk(RunState(w, steps))
    decreases |steps|
  {
    if steps != [] {
      StepCountsIffSteady(w, steps[0]);
      StepKeepsStreamsOk(w, steps[0]);
      SteadyRunKeepsCount(Apply(w, steps[0]), steps[1..]);
    }
  }

  /**
   Over any interleaving of streams that do not rename a counted model, send failures included, the gauge of every model
   reads the number of open streams whose request body was flushed for it, and reads zero once all streams have ended.
   */
  lemma GaugeCountsRunningStreams(steps: seq<Step>, model: string)
    requires IsRun(World(map[], map[]), steps) && SteadyRun(World(map[], map[]), steps) && model != ""
    ensures var w := RunState(World(map[], map[]), steps);
      && Reading(w.gauge, model) == RunningFor(w.streams, model)
      && (w.streams == map[] ==> Reading(w.gauge, model) == 0)
  {
    var start := World(map[], map[]);
    forall m ensures RunningFor(map[], m) == 0 {
      SumOfZeros(Contributions(map[], m));
    }
    assert Counted(start);
    SteadyRunKeepsCount(start, steps);
  }

  // ---------- One complete request body per stream is enough ----------

  predicate EndsRequestBody(step: Step, id: nat) {
    step.Deliver? && step.id == id && step.message.RequestBodyMsg? && step.message.eos
  }

  /** Once a stream is running, it receives no further end of a request body. */
  predicate SingleBodies(w: World, steps: seq<Step>)
    requires IsRun(w, steps)
    decreases |steps|
  {
    steps != [] ==>
      && (steps[0].Deliver? && w.streams[steps[0].id].context.running ==> !EndsRequestBody(steps[0], steps[0].id))
      && SingleBodies(Apply(w, steps[0]), steps[1..])
  }

  lemma SteadyWithoutBodyEnd(w: World, step: Step)
    requires step.Deliver? && step.id in w.streams
    requires w.streams[step.id].context.running ==> !EndsRequestBody(step, step.id)
    ensures Steady(w, step)
  {
  }

  lemma {:induction false} SingleBodiesAreSteady(w: World, steps: seq<Step>)
    requires IsRun(w, steps) && SingleBodies(w, steps)
    ensures SteadyRun(w, steps)
    decreases |steps|
  {
    if steps != [] {
      if steps[0].Deliver? {
        SteadyWithoutBodyEnd(w, steps[0]);
      }
      SingleBodiesAreSteady(Apply(w, steps[0]), steps[1..]);
    }
  }

  /** A second complete request body for another model makes the gauge of both models wrong for good. */
  lemma SecondBodyMovesTheGauge(a: string, b: string)
    requires a != b && a != "" && b != ""
    ensures var w0 := Apply(World(map[], map[]), Open(0, 10));
      var w1 := Apply(w0, Deliver(0, RequestBodyMsg([], true, Accepted(a, []))));
      var w2 := Apply(w1, Deliver(0, RequestBodyMsg([], true, Accepted(b, []))));
      var w3 := Apply(w2, End(0));
      w3.streams == map[] && Reading(w3.gauge, a) == 1 && Reading(w3.gauge, b) == -1
  {
    var s0 := NewStream(10);
    var s1 := Receive(s0, RequestBodyMsg([], true, Accepted(a, [])));
    assert s1.open && s1.context.running && s1.counted == Some(a);
    var s2 := Receive(s1, RequestBodyMsg([], true, Accepted(b, [])));
    assert s2.open && s2.counted == None && s2.context.model == b && s2.context.running;
  }

  // ---------- One stream from its first message to its end ----------

  /** The gauge after a stream has received these messages and returned. */
  function GaugeAfter(gauge: map<string, int>, s: Stream, messages: seq<Message>): map<string, int>
    decreases |messages|
  {
    if messages == [] || !s.open then Released(gauge, s.context)
    else GaugeAfter(Counting(gauge, Receive(s, messages[0]).counted), Receive(s, messages[0]), messages[1..])
  }

  /** The steps of that stream among others: it ends with its input, or with the message that fails. */
  function StreamSteps(id: nat, s: Stream, messages: seq<Message>): seq<Step>
    decreases |messages|
  {
    if messages == [] then [End(id)] else
      var t := Receive(s, messages[0]);
      [Deliver(id, messages[0])] + if t.open then StreamSteps(id, t, messages[1..]) else []
  }

  /** Processing a stream is a run of its steps: the gauge ends where the run leaves it, and the other streams as they were. */
  lemma {:induction false} StreamIsARun(w: World, id: nat, messages: seq<Message>)
    requires id in w.streams && w.streams[id].open
    ensures var steps := StreamSteps(id, w.streams[id], messages);
      && IsRun(w, steps)
      && RunState(w, steps) == World(w.streams - {id}, GaugeAfter(w.gauge, w.streams[id], messages))
    decreases |messages|
  {
    var s := w.streams[id];
    var steps := StreamSteps(id, s, messages);
    var x := Apply(w, steps[0]);
    if messages == [] {
      assert steps[1..] == [];
    } else {
      var t := Receive(s, messages[0]);
      if t.open {
        assert steps[1..] == StreamSteps(id, t, messages[1..]);
        StreamIsARun(x, id, messages[1..]);
        assert x.streams - {id} == w.streams - {id};
      } else {
        assert steps[1..] == [];
      }
    }
  }

  /** What the messages of one stream move the gauge of a model by, in the end. */
  function StreamDrift(s: Stream, messages: seq<Message>, model: string): int
    decreases |messages|
  {
    if messages == [] || !s.open then 0
    else MessageDrift(s.context, messages[0], model) + StreamDrift(Receive(s, messages[0]), messages[1..], model)
  }

  lemma {:induction false} StreamMovesByDrift(gauge: map<string, int>, s: Stream, messages: seq<Message>, model: string)
    requires CountedLate(s.context) && model != ""
    ensures Reading(GaugeAfter(gauge, s, messages), model)
         == Reading(gauge, model) - Contribution(s.context, model) + StreamDrift(s, messages, model)
    decreases |messages|
  {
    if messages != [] && s.open {
      var t := Receive(s, messages[0]);
      ReceiveCounts(s, messages[0]);
      ReceiveKeepsCountedLate(s, messages[0]);
      StreamMovesByDrift(Counting(gauge, t.counted), t, messages[1..], model);
    }
  }

  lemma ReceiveKeepsCountedLate(s: Stream, m: Message)
    requires StreamOk(s)
    ensures CountedLate(Receive(s, m).context)
  {
    HandleCountsNothing(s.context, m);
    FlushCounts(Handle(s.context, m).0, s.budget);
  }

  /** No message renames the stream once it is running. */
  predicate SteadyStream(s: Stream, messages: seq<Message>)
    decreases |messages|
  {
    messages == [] || !s.open ||
    (&& (s.context.running ==> ModelAfter(s.context.model, messages[0]) == s.context.model)
     && SteadyStream(Receive(s, messages[0]), messages[1..]))
  }

  lemma {:induction false} SteadyStreamsDoNotDrift(s: Stream, messages: seq<Message>, model: string)
    requires SteadyStream(s, messages)
    ensures StreamDrift(s, messages, model) == 0
    decreases |messages|
  {
    if messages != [] && s.open {
      SteadyStreamsDoNotDrift(Receive(s, messages[0]), messages[1..], model);
    }
  }

  /** A whole stream moves the gauge of each model by its drift, which is nothing if no message renames it while running. */
  lemma WholeStreamMovesByDrift(gauge: map<string, int>, budget: nat, messages: seq<Message>, model: string)
    requires model != ""
    ensures Reading(GaugeAfter(gauge, NewStream(budget), messages), model)
         == Reading(gauge, model) + StreamDrift(NewStream(budget), messages, model)
    ensures SteadyStream(NewStream(budget), messages) ==> StreamDrift(NewStream(budget), messages, model) == 0
  {
    StreamMovesByDrift(gauge, NewStream(budget), messages, model);
    if SteadyStream(NewStream(budget), messages) {
      SteadyStreamsDoNotDrift(NewStream(budget), messages, model);
    }
  }

  /** The same for all models at once. */
  lemma EveryModelMovesByDrift(gauge: map<string, int>, budget: nat, messages: seq<Message>)
    ensures forall model :: model != "" ==>
              Reading(GaugeAfter(gauge, NewStream(budget), messages), model)
              == Reading(gauge, model) + StreamDrift(NewStream(budget), messages, model)
    ensures SteadyStream(NewStream(budget), messages) ==>
              forall model :: model != "" ==>
                Reading(GaugeAfter(gauge, NewStream(budget), messages), model) == Reading(gauge, model)
  {
    forall model | model != ""
      ensures Reading(GaugeAfter(gauge, NewStream(budget), messages), model)
           == Reading(gauge, model) + StreamDrift(NewStream(budget), messages, model)
      ensures SteadyStream(NewStream(budget), messages) ==> StreamDrift(NewStream(budget), messages, model) == 0
    {
      WholeStreamMovesByDrift(gauge, budget, messages, model);
    }
  }

  /** Requests without a model name are never counted. */
  lemma NamelessIsNeverCounted(w: World, step: Step)
    requires Enabled(w, step)
    ensures Reading(Apply(w, step).gauge, "") == Reading(w.gauge, "")
  {
  }

  // ---------- Conditions on the messages alone ----------

  predicate EndsBody(m: Message) {
    m.RequestBodyMsg? && m.eos
  }

  /** The stream is running, or has a request body pending that will make it so. */
  predicate Bound(c: Context) {
    c.running || c.reqBody != []
  }

  lemma FlushBinds(c: Context, budget: nat)
    requires !Bound(c)
    ensures !Bound(FlushPending(c, budget).context)
  {
  }

  /** Only the end of a request body makes a stream one that will be running. */
  lemma OnlyBodyEndsBind(s: Stream, m: Message)
    requires s.open && !Bound(s.context) && !EndsBody(m)
    ensures !Bound(Receive(s, m).context)
  {
    FlushBinds(Handle(s.context, m).0, s.budget);
  }

  /** The open streams that have received the end of a request body. */
  function EndedAfter(step: Step, ended: set<nat>): set<nat> {
    match step
    case Open(id, _) => ended - {id}
    case Deliver(id, m) => if EndsBody(m) then ended + {id} else ended
    case End(_) => ended
  }

  /** Between its opening and its end, no stream receives more than one end of a request body. */
  predicate EndsOnce(steps: seq<Step>, ended: set<nat>)
    decreases |steps|
  {
    steps != [] ==>
      && !(steps[0].Deliver? && EndsBody(steps[0].message) && steps[0].id in ended)
      && EndsOnce(steps[1..], EndedAfter(steps[0], ended))
  }

  ghost predicate BoundHaveEnded(w: World, ended: set<nat>) {
    forall id :: id in w.streams && Bound(w.streams[id].context) ==> id in ended
  }

  /** Runs in which every stream receives at most one end of a request body keep the gauge right. */
  lemma {:induction false} EndsOnceIsSteady(w: World, steps: seq<Step>, ended: set<nat>)
    requires StreamsOk(w) && IsRun(w, steps) && EndsOnce(steps, ended) && BoundHaveEnded(w, ended)
    ensures SteadyRun(w, steps)
    decreases |steps|
  {
    if steps != [] {
      StepKeepsStreamsOk(w, steps[0]);
      StepKeepsBound(w, steps[0], ended);
      if steps[0].Deliver? {
        SteadyWithoutBodyEnd(w, steps[0]);
      }
      EndsOnceIsSteady(Apply(w, steps[0]), steps[1..], EndedAfter(steps[0], ended));
    }
  }

  lemma StepKeepsBound(w: World, step: Step, ended: set<nat>)
    requires StreamsOk(w) && Enabled(w, step) && BoundHaveEnded(w, ended)
    ensures BoundHaveEnded(Apply(w, step), EndedAfter(step, ended))
  {
    if step.Deliver? && !EndsBody(step.message) && !Bound(w.streams[step.id].context) {
      OnlyBodyEndsBind(w.streams[step.id], step.message);
    }
  }

  /** At most one message of the stream ends a request body. */
  predicate OneBodyEnd(messages: seq<Message>) {
    forall i, j :: 0 <= i < j < |messages| ==> !(EndsBody(messages[i]) && EndsBody(messages[j]))
  }

  /** A stream with at most one end of a request body is steady, so it leaves every gauge as it was. */
  lemma OneBodyEndIsSteady(budget: nat, messages: seq<Message>)
    requires OneBodyEnd(messages)
    ensures SteadyStream(NewStream(budget), messages)
  {
    OneBodyEndIsSteadyFrom(NewStream(budget), messages);
  }

  lemma {:induction false} OneBodyEndIsSteadyFrom(s: Stream, messages: seq<Message>)
    requires OneBodyEnd(messages)
    requires Bound(s.context) ==> forall i :: 0 <= i < |messages| ==> !EndsBody(messages[i])
    ensures SteadyStream(s, messages)
    decreases |messages|
  {
    if messages != [] && s.open {
      var m, rest := messages[0], messages[1..];
      assert forall i :: 0 <= i < |rest| ==> rest[i] == messages[i + 1];
      if !Bound(s.context) && !EndsBody(m) {
        OnlyBodyEndsBind(s, m);
      }
      OneBodyEndIsSteadyFrom(Receive(s, m), rest);
    }
  }
}
