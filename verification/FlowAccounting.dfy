/**
 Lock-free statistics of the flow registry, as a system of threads whose every atomic operation is its own step.

 A thread runs `Add`, `Remove`, `Cleanup` or `Drain` on a managed queue. The call on the underlying queue is one step; it
 leaves the thread with a list of atomic additions still to perform, on the queue's own counters, on the shard's, on the
 priority band's and on the parent registry's. Threads interleave freely between any two steps.
 */
module FlowAccounting {
  import opened Sums
  import opened Word64
  import opened Wrappers

  type Handle = nat
  type ThreadId = nat

  datatype FlowKey = FlowKey(id: string, priority: nat)
  datatype QueueId = QueueId(shard: nat, flow: FlowKey)
  datatype BandId = BandId(shard: nat, priority: nat)

  /** The items of an underlying queue: the byte size of the item behind each live handle. */
  type Items = map<Handle, int>

  datatype Stat = Length | Bytes
  datatype Scope = OfQueue(queue: QueueId) | OfBand(band: BandId) | OfShard(shard: nat) | OfRegistry
  datatype Counter = Counter(scope: Scope, stat: Stat)

  /** One atomic addition, or one call of the parent's callback. */
  datatype Action = Bump(counter: Counter, delta: int) | NotifyRegistry(lenDelta: int, byteSizeDelta: int)

  datatype State = State(
    bands: set<BandId>,
    queues: map<QueueId, Items>,
    counters: map<Counter, nat>,
    threads: map<ThreadId, seq<Action>>)

  // ---------- What the counters summarise ----------

  predicate InScope(scope: Scope, q: QueueId) {
    match scope
    case OfQueue(r) => q == r
    case OfBand(b) => q.shard == b.shard && q.flow.priority == b.priority
    case OfShard(s) => q.shard == s
    case OfRegistry => true
  }

  ghost function Measure(items: Items, stat: Stat): int {
    if stat.Length? then |items| else Sum(items)
  }

  ghost function Measured(queues: map<QueueId, Items>, c: Counter): map<QueueId, int> {
    map q | q in queues && InScope(c.scope, q) :: Measure(queues[q], c.stat)
  }

  /** The simple value a counter stands for: a sum over the queues in its scope, computed from their items. */
  ghost function Total(queues: map<QueueId, Items>, c: Counter): int {
    Sum(Measured(queues, c))
  }

  function Value(counters: map<Counter, nat>, c: Counter): nat {
    if c in counters then counters[c] else 0
  }

  // ---------- Deltas still in flight ----------

  function ActionDelta(a: Action, c: Counter): int {
    match a
    case Bump(d, delta) => if d == c then delta else 0
    case NotifyRegistry(lenDelta, byteSizeDelta) =>
      if c.scope != OfRegistry then 0 else if c.stat.Length? then lenDelta else byteSizeDelta
  }

  function ProgramDelta(actions: seq<Action>, c: Counter): int {
    if actions == [] then 0 else ActionDelta(actions[0], c) + ProgramDelta(actions[1..], c)
  }

  ghost function Pending(threads: map<ThreadId, seq<Action>>, c: Counter): map<ThreadId, int> {
    map t | t in threads :: ProgramDelta(threads[t], c)
  }

  ghost function InFlight(threads: map<ThreadId, seq<Action>>, c: Counter): int {
    Sum(Pending(threads, c))
  }

  // ---------- The steps ----------

  /** What `reconcileStats` of the queue and then of its shard do, in program order. */
  function ReconcileProgram(bands: set<BandId>, q: QueueId, lenDelta: int, byteSizeDelta: int): (p: seq<Action>) {
    var band := BandId(q.shard, q.flow.priority);
    [Bump(Counter(OfQueue(q), Length), lenDelta), Bump(Counter(OfQueue(q), Bytes), byteSizeDelta),
     Bump(Counter(OfShard(q.shard), Length), lenDelta), Bump(Counter(OfShard(q.shard), Bytes), byteSizeDelta)]
    + (if band in bands then
         [Bump(Counter(OfBand(band), Length), lenDelta), Bump(Counter(OfBand(band), Bytes), byteSizeDelta)]
       else [])
    + [NotifyRegistry(lenDelta, byteSizeDelta)]
  }

  /** The accumulation loop of `Cleanup` and `Drain`, in wrapping `int64` arithmetic. */
  function RemovalDeltas(items: Items, removed: seq<Handle>): (d: (int, int))
    requires forall h :: h in removed ==> h in items
  {
    if removed == [] then (0, 0) else
      var last := |removed| - 1;
      var (lenDelta, byteSizeDelta) := RemovalDeltas(items, removed[..last]);
      (ToInt64(lenDelta - 1), ToInt64(byteSizeDelta - ToInt64(items[removed[last]])))
  }

  datatype Op =
    | Register(q: QueueId)
    | Add(t: ThreadId, q: QueueId, h: Handle, byteSize: int)
    | Remove(t: ThreadId, q: QueueId, h: Handle)
    | Cleanup(t: ThreadId, q: QueueId, removed: seq<Handle>)
    | Drain(t: ThreadId, q: QueueId, removed: seq<Handle>)
    | Failed(t: ThreadId)
    | Atomic(t: ThreadId)

  predicate Idle(st: State, t: ThreadId) {
    t in st.threads ==> st.threads[t] == []
  }

  function HandleSet(s: seq<Handle>): set<Handle> {
    set h | h in s
  }

  predicate Distinct(s: seq<Handle>) {
    forall i, j :: 0 <= i < j < |s| ==> s[i] != s[j]
  }

  /** The contract of `SafeQueue`: fresh handles, removal only of what is queued, `Drain` removes everything. */
  predicate Enabled(st: State, op: Op) {
    match op
    case Register(q) => q !in st.queues
    case Add(t, q, h, byteSize) =>
      Idle(st, t) && q in st.queues && h !in st.queues[q] && 0 <= byteSize < MODULUS
    case Remove(t, q, h) => Idle(st, t) && q in st.queues && h in st.queues[q]
    case Cleanup(t, q, removed) =>
      Idle(st, t) && q in st.queues && Distinct(removed) && forall h :: h in removed ==> h in st.queues[q]
    case Drain(t, q, removed) =>
      Idle(st, t) && q in st.queues && Distinct(removed) && HandleSet(removed) == st.queues[q].Keys
    case Failed(t) => Idle(st, t)
    case Atomic(t) => !Idle(st, t)
  }

  /** The call on the underlying queue took place: `items` is what it now holds, the deltas are still to be propagated. */
  function Began(st: State, t: ThreadId, q: QueueId, items: Items, lenDelta: int, byteSizeDelta: int): State {
    st.(queues := st.queues[q := items],
    threads := st.threads[t := ReconcileProgram(st.bands, q, lenDelta, byteSizeDelta)])
  }

  function Removed(st: State, t: ThreadId, q: QueueId, removed: seq<Handle>): State
    requires q in st.queues && forall h :: h in removed ==> h in st.queues[q]
  {
    if removed == [] then st else
      var (lenDelta, byteSizeDelta) := RemovalDeltas(st.queues[q], removed);
      Began(st, t, q, st.queues[q] - HandleSet(removed), lenDelta, byteSizeDelta)
  }

  function Perform(counters: map<Counter, nat>, a: Action): map<Counter, nat> {
    match a
    case Bump(c, delta) => counters[c := WrappingAdd(Value(counters, c), delta)]
    case NotifyRegistry(lenDelta, byteSizeDelta) =>
      var len, bytes := Counter(OfRegistry, Length), Counter(OfRegistry, Bytes);
      counters[len := WrappingAdd(Value(counters, len), lenDelta)]
              [bytes := WrappingAdd(Value(counters, bytes), byteSizeDelta)]
  }

  function Apply(st: State, op: Op): State
    requires Enabled(st, op)
  {
    match op
    case Register(q) => st.(queues := st.queues[q := map[]])
    case Add(t, q, h, byteSize) => Began(st, t, q, st.queues[q][h := byteSize], 1, ToInt64(byteSize))
    case Remove(t, q, h) =>
      Began(st, t, q, st.queues[q] - {h}, -1, ToInt64(-ToInt64(st.queues[q][h])))
    case Cleanup(t, q, removed) => Removed(st, t, q, removed)
    case Drain(t, q, removed) => Removed(st, t, q, removed)
    case Failed(t) => st
    case Atomic(t) =>
      st.(counters := Perform(st.counters, st.threads[t][0]), threads := st.threads[t := st.threads[t][1..]])
  }

  function Init(bands: set<BandId>): State {
    State(bands, map[], map[], map[])
  }

  /** `ops` is a run from `st`: every step is enabled where it is taken. */
  predicate IsRun(st: State, ops: seq<Op>)
    decreases |ops|
  {
    ops == [] || (Enabled(st, ops[0]) && IsRun(Apply(st, ops[0]), ops[1..]))
  }

  function RunState(st: State, ops: seq<Op>): State
    requires IsRun(st, ops)
    decreases |ops|
  {
    if ops == [] then st else RunState(Apply(st, ops[0]), ops[1..])
  }

  // ---------- What the steps leave in the queues ----------

  /** A drain leaves its queue empty, and every other as it was. */
  lemma DrainEmptiesTheQueue(st: State, t: ThreadId, q: QueueId, removed: seq<Handle>)
    requires Enabled(st, Drain(t, q, removed))
    ensures Apply(st, Drain(t, q, removed)).queues == st.queues[q := map[]]
  {
    if removed == [] {
      assert st.queues[q].Keys == {};
      assert st.queues[q] == map[];
    } else {
      assert st.queues[q] - HandleSet(removed) == map[];
    }
  }

  /** A cleanup takes out exactly the items it lists. */
  lemma CleanupDropsTheRemoved(st: State, t: ThreadId, q: QueueId, removed: seq<Handle>, h: Handle)
    requires Enabled(st, Cleanup(t, q, removed))
    ensures var after := Apply(st, Cleanup(t, q, removed)).queues;
      && after == st.queues[q := after[q]]
      && (h in after[q] <==> h in st.queues[q] && h !in removed)
      && (h in after[q] ==> after[q][h] == st.queues[q][h])
  {
  }

  lemma {:induction false} Listing(handles: set<Handle>) returns (s: seq<Handle>)
    ensures Distinct(s) && HandleSet(s) == handles
    decreases |handles|
  {
    s := [];
    if handles != {} {
      var h :| h in handles;
      var rest := Listing(handles - {h});
      s := [h] + rest;
      assert forall i :: 0 < i < |s| ==> s[i] == rest[i - 1] && s[i] in HandleSet(rest);
      assert forall g :: g in handles - {h} ==> g in rest;
    }
  }

  /** An idle thread can clean up any part of a registered queue, and drain it. */
  lemma EveryPartCanBeRemoved(st: State, t: ThreadId, q: QueueId, part: set<Handle>) returns (removed: seq<Handle>)
    requires Idle(st, t) && q in st.queues && part <= st.queues[q].Keys
    ensures HandleSet(removed) == part && Enabled(st, Cleanup(t, q, removed))
    ensures part == st.queues[q].Keys ==> Enabled(st, Drain(t, q, removed))
  {
    removed := Listing(part);
    assert forall h :: h in removed ==> h in HandleSet(removed);
  }

  /** The items held as the operations of a run say, without looking at the queues. */
  function HeldAfter(ops: seq<Op>, q: QueueId, h: Handle): Option<int> {
    if ops == [] then None else
      var before := HeldAfter(ops[..|ops| - 1], q, h);
      match ops[|ops| - 1]
      case Add(_, p, g, byteSize) => if p == q && g == h then Some(byteSize) else before
      case Remove(_, p, g) => if p == q && g == h then None else before
      case Cleanup(_, p, removed) => if p == q && h in removed then None else before
      case Drain(_, p, _) => if p == q then None else before
      case _ => before
  }

  function Held(queues: map<QueueId, Items>, q: QueueId, h: Handle): Option<int> {
    if q in queues && h in queues[q] then Some(queues[q][h]) else None
  }

  lemma StepHolds(st: State, op: Op, ops: seq<Op>, q: QueueId, h: Handle)
    requires Enabled(st, op) && Held(st.queues, q, h) == HeldAfter(ops, q, h)
    ensures Held(Apply(st, op).queues, q, h) == HeldAfter(ops + [op], q, h)
  {
    assert (ops + [op])[..|ops|] == ops;
    match op
    case Cleanup(t, p, removed) => CleanupDropsTheRemoved(st, t, p, removed, h);
    case Drain(t, p, removed) => DrainEmptiesTheQueue(st, t, p, removed);
    case _ =>
  }

  lemma {:induction false} RunHolds(st: State, done: seq<Op>, ops: seq<Op>, q: QueueId, h: Handle)
    requires IsRun(st, ops) && Held(st.queues, q, h) == HeldAfter(done, q, h)
    ensures Held(RunState(st, ops).queues, q, h) == HeldAfter(done + ops, q, h)
    decreases |ops|
  {
    if ops == [] {
      assert done + ops == done;
    } else {
      StepHolds(st, ops[0], done, q, h);
      RunHolds(Apply(st, ops[0]), done + [ops[0]], ops[1..], q, h);
      assert done + [ops[0]] + ops[1..] == done + ops;
    }
  }

  /**
   In every run, a queue holds an item, with its size, if and only if it was added and neither removed, cleaned up nor
   drained since.
   */
  lemma QueuesHoldTheirHistory(bands: set<BandId>, ops: seq<Op>, q: QueueId, h: Handle)
    requires IsRun(Init(bands), ops)
    ensures Held(RunState(Init(bands), ops).queues, q, h) == HeldAfter(ops, q, h)
  {
    RunHolds(Init(bands), [], ops, q, h);
    assert [] + ops == ops;
  }

  // ---------- The invariant ----------

  /** Band counters exist for configured bands only. */
  predicate Tracked(bands: set<BandId>, c: Counter) {
    c.scope.OfBand? ==> c.scope.band in bands
  }

  ghost predicate Accounted(st: State, c: Counter) {
    Congruent(Value(st.counters, c) + InFlight(st.threads, c), Total(st.queues, c))
  }

  ghost predicate NaturalSizes(queues: map<QueueId, Items>) {
    forall q, h :: q in queues && h in queues[q] ==> 0 <= queues[q][h]
  }

  ghost predicate Invariant(st: State) {
    && NaturalSizes(st.queues)
    && (forall c :: Value(st.counters, c) < MODULUS)
    && (forall c :: Tracked(st.bands, c) ==> Accounted(st, c))
  }

  lemma {:induction false} ProgramDeltaConcat(a: seq<Action>, b: seq<Action>, c: Counter)
    ensures ProgramDelta(a + b, c) == ProgramDelta(a, c) + ProgramDelta(b, c)
    decreases |a|
  {
    if a == [] {
      assert a + b == b;
    } else {
      assert (a + b)[1..] == a[1..] + b;
      ProgramDeltaConcat(a[1..], b, c);
    }
  }

  /** A reconciliation reaches every tracked counter whose scope contains the queue exactly once, and no other. */
  lemma ReconcileReachesEachScopeOnce(bands: set<BandId>, q: QueueId, lenDelta: int, byteSizeDelta: int, c: Counter)
    requires Tracked(bands, c)
    ensures ProgramDelta(ReconcileProgram(bands, q, lenDelta, byteSizeDelta), c)
         == if !InScope(c.scope, q) then 0 else if c.stat.Length? then lenDelta else byteSizeDelta
  {
    var band := BandId(q.shard, q.flow.priority);
    var own := [Bump(Counter(OfQueue(q), Length), lenDelta), Bump(Counter(OfQueue(q), Bytes), byteSizeDelta)];
    var shard := [Bump(Counter(OfShard(q.shard), Length), lenDelta), Bump(Counter(OfShard(q.shard), Bytes), byteSizeDelta)];
    var banded := if band in bands then
      [Bump(Counter(OfBand(band), Length), lenDelta), Bump(Counter(OfBand(band), Bytes), byteSizeDelta)] else [];
    var up := [NotifyRegistry(lenDelta, byteSizeDelta)];
    assert ReconcileProgram(bands, q, lenDelta, byteSizeDelta) == own + (shard + (banded + up));
    ProgramDeltaConcat(own, shard + (banded + up), c);
    ProgramDeltaConcat(shard, banded + up, c);
    ProgramDeltaConcat(banded, up, c);
    PairDelta(own[0], own[1], c);
    PairDelta(shard[0], shard[1], c);
    if band in bands {
      PairDelta(banded[0], banded[1], c);
    }
    assert ProgramDelta(up, c) == ActionDelta(up[0], c);
  }

  lemma PairDelta(a: Action, b: Action, c: Counter)
    ensures ProgramDelta([a, b], c) == ActionDelta(a, c) + ActionDelta(b, c)
  {
    assert [a, b][1..] == [b];
    assert ProgramDelta([b], c) == ActionDelta(b, c) + ProgramDelta([b][1..], c);
  }

  /** Replacing one queue's items moves each total by the change of that queue's own measure, if it is in scope. */
  lemma TotalAfterReplacing(queues: map<QueueId, Items>, q: QueueId, items: Items, c: Counter)
    ensures Total(queues[q := items], c) == Total(queues, c)
         + (if InScope(c.scope, q) then Measure(items, c.stat) - (if q in queues then Measure(queues[q], c.stat) else 0) else 0)
  {
    var before, after := Measured(queues, c), Measured(queues[q := items], c);
    if InScope(c.scope, q) {
      assert after == before[q := Measure(items, c.stat)];
      SumReplace(before, q, Measure(items, c.stat));
    } else {
      assert after == before;
    }
  }

  lemma InFlightAfterReplacing(threads: map<ThreadId, seq<Action>>, t: ThreadId, actions: seq<Action>, c: Counter)
    ensures InFlight(threads[t := actions], c) == InFlight(threads, c)
         + ProgramDelta(actions, c) - (if t in threads then ProgramDelta(threads[t], c) else 0)
  {
    var before, after := Pending(threads, c), Pending(threads[t := actions], c);
    assert after == before[t := ProgramDelta(actions, c)];
    SumReplace(before, t, ProgramDelta(actions, c));
  }

  ghost function ByteSizeOf(items: Items, removed: seq<Handle>): int
    requires forall h :: h in removed ==> h in items
  {
    if removed == [] then 0 else
      ByteSizeOf(items, removed[..|removed| - 1]) + items[removed[|removed| - 1]]
  }

  /** The wrapped accumulators of `Cleanup` and `Drain` are the unbounded ones as 64-bit words. */
  lemma {:induction false} RemovalDeltasAreCongruent(items: Items, removed: seq<Handle>)
    requires forall h :: h in removed ==> h in items
    ensures Congruent(RemovalDeltas(items, removed).0, -|removed|)
    ensures Congruent(RemovalDeltas(items, removed).1, -ByteSizeOf(items, removed))
    decreases |removed|
  {
    if removed == [] {
      CongruentReflexive(0);
    } else {
      var last := |removed| - 1;
      RemovalDeltasAreCongruent(items, removed[..last]);
      var (lenDelta, byteSizeDelta) := RemovalDeltas(items, removed[..last]);
      DecrementIsCongruent(lenDelta, -last);
      SubtractionIsCongruent(byteSizeDelta, -ByteSizeOf(items, removed[..last]), items[removed[last]]);
    }
  }

  /** Taking distinct handles out of a queue takes out their number and their byte sizes. */
  lemma HandleSetSplits(removed: seq<Handle>)
    requires Distinct(removed) && removed != []
    ensures removed[|removed| - 1] !in HandleSet(removed[..|removed| - 1])
    ensures HandleSet(removed) == HandleSet(removed[..|removed| - 1]) + {removed[|removed| - 1]}
  {
    var last := |removed| - 1;
    assert removed == removed[..last] + [removed[last]];
  }

  lemma {:induction false} RemovalShrinksMeasures(items: Items, removed: seq<Handle>)
    requires Distinct(removed) && forall h :: h in removed ==> h in items
    ensures |items - HandleSet(removed)| == |items| - |removed|
    ensures Sum(items - HandleSet(removed)) == Sum(items) - ByteSizeOf(items, removed)
    decreases |removed|
  {
    if removed == [] {
      assert items - HandleSet(removed) == items;
    } else {
      var last := |removed| - 1;
      RemovalShrinksMeasures(items, removed[..last]);
      HandleSetSplits(removed);
      RemovalOfOneMore(items, HandleSet(removed[..last]), removed[last]);
    }
  }

  lemma RemovalOfOneMore(items: Items, gone: set<Handle>, h: Handle)
    requires h in items && h !in gone
    ensures |items - (gone + {h})| == |items - gone| - 1
    ensures Sum(items - (gone + {h})) == Sum(items - gone) - items[h]
  {
    var kept := items - gone;
    SumSplit(kept, h);
    assert items - (gone + {h}) == kept - {h};
    assert (kept - {h}).Keys == kept.Keys - {h};
  }

  /** Beginning an operation whose deltas match the change of the queue keeps every counter accounted for. */
  lemma BeganKeepsAccounts(st: State, t: ThreadId, q: QueueId, items: Items, lenDelta: int, byteSizeDelta: int, c: Counter)
    requires Idle(st, t) && q in st.queues && Tracked(st.bands, c) && Accounted(st, c)
    requires Congruent(lenDelta, |items| - |st.queues[q]|)
    requires Congruent(byteSizeDelta, Sum(items) - Sum(st.queues[q]))
    ensures Accounted(Began(st, t, q, items, lenDelta, byteSizeDelta), c)
  {
    var program := ReconcileProgram(st.bands, q, lenDelta, byteSizeDelta);
    TotalAfterReplacing(st.queues, q, items, c);
    InFlightAfterReplacing(st.threads, t, program, c);
    ReconcileReachesEachScopeOnce(st.bands, q, lenDelta, byteSizeDelta, c);
    var moved := Total(st.queues[q := items], c) - Total(st.queues, c);
    assert ProgramDelta(program, c) == moved || Congruent(ProgramDelta(program, c), moved);
    CongruentSum(Value(st.counters, c) + InFlight(st.threads, c), Total(st.queues, c), ProgramDelta(program, c), moved);
  }

  lemma PerformMovesTheValue(counters: map<Counter, nat>, a: Action, c: Counter)
    ensures Congruent(Value(Perform(counters, a), c), Value(counters, c) + ActionDelta(a, c))
    ensures Value(counters, c) < MODULUS ==> Value(Perform(counters, a), c) < MODULUS
  {
    CongruentReflexive(Value(counters, c));
  }

  lemma AtomicKeepsAccounts(st: State, t: ThreadId, c: Counter)
    requires Enabled(st, Atomic(t)) && Accounted(st, c)
    ensures Accounted(Apply(st, Atomic(t)), c)
  {
    var a := st.threads[t][0];
    PerformMovesTheValue(st.counters, a, c);
    InFlightAfterReplacing(st.threads, t, st.threads[t][1..], c);
    var rest := InFlight(st.threads, c) - ActionDelta(a, c);
    assert InFlight(Apply(st, Atomic(t)).threads, c) == rest;
    CongruentSum(Value(Perform(st.counters, a), c), Value(st.counters, c) + ActionDelta(a, c), rest, rest);
    CongruentTransitive(Value(Perform(st.counters, a), c) + rest,
                        Value(st.counters, c) + InFlight(st.threads, c), Total(st.queues, c));
  }

  lemma RegisterKeepsAccounts(st: State, q: QueueId, c: Counter)
    requires Enabled(st, Register(q)) && Accounted(st, c)
    ensures Accounted(Apply(st, Register(q)), c)
  {
    TotalAfterReplacing(st.queues, q, map[], c);
  }

  lemma RemovedKeepsAccounts(st: State, t: ThreadId, q: QueueId, removed: seq<Handle>, c: Counter)
    requires Enabled(st, Cleanup(t, q, removed)) && Tracked(st.bands, c) && Accounted(st, c)
    ensures Accounted(Removed(st, t, q, removed), c)
  {
    if removed != [] {
      RemovalDeltasAreCongruent(st.queues[q], removed);
      RemovalShrinksMeasures(st.queues[q], removed);
      var (lenDelta, byteSizeDelta) := RemovalDeltas(st.queues[q], removed);
      BeganKeepsAccounts(st, t, q, st.queues[q] - HandleSet(removed), lenDelta, byteSizeDelta, c);
    }
  }

  lemma AddKeepsAccounts(st: State, t: ThreadId, q: QueueId, h: Handle, byteSize: int, c: Counter)
    requires Enabled(st, Add(t, q, h, byteSize)) && Tracked(st.bands, c) && Accounted(st, c)
    ensures Accounted(Apply(st, Add(t, q, h, byteSize)), c)
  {
    var items := st.queues[q];
    SumReplace(items, h, byteSize);
    assert items[h := byteSize].Keys == items.Keys + {h};
    CongruentReflexive(1);
    BeganKeepsAccounts(st, t, q, items[h := byteSize], 1, ToInt64(byteSize), c);
  }

  lemma RemoveKeepsAccounts(st: State, t: ThreadId, q: QueueId, h: Handle, c: Counter)
    requires Enabled(st, Remove(t, q, h)) && Tracked(st.bands, c) && Accounted(st, c)
    ensures Accounted(Apply(st, Remove(t, q, h)), c)
  {
    var items := st.queues[q];
    SumSplit(items, h);
    assert (items - {h}).Keys == items.Keys - {h};
    CongruentReflexive(-1);
    NegationIsCongruent(items[h]);
    BeganKeepsAccounts(st, t, q, items - {h}, -1, ToInt64(-ToInt64(items[h])), c);
  }

  lemma StepKeepsAccounts(st: State, op: Op, c: Counter)
    requires Enabled(st, op) && Tracked(st.bands, c) && Accounted(st, c)
    ensures Accounted(Apply(st, op), c)
  {
    match op
    case Register(q) => RegisterKeepsAccounts(st, q, c);
    case Add(t, q, h, byteSize) => AddKeepsAccounts(st, t, q, h, byteSize, c);
    case Remove(t, q, h) => RemoveKeepsAccounts(st, t, q, h, c);
    case Cleanup(t, q, removed) => RemovedKeepsAccounts(st, t, q, removed, c);
    case Drain(t, q, removed) => RemovedKeepsAccounts(st, t, q, removed, c);
    case Failed(t) =>
    case Atomic(t) => AtomicKeepsAccounts(st, t, c);
  }

  lemma StepKeepsInvariant(st: State, op: Op)
    requires Enabled(st, op) && Invariant(st)
    ensures Invariant(Apply(st, op)) && Apply(st, op).bands == st.bands
  {
    forall c | Tracked(st.bands, c) ensures Accounted(Apply(st, op), c) {
      StepKeepsAccounts(st, op, c);
    }
    if op.Atomic? {
      forall c ensures Value(Apply(st, op).counters, c) < MODULUS {
        PerformMovesTheValue(st.counters, st.threads[op.t][0], c);
      }
    }
  }

  lemma InitIsAccounted(bands: set<BandId>)
    ensures Invariant(Init(bands))
  {
    forall c ensures Accounted(Init(bands), c) {
      assert Measured(map[], c) == map[];
      assert Pending(map[], c) == map[];
      CongruentReflexive(0);
    }
  }

  lemma {:induction false} RunKeepsInvariant(st: State, ops: seq<Op>)
    requires Invariant(st) && IsRun(st, ops)
    ensures Invariant(RunState(st, ops)) && RunState(st, ops).bands == st.bands
    decreases |ops|
  {
    if ops != [] {
      StepKeepsInvariant(st, ops[0]);
      RunKeepsInvariant(Apply(st, ops[0]), ops[1..]);
    }
  }

  // ---------- Main results ----------

  /** In every interleaving of every run, each counter plus its in-flight deltas is the true total modulo 2^64. */
  lemma EveryRunIsAccounted(bands: set<BandId>, ops: seq<Op>, c: Counter)
    requires IsRun(Init(bands), ops) && Tracked(bands, c)
    ensures var st := RunState(Init(bands), ops);
      Congruent(Value(st.counters, c) + InFlight(st.threads, c), Total(st.queues, c))
  {
    InitIsAccounted(bands);
    RunKeepsInvariant(Init(bands), ops);
    assert Accounted(RunState(Init(bands), ops), c);
  }

  lemma TotalIsNatural(queues: map<QueueId, Items>, c: Counter)
    requires NaturalSizes(queues)
    ensures 0 <= Total(queues, c)
  {
    var measured := Measured(queues, c);
    forall q | q in measured ensures 0 <= measured[q] {
      var zeros := map h | h in queues[q] :: 0;
      SumOfZeros(zeros);
      SumIsMonotone(zeros, queues[q]);
    }
    SumOfZeros(map q | q in measured :: 0);
    SumIsMonotone(map q | q in measured :: 0, measured);
  }

  /**
   A counter reads exactly the true total if and only if the deltas in flight for it cancel out modulo 2^64, as long as
   the true total fits a word.
   */
  lemma ExactIffNothingInFlight(bands: set<BandId>, ops: seq<Op>, c: Counter)
    requires IsRun(Init(bands), ops) && Tracked(bands, c)
    requires Total(RunState(Init(bands), ops).queues, c) < MODULUS
    ensures var st := RunState(Init(bands), ops);
      Value(st.counters, c) == Total(st.queues, c) <==> Congruent(InFlight(st.threads, c), 0)
  {
    InitIsAccounted(bands);
    RunKeepsInvariant(Init(bands), ops);
    var st := RunState(Init(bands), ops);
    assert Accounted(st, c);
    var value, inFlight, total := Value(st.counters, c), InFlight(st.threads, c), Total(st.queues, c);
    TotalIsNatural(st.queues, c);
    CongruentWordsAreEqual(value, total);
    if value == total {
      CongruentSum(value + inFlight, total, -total, -total);
    }
    if Congruent(inFlight, 0) {
      CongruentDifference(value + inFlight, total, inFlight, 0);
    }
  }

  /** No thread is inside an operation. */
  predicate Quiescent(st: State) {
    forall t :: t in st.threads ==> st.threads[t] == []
  }

  /** At every quiescent point of every run, every counter whose true total fits a word reads exactly that total. */
  lemma QuiescentCountersAreExact(bands: set<BandId>, ops: seq<Op>, c: Counter)
    requires IsRun(Init(bands), ops) && Tracked(bands, c)
    requires Quiescent(RunState(Init(bands), ops))
    requires Total(RunState(Init(bands), ops).queues, c) < MODULUS
    ensures Value(RunState(Init(bands), ops).counters, c) == Total(RunState(Init(bands), ops).queues, c)
  {
    var st := RunState(Init(bands), ops);
    SumOfZeros(Pending(st.threads, c));
    CongruentReflexive(0);
    ExactIffNothingInFlight(bands, ops, c);
  }

  /** Between `queue.Add` and `len.Add`, a concurrent `Remove` makes an empty queue report 2^64 - 1 items. */
  lemma CounterCanWrapTransiently(q: QueueId)
    ensures var ops := [Register(q), Add(0, q, 0, 5), Remove(1, q, 0), Atomic(1)];
      && IsRun(Init({}), ops)
      && q in RunState(Init({}), ops).queues && RunState(Init({}), ops).queues[q] == map[]
      && Value(RunState(Init({}), ops).counters, Counter(OfQueue(q), Length)) == MODULUS - 1
  {
    var ops := [Register(q), Add(0, q, 0, 5), Remove(1, q, 0), Atomic(1)];
    var s1 := Apply(Init({}), ops[0]);
    var s2 := Apply(s1, ops[1]);
    var s3 := Apply(s2, ops[2]);
    var s4 := Apply(s3, ops[3]);
    assert ops[1..][0] == ops[1] && ops[1..][1..][0] == ops[2] && ops[1..][1..][1..][0] == ops[3];
    assert ops[1..][1..][1..][1..] == [];
    assert IsRun(s4, []) && IsRun(s3, ops[1..][1..][1..]) && IsRun(s2, ops[1..][1..]) && IsRun(s1, ops[1..]);
    assert RunState(s3, ops[1..][1..][1..]) == s4;
    assert RunState(s2, ops[1..][1..]) == s4;
    assert RunState(s1, ops[1..]) == s4;
    assert map[0 := 5] - {0} == map[];
  }

  /** The queues of a shard all live in its configured bands. */
  predicate InConfiguredBands(st: State) {
    forall q :: q in st.queues ==> BandId(q.shard, q.flow.priority) in st.bands
  }

  ghost function BandTotals(st: State, shard: nat, stat: Stat): map<BandId, int> {
    map b | b in st.bands && b.shard == shard :: Total(st.queues, Counter(OfBand(b), stat))
  }

  function BandOf(q: QueueId): BandId {
    BandId(q.shard, q.flow.priority)
  }

  lemma FiberIsBand(st: State, shard: nat, stat: Stat, b: BandId)
    requires b.shard == shard
    ensures Fiber(Measured(st.queues, Counter(OfShard(shard), stat)), BandOf, b)
         == Measured(st.queues, Counter(OfBand(b), stat))
  {
  }

  /** What a shard holds is what its priority bands hold together. */
  lemma ShardTotalIsSumOfBands(st: State, shard: nat, stat: Stat)
    requires InConfiguredBands(st)
    ensures Total(st.queues, Counter(OfShard(shard), stat)) == Sum(BandTotals(st, shard, stat))
  {
    var m := Measured(st.queues, Counter(OfShard(shard), stat));
    var labels := set b | b in st.bands && b.shard == shard;
    SumByFibers(m, BandOf, labels);
    forall b | b in labels ensures Fiber(m, BandOf, b) == Measured(st.queues, Counter(OfBand(b), stat)) {
      FiberIsBand(st, shard, stat, b);
    }
    assert FiberSums(m, BandOf, labels) == BandTotals(st, shard, stat);
  }

  ghost function BandValues(st: State, shard: nat, stat: Stat): map<BandId, int> {
    map b | b in st.bands && b.shard == shard :: Value(st.counters, Counter(OfBand(b), stat))
  }

  /** At every quiescent point a shard's own counter is the sum of its bands' counters, although nothing ever adds them. */
  lemma QuiescentShardIsSumOfBands(bands: set<BandId>, ops: seq<Op>, shard: nat, stat: Stat)
    requires IsRun(Init(bands), ops)
    requires Quiescent(RunState(Init(bands), ops)) && InConfiguredBands(RunState(Init(bands), ops))
    requires Total(RunState(Init(bands), ops).queues, Counter(OfShard(shard), stat)) < MODULUS
    ensures var st := RunState(Init(bands), ops);
      Value(st.counters, Counter(OfShard(shard), stat)) == Sum(BandValues(st, shard, stat))
  {
    var st := RunState(Init(bands), ops);
    InitIsAccounted(bands);
    RunKeepsInvariant(Init(bands), ops);
    QuiescentCountersAreExact(bands, ops, Counter(OfShard(shard), stat));
    ShardTotalIsSumOfBands(st, shard, stat);
    var totals := BandTotals(st, shard, stat);
    forall b | b in totals ensures Value(st.counters, Counter(OfBand(b), stat)) == totals[b] {
      SumSplit(totals, b);
      var others := totals - {b};
      forall x | x in others ensures 0 <= others[x] {
        TotalIsNatural(st.queues, Counter(OfBand(x), stat));
      }
      SumOfZeros(map x | x in others :: 0);
      SumIsMonotone(map x | x in others :: 0, others);
      QuiescentCountersAreExact(bands, ops, Counter(OfBand(b), stat));
    }
    assert BandValues(st, shard, stat) == totals;
  }
}
