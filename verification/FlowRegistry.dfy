/**
 The managed queue and the registry shard as objects that update their own counters, for calls that do not overlap.
 A shard is valid when each of its aggregates is the total of the items its queues really hold, as a 64-bit word.
 */
module FlowRegistry {
  import opened FlowAccounting
  import opened FlowConfig
  import opened Sums
  import opened Word64
  import opened Wrappers

  datatype Band = Band(config: BandConfig, len: nat, byteSize: nat)

  /** The counters of a shard, and the deltas passed to the parent's callback so far. */
  datatype Tally = Tally(totalLen: nat, totalByteSize: nat, bands: map<nat, Band>, reported: seq<(int, int)>)

  datatype BandStats = BandStats(priority: nat, priorityName: string, capacityBytes: nat, byteSize: nat, len: nat)
  datatype ShardStats = ShardStats(
    totalCapacityBytes: nat,
    totalByteSize: nat,
    totalLen: nat,
    perPriorityBandStats: map<nat, BandStats>)

  function BandEntry(p: nat, band: Band): BandStats {
    BandStats(p, band.config.priorityName, band.config.maxBytes, band.byteSize, band.len)
  }

  ghost function ReportedSum(calls: seq<(int, int)>): (int, int) {
    if calls == [] then (0, 0) else
      var last := |calls| - 1;
      var sum := ReportedSum(calls[..last]);
      (sum.0 + calls[last].0, sum.1 + calls[last].1)
  }

  /** A word-sized counter standing for an unbounded total. */
  ghost predicate Holds(counter: nat, total: int) {
    counter < MODULUS && Congruent(counter, total)
  }

  lemma HeldTotalIsRead(counter: nat, total: int)
    requires Holds(counter, total)
    ensures 0 <= total < MODULUS ==> counter == total
  {
    if 0 <= total < MODULUS {
      CongruentWordsAreEqual(counter, total);
    }
  }

  ghost function LenTotal(contents: map<QueueId, Items>, scope: Scope): int {
    Total(contents, Counter(scope, Length))
  }

  ghost function ByteTotal(contents: map<QueueId, Items>, scope: Scope): int {
    Total(contents, Counter(scope, Bytes))
  }

  ghost predicate BandExact(id: nat, contents: map<QueueId, Items>, p: nat, band: Band) {
    && Holds(band.len, LenTotal(contents, OfBand(BandId(id, p))))
    && Holds(band.byteSize, ByteTotal(contents, OfBand(BandId(id, p))))
  }

  /** Every aggregate of a shard is the total of what its queues hold, as a 64-bit word. */
  ghost predicate TallyExact(id: nat, hasParent: bool, contents: map<QueueId, Items>, tally: Tally) {
    && Holds(tally.totalLen, LenTotal(contents, OfShard(id)))
    && Holds(tally.totalByteSize, ByteTotal(contents, OfShard(id)))
    && (forall p :: p in tally.bands ==> BandExact(id, contents, p, tally.bands[p]))
    && (hasParent ==>
         && Congruent(ReportedSum(tally.reported).0, LenTotal(contents, OfShard(id)))
         && Congruent(ReportedSum(tally.reported).1, ByteTotal(contents, OfShard(id))))
  }

  function BandAfter(band: Band, lenDelta: int, byteSizeDelta: int): Band {
    band.(len := WrappingAdd(band.len, lenDelta), byteSize := WrappingAdd(band.byteSize, byteSizeDelta))
  }

  /** What `reconcileStats` makes of a shard's counters. */
  function TallyAfter(tally: Tally, hasParent: bool, priority: nat, lenDelta: int, byteSizeDelta: int): Tally {
    Tally(
      WrappingAdd(tally.totalLen, lenDelta),
      WrappingAdd(tally.totalByteSize, byteSizeDelta),
      if priority in tally.bands then
        tally.bands[priority := BandAfter(tally.bands[priority], lenDelta, byteSizeDelta)]
      else tally.bands,
      if hasParent then tally.reported + [(lenDelta, byteSizeDelta)] else tally.reported)
  }

  /** A counter holding a total, moved by a delta congruent to the change, holds the new total. */
  lemma WrappingAddTracks(counter: nat, before: int, after: int, delta: int)
    requires Holds(counter, before) && Congruent(delta, after - before)
    ensures Holds(WrappingAdd(counter, delta), after)
  {
    CongruentSum(counter, before, delta, after - before);
    CongruentTransitive(WrappingAdd(counter, delta), counter + delta, after);
  }

  lemma ReportedSumExtends(calls: seq<(int, int)>, call: (int, int))
    ensures ReportedSum(calls + [call]) == (ReportedSum(calls).0 + call.0, ReportedSum(calls).1 + call.1)
  {
    assert (calls + [call])[..|calls|] == calls;
  }

  /** The two deltas are what the change of the queue's items amounts to, as words. */
  ghost predicate DeltasMatch(before: Items, after: Items, lenDelta: int, byteSizeDelta: int) {
    && Congruent(lenDelta, |after| - |before|)
    && Congruent(byteSizeDelta, Sum(after) - Sum(before))
  }

  lemma RemovalDeltasMatch(items: Items, h: Handle)
    requires h in items
    ensures DeltasMatch(items, items - {h}, -1, ToInt64(-ToInt64(items[h])))
  {
    SumSplit(items, h);
    assert (items - {h}).Keys == items.Keys - {h};
    CongruentReflexive(-1);
    NegationIsCongruent(items[h]);
  }

  lemma AdditionDeltasMatch(items: Items, h: Handle, itemBytes: int)
    requires h !in items
    ensures DeltasMatch(items, items[h := itemBytes], 1, ToInt64(itemBytes))
  {
    SumReplace(items, h, itemBytes);
    assert items[h := itemBytes].Keys == items.Keys + {h};
    CongruentReflexive(1);
  }

  lemma BandStaysExact(id: nat, contents: map<QueueId, Items>, q: QueueId, items: Items, p: nat, band: Band,
                       lenDelta: int, byteSizeDelta: int)
    requires q in contents && q.shard == id && DeltasMatch(contents[q], items, lenDelta, byteSizeDelta)
    requires BandExact(id, contents, p, band)
    ensures BandExact(id, contents[q := items], p,
                      if p == q.flow.priority then BandAfter(band, lenDelta, byteSizeDelta) else band)
  {
    var scope := OfBand(BandId(id, p));
    TotalAfterReplacing(contents, q, items, Counter(scope, Length));
    TotalAfterReplacing(contents, q, items, Counter(scope, Bytes));
    if p == q.flow.priority {
      WrappingAddTracks(band.len, LenTotal(contents, scope), LenTotal(contents[q := items], scope), lenDelta);
      WrappingAddTracks(band.byteSize, ByteTotal(contents, scope), ByteTotal(contents[q := items], scope), byteSizeDelta);
    }
  }

  /** Reconciling with matching deltas keeps every aggregate of the shard exact. */
  lemma TallyStaysExact(id: nat, hasParent: bool, contents: map<QueueId, Items>, tally: Tally, q: QueueId, items: Items,
                        lenDelta: int, byteSizeDelta: int)
    requires q in contents && q.shard == id && DeltasMatch(contents[q], items, lenDelta, byteSizeDelta)
    requires TallyExact(id, hasParent, contents, tally)
    ensures TallyExact(id, hasParent, contents[q := items],
                       TallyAfter(tally, hasParent, q.flow.priority, lenDelta, byteSizeDelta))
  {
    var scope, after := OfShard(id), contents[q := items];
    TotalAfterReplacing(contents, q, items, Counter(scope, Length));
    TotalAfterReplacing(contents, q, items, Counter(scope, Bytes));
    WrappingAddTracks(tally.totalLen, LenTotal(contents, scope), LenTotal(after, scope), lenDelta);
    WrappingAddTracks(tally.totalByteSize, ByteTotal(contents, scope), ByteTotal(after, scope), byteSizeDelta);
    var next := TallyAfter(tally, hasParent, q.flow.priority, lenDelta, byteSizeDelta);
    forall p | p in next.bands ensures BandExact(id, after, p, next.bands[p]) {
      BandStaysExact(id, contents, q, items, p, tally.bands[p], lenDelta, byteSizeDelta);
    }
    if hasParent {
      ReportedSumExtends(tally.reported, (lenDelta, byteSizeDelta));
      CongruentSum(ReportedSum(tally.reported).0, LenTotal(contents, scope), lenDelta, |items| - |contents[q]|);
      CongruentSum(ReportedSum(tally.reported).1, ByteTotal(contents, scope), byteSizeDelta, Sum(items) - Sum(contents[q]));
    }
  }

  lemma EmptyTallyIsExact(id: nat, hasParent: bool, bands: map<nat, Band>)
    requires forall p :: p in bands ==> bands[p].len == 0 && bands[p].byteSize == 0
    ensures TallyExact(id, hasParent, map[], Tally(0, 0, bands, []))
  {
    forall c ensures Total(map[], c) == 0 {
      assert Measured(map[], c) == map[];
    }
    CongruentReflexive(0);
  }

  /** Registering an empty queue changes no total. */
  lemma RegistrationKeepsTallyExact(id: nat, hasParent: bool, contents: map<QueueId, Items>, tally: Tally, q: QueueId)
    requires q !in contents && TallyExact(id, hasParent, contents, tally)
    ensures TallyExact(id, hasParent, contents[q := map[]], tally)
  {
    forall c ensures Total(contents[q := map[]], c) == Total(contents, c) {
      TotalAfterReplacing(contents, q, map[], c);
    }
  }

  predicate Ascending(levels: seq<nat>) {
    forall i, j :: 0 <= i < j < |levels| ==> levels[i] <= levels[j]
  }

  predicate StrictlyAscending(levels: seq<nat>) {
    forall i, j :: 0 <= i < j < |levels| ==> levels[i] < levels[j]
  }

  function Priorities(bands: seq<BandConfig>): (r: seq<nat>) {
    seq(|bands|, i requires 0 <= i < |bands| => bands[i].priority)
  }

  function PrioritySet(bands: seq<BandConfig>): set<nat> {
    set i | 0 <= i < |bands| :: bands[i].priority
  }

  /** The bands and levels are the configured ones. */
  ghost predicate Shaped(config: Config, bands: map<nat, Band>, levels: seq<nat>) {
    && bands.Keys == PrioritySet(config.priorityBands)
    && Ascending(levels) && multiset(levels) == multiset(Priorities(config.priorityBands))
    && (DistinctPriorities(config.priorityBands) ==>
         forall i :: 0 <= i < |config.priorityBands| ==> BandAsConfigured(bands, config.priorityBands[i]))
  }

  predicate BandAsConfigured(bands: map<nat, Band>, band: BandConfig) {
    band.priority in bands && bands[band.priority].config == band
  }

  lemma ReconcilingKeepsShape(config: Config, tally: Tally, levels: seq<nat>, hasParent: bool, priority: nat,
                              lenDelta: int, byteSizeDelta: int)
    requires Shaped(config, tally.bands, levels)
    ensures Shaped(config, TallyAfter(tally, hasParent, priority, lenDelta, byteSizeDelta).bands, levels)
  {
    var next := TallyAfter(tally, hasParent, priority, lenDelta, byteSizeDelta).bands;
    assert next.Keys == tally.bands.Keys;
    assert forall p :: p in next ==> next[p].config == tally.bands[p].config;
    if DistinctPriorities(config.priorityBands) {
      forall i | 0 <= i < |config.priorityBands| ensures BandAsConfigured(next, config.priorityBands[i]) {
        assert BandAsConfigured(tally.bands, config.priorityBands[i]);
      }
    }
  }

  /** Everything a shard keeps: exact aggregates, and the configured bands and levels. */
  ghost predicate ShardExact(id: nat, hasParent: bool, config: Config, levels: seq<nat>,
                             contents: map<QueueId, Items>, tally: Tally)
  {
    TallyExact(id, hasParent, contents, tally) && Shaped(config, tally.bands, levels)
  }

  /**
   A queue with its own atomic counters. `shard` is null for a queue without a parent callback. The parameter `accepted`
   of an operation says whether the underlying queue performed it or returned an error and stayed unchanged.
   */
  class ManagedQueue {
    const flowKey: FlowKey
    const shard: RegistryShard?
    var items: Items
    var len: nat
    var byteSize: nat

    constructor (flowKey: FlowKey, shard: RegistryShard?)
      ensures this.flowKey == flowKey && this.shard == shard
      ensures items == map[] && CountersExact()
    {
      this.flowKey, this.shard := flowKey, shard;
      items, len, byteSize := map[], 0, 0;
      new;
      CongruentReflexive(0);
    }

    ghost predicate CountersExact()
      reads this
    {
      Holds(len, |items|) && Holds(byteSize, Sum(items))
    }

    /** The queue is on its own, or its items are the ones a valid shard accounts for under its flow. */
    ghost predicate Valid()
      reads this, shard
    {
      && CountersExact()
      && (shard != null ==> shard.Valid() && Id() in shard.contents && shard.contents[Id()] == items)
    }

    ghost function Id(): QueueId
      requires shard != null
    {
      QueueId(shard.id, flowKey)
    }

    /** What an operation did: this queue now holds `after`, and the shard accounts for that and for nothing else new. */
    twostate predicate Became(after: Items)
      reads this, shard
    {
      && items == after
      && (shard != null ==>
           && shard.contents == old(shard.contents)[Id() := after]
           && shard.orderedPriorityLevels == old(shard.orderedPriorityLevels)
           && shard.bands.Keys == old(shard.bands.Keys))
    }

    method ReconcileStats(lenDelta: int, byteSizeDelta: int)
      modifies this`len, this`byteSize, shard
      ensures len == WrappingAdd(old(len), lenDelta) && byteSize == WrappingAdd(old(byteSize), byteSizeDelta)
      ensures shard != null ==>
                && shard.Counters() == TallyAfter(old(shard.Counters()), shard.hasParent, flowKey.priority, lenDelta, byteSizeDelta)
                && shard.contents == old(shard.contents)
                && shard.orderedPriorityLevels == old(shard.orderedPriorityLevels)
    {
      len := WrappingAdd(len, lenDelta);
      byteSize := WrappingAdd(byteSize, byteSizeDelta);
      if shard != null {
        shard.ReconcileStats(flowKey.priority, lenDelta, byteSizeDelta);
      }
    }

    /** The items have become `after`; reconciling with the matching deltas restores validity. */
    method Settle(after: Items, lenDelta: int, byteSizeDelta: int)
      requires Valid() && DeltasMatch(items, after, lenDelta, byteSizeDelta)
      modifies this, shard
      ensures Valid() && Became(after)
    {
      ghost var before := items;
      items := after;
      WrappingAddTracks(len, |before|, |after|, lenDelta);
      WrappingAddTracks(byteSize, Sum(before), Sum(after), byteSizeDelta);
      ReconcileStats(lenDelta, byteSizeDelta);
      if shard != null {
        var q := Id();
        TallyStaysExact(shard.id, shard.hasParent, old(shard.contents), old(shard.Counters()), q, after, lenDelta, byteSizeDelta);
        ReconcilingKeepsShape(shard.config, old(shard.Counters()), shard.orderedPriorityLevels, shard.hasParent,
                              flowKey.priority, lenDelta, byteSizeDelta);
        shard.contents := shard.contents[q := after];
      }
    }

    method Add(h: Handle, itemBytes: int, accepted: bool) returns (ok: bool)
      requires Valid() && h !in items && 0 <= itemBytes < MODULUS
      modifies this, shard
      ensures Valid() && ok == accepted
      ensures Became(if ok then old(items)[h := itemBytes] else old(items))
    {
      if !accepted {
        return false;
      }
      AdditionDeltasMatch(items, h, itemBytes);
      Settle(items[h := itemBytes], 1, ToInt64(itemBytes));
      return true;
    }

    /** Returns the byte size of the removed item, or nothing for a handle that is not in the queue. */
    method Remove(h: Handle) returns (removed: Option<int>)
      requires Valid()
      modifies this, shard
      ensures Valid()
      ensures removed == if h in old(items) then Some(old(items)[h]) else None
      ensures Became(old(items) - {h})
    {
      if h !in items {
        assert items - {h} == items;
        return None;
      }
      removed := Some(items[h]);
      RemovalDeltasMatch(items, h);
      Settle(items - {h}, -1, ToInt64(-ToInt64(items[h])));
    }

    /** The loop over the removed items. */
    static method SumDeltas(items: Items, removed: seq<Handle>) returns (lenDelta: int, byteSizeDelta: int)
      requires forall h :: h in removed ==> h in items
      ensures (lenDelta, byteSizeDelta) == RemovalDeltas(items, removed)
    {
      lenDelta, byteSizeDelta := 0, 0;
      for i := 0 to |removed|
        invariant (lenDelta, byteSizeDelta) == RemovalDeltas(items, removed[..i])
      {
        lenDelta := ToInt64(lenDelta - 1);
        byteSizeDelta := ToInt64(byteSizeDelta - ToInt64(items[removed[i]]));
        assert removed[..i + 1][..i] == removed[..i];
      }
      assert removed[..|removed|] == removed;
    }

    /** The loop over the removed items that accumulates the deltas, and the single reconciliation after it. */
    method SettleRemoval(removed: seq<Handle>)
      requires Valid() && Distinct(removed) && forall h :: h in removed ==> h in items
      modifies this, shard
      ensures Valid() && Became(old(items) - HandleSet(removed))
    {
      if |removed| == 0 {
        assert items - HandleSet(removed) == items;
        return;
      }
      var lenDelta, byteSizeDelta := SumDeltas(items, removed);
      RemovalDeltasAreCongruent(items, removed);
      RemovalShrinksMeasures(items, removed);
      Settle(items - HandleSet(removed), lenDelta, byteSizeDelta);
    }

    /** `matching` lists, in any order, the items for which the predicate holds. */
    method Cleanup(matching: seq<Handle>, accepted: bool) returns (cleaned: seq<Handle>)
      requires Valid() && Distinct(matching) && forall h :: h in matching ==> h in items
      modifies this, shard
      ensures Valid() && cleaned == (if accepted then matching else [])
      ensures Became(old(items) - HandleSet(cleaned))
    {
      cleaned := if accepted then matching else [];
      SettleRemoval(cleaned);
    }

    /** `all` lists, in any order, the items of the queue. */
    method Drain(all: seq<Handle>, accepted: bool) returns (drained: seq<Handle>)
      requires Valid() && Distinct(all) && HandleSet(all) == items.Keys
      modifies this, shard
      ensures Valid() && drained == (if accepted then all else [])
      ensures Became(if accepted then map[] else old(items))
    {
      drained := if accepted then all else [];
      assert items - HandleSet(drained) == if accepted then map[] else items;
      SettleRemoval(drained);
    }

    /** `int(mq.len.Load())`: exact for every queue of fewer than 2^63 items, and negative from then on. */
    method Len() returns (n: int)
      requires Valid()
      ensures |items| < MODULUS ==> n == if |items| < HALF then |items| else |items| - MODULUS
    {
      HeldTotalIsRead(len, |items|);
      n := ToInt64(len);
    }

    method ByteSize() returns (n: nat)
      requires Valid()
      ensures 0 <= Sum(items) < MODULUS ==> n == Sum(items)
    {
      HeldTotalIsRead(byteSize, Sum(items));
      n := byteSize;
    }
  }

  class RegistryShard {
    const id: nat
    const config: Config
    const hasParent: bool
    var bands: map<nat, Band>
    var orderedPriorityLevels: seq<nat>
    var totalLen: nat
    var totalByteSize: nat
    ghost var reported: seq<(int, int)>
    ghost var contents: map<QueueId, Items>  // the items of each queue whose callback is this shard's

    ghost function Counters(): Tally
      reads this
    {
      Tally(totalLen, totalByteSize, bands, reported)
    }

    ghost predicate Valid()
      reads this
    {
      ShardExact(id, hasParent, config, orderedPriorityLevels, contents, Counters())
    }

    constructor (id: nat, config: Config, hasParent: bool, bands: map<nat, Band>, orderedPriorityLevels: seq<nat>)
      requires forall p :: p in bands ==> bands[p].len == 0 && bands[p].byteSize == 0
      requires Shaped(config, bands, orderedPriorityLevels)
      ensures Valid() && contents == map[]
      ensures this.id == id && this.config == config && this.hasParent == hasParent
      ensures this.bands == bands && this.orderedPriorityLevels == orderedPriorityLevels
    {
      this.id, this.config, this.hasParent := id, config, hasParent;
      this.bands, this.orderedPriorityLevels := bands, orderedPriorityLevels;
      totalLen, totalByteSize, reported, contents := 0, 0, [], map[];
      new;
      EmptyTallyIsExact(id, hasParent, bands);
    }

    method ReconcileStats(priority: nat, lenDelta: int, byteSizeDelta: int)
      modifies this`totalLen, this`totalByteSize, this`bands, this`reported
      ensures Counters() == TallyAfter(old(Counters()), hasParent, priority, lenDelta, byteSizeDelta)
    {
      totalLen := WrappingAdd(totalLen, lenDelta);
      totalByteSize := WrappingAdd(totalByteSize, byteSizeDelta);
      if priority in bands {
        bands := bands[priority := bands[priority].(len := WrappingAdd(bands[priority].len, lenDelta))];
        bands := bands[priority := bands[priority].(byteSize := WrappingAdd(bands[priority].byteSize, byteSizeDelta))];
      }
      if hasParent {
        reported := reported + [(lenDelta, byteSizeDelta)];
      }
    }

    /** Accounts for a new queue of a configured band, whose callback is this shard's. */
    method Register(q: ManagedQueue)
      requires Valid() && q.shard == this && q.Id() !in contents && q.flowKey.priority in bands
      requires q.items == map[] && q.CountersExact()
      modifies this`contents
      ensures Valid() && q.Valid()
      ensures contents == old(contents)[q.Id() := map[]]
    {
      RegistrationKeepsTallyExact(id, hasParent, contents, Counters(), q.Id());
      contents := contents[q.Id() := map[]];
    }

    /** One entry per configured band; each reads the true totals of that band's queues when they fit a word. */
    method Stats() returns (stats: ShardStats)
      requires Valid()
      ensures StatsAsConfigured(config, stats)
      ensures LenTotal(contents, OfShard(id)) < MODULUS ==> stats.totalLen == LenTotal(contents, OfShard(id))
      ensures 0 <= ByteTotal(contents, OfShard(id)) < MODULUS ==> stats.totalByteSize == ByteTotal(contents, OfShard(id))
      ensures forall p :: p in bands ==> p in stats.perPriorityBandStats && StatsOfBand(p, stats.perPriorityBandStats[p])
    {
      LenTotalIsNatural(contents, OfShard(id));
      HeldTotalIsRead(totalLen, LenTotal(contents, OfShard(id)));
      HeldTotalIsRead(totalByteSize, ByteTotal(contents, OfShard(id)));
      var perBand := AllBandStats();
      forall p | p in bands ensures StatsOfBand(p, perBand[p]) {
        StatsReadTheBand(p);
      }
      stats := ShardStats(config.maxBytes, totalByteSize, totalLen, perBand);
      BandEntriesAsConfigured(config, bands, orderedPriorityLevels, stats);
    }

    /** The levels name each band once, highest priority first. */
    method AllOrderedPriorityLevels() returns (levels: seq<nat>)
      requires Valid()
      ensures DistinctPriorities(config.priorityBands) ==>
                StrictlyAscending(levels) && (set l | l in levels) == PrioritySet(config.priorityBands) == bands.Keys
    {
      levels := orderedPriorityLevels;
      if DistinctPriorities(config.priorityBands) {
        DistinctLevelsAreStrict(config.priorityBands, levels);
      }
    }

    method AllBandStats() returns (perBand: map<nat, BandStats>)
      ensures perBand.Keys == bands.Keys
      ensures forall p :: p in bands ==> perBand[p] == BandEntry(p, bands[p])
    {
      perBand := map[];
      var todo := bands.Keys;
      while todo != {}
        invariant todo <= bands.Keys && perBand.Keys == bands.Keys - todo
        invariant forall p :: p in perBand ==> perBand[p] == BandEntry(p, bands[p])
        decreases todo
      {
        var p :| p in todo;
        perBand := perBand[p := BandEntry(p, bands[p])];
        todo := todo - {p};
      }
    }

    lemma StatsReadTheBand(p: nat)
      requires Valid() && p in bands
      ensures StatsOfBand(p, BandEntry(p, bands[p]))
    {
      var scope := OfBand(BandId(id, p));
      assert BandExact(id, contents, p, bands[p]);
      LenTotalIsNatural(contents, scope);
      HeldTotalIsRead(bands[p].len, LenTotal(contents, scope));
      HeldTotalIsRead(bands[p].byteSize, ByteTotal(contents, scope));
    }

    ghost predicate StatsOfBand(p: nat, s: BandStats)
      reads this
    {
      var scope := OfBand(BandId(id, p));
      && p in bands
      && s.priority == p && s.priorityName == bands[p].config.priorityName && s.capacityBytes == bands[p].config.maxBytes
      && (LenTotal(contents, scope) < MODULUS ==> s.len == LenTotal(contents, scope))
      && (0 <= ByteTotal(contents, scope) < MODULUS ==> s.byteSize == ByteTotal(contents, scope))
    }
  }

  /** A shard's statistics show the capacity of its configuration, and for each of its bands and only these that of the band. */
  ghost predicate StatsAsConfigured(config: Config, stats: ShardStats) {
    && stats.totalCapacityBytes == config.maxBytes
    && stats.perPriorityBandStats.Keys == PrioritySet(config.priorityBands)
    && (DistinctPriorities(config.priorityBands) ==>
         forall i :: 0 <= i < |config.priorityBands| ==> BandStatsAsConfigured(config.priorityBands[i], stats))
  }

  predicate BandStatsAsConfigured(band: BandConfig, stats: ShardStats) {
    && band.priority in stats.perPriorityBandStats
    && var entry := stats.perPriorityBandStats[band.priority];
       entry.capacityBytes == band.maxBytes && entry.priority == band.priority && entry.priorityName == band.priorityName
  }

  lemma BandEntriesAsConfigured(config: Config, bands: map<nat, Band>, levels: seq<nat>, stats: ShardStats)
    requires Shaped(config, bands, levels) && stats.totalCapacityBytes == config.maxBytes
    requires stats.perPriorityBandStats.Keys == bands.Keys
    requires forall p :: p in bands ==> stats.perPriorityBandStats[p] == BandEntry(p, bands[p])
    ensures StatsAsConfigured(config, stats)
  {
    if DistinctPriorities(config.priorityBands) {
      forall i | 0 <= i < |config.priorityBands| ensures BandStatsAsConfigured(config.priorityBands[i], stats) {
        assert BandAsConfigured(bands, config.priorityBands[i]);
      }
    }
  }

  lemma LenTotalIsNatural(contents: map<QueueId, Items>, scope: Scope)
    ensures 0 <= LenTotal(contents, scope)
  {
    var measured := Measured(contents, Counter(scope, Length));
    SumOfZeros(map q | q in measured :: 0);
    SumIsMonotone(map q | q in measured :: 0, measured);
  }

  // ---------- Creating a shard ----------

  function Inserted(level: nat, levels: seq<nat>): (r: seq<nat>)
    ensures multiset(r) == multiset(levels) + multiset{level}
  {
    if levels == [] || level <= levels[0] then
      [level] + levels
    else
      assert levels == [levels[0]] + levels[1..];
      [levels[0]] + Inserted(level, levels[1..])
  }

  lemma AscendingExtends(level: nat, rest: seq<nat>)
    requires Ascending(rest) && forall j :: 0 <= j < |rest| ==> level <= rest[j]
    ensures Ascending([level] + rest)
  {
  }

  lemma {:induction false} InsertedIsAscending(level: nat, levels: seq<nat>)
    requires Ascending(levels)
    ensures Ascending(Inserted(level, levels))
    decreases |levels|
  {
    if levels != [] && level > levels[0] {
      var rest := Inserted(level, levels[1..]);
      InsertedIsAscending(level, levels[1..]);
      forall j | 0 <= j < |rest| ensures levels[0] <= rest[j] {
        assert rest[j] in multiset(rest);
        assert rest[j] in levels[1..] || rest[j] == level;
      }
      AscendingExtends(levels[0], rest);
    }
  }

  /** `slices.Sort` */
  method Sort(levels: seq<nat>) returns (sorted: seq<nat>)
    ensures Ascending(sorted) && multiset(sorted) == multiset(levels)
  {
    sorted := [];
    for i := 0 to |levels|
      invariant Ascending(sorted) && multiset(sorted) == multiset(levels[..i])
    {
      InsertedIsAscending(levels[i], sorted);
      sorted := Inserted(levels[i], sorted);
      assert levels[..i + 1] == levels[..i] + [levels[i]];
    }
    assert levels[..|levels|] == levels;
  }

  predicate PoliciesKnown(catalog: Catalog, band: BandConfig) {
    band.interFlowPolicy in catalog.interFlowPolicies && band.intraFlowPolicy in catalog.intraFlowPolicies
  }

  /** Sorted levels of distinct priorities are strictly ascending, and list each priority once. */
  lemma DistinctLevelsAreStrict(bands: seq<BandConfig>, levels: seq<nat>)
    requires DistinctPriorities(bands) && Ascending(levels) && multiset(levels) == multiset(Priorities(bands))
    ensures StrictlyAscending(levels)
    ensures (set l | l in levels) == PrioritySet(bands)
  {
    var given := Priorities(bands);
    assert forall i :: 0 <= i < |bands| ==> given[i] == bands[i].priority;
    forall l ensures l in levels <==> l in given {
      assert l in levels <==> l in multiset(levels);
      assert l in given <==> l in multiset(given);
    }
    forall i, j | 0 <= i < j < |levels| && levels[i] == levels[j] ensures false {
      assert levels == levels[..i] + [levels[i]] + levels[i + 1..j] + [levels[j]] + levels[j + 1..];
      assert multiset(given)[levels[i]] >= 2;
      DistinctHasNoRepeats(given, levels[i]);
    }
  }

  lemma {:induction false} DistinctHasNoRepeats(s: seq<nat>, x: nat)
    requires forall i, j :: 0 <= i < j < |s| ==> s[i] != s[j]
    ensures multiset(s)[x] <= 1
    decreases |s|
  {
    if s != [] {
      assert s == [s[0]] + s[1..];
      DistinctHasNoRepeats(s[1..], x);
      if x == s[0] {
        assert x !in s[1..];
      }
    }
  }

  predicate ShardPossible(catalog: Catalog, config: Config) {
    forall i :: 0 <= i < |config.priorityBands| ==> PoliciesKnown(catalog, config.priorityBands[i])
  }

  /** Fails exactly when some band names an unregistered policy; otherwise the shard is empty and as configured. */
  method NewShard(id: nat, config: Config, hasParent: bool, catalog: Catalog) returns (shard: RegistryShard?)
    ensures shard != null <==> ShardPossible(catalog, config)
    ensures shard != null ==>
              && fresh(shard) && shard.Valid() && shard.contents == map[]
              && shard.config == config && shard.id == id && shard.hasParent == hasParent
              && Shaped(config, shard.bands, shard.orderedPriorityLevels)
    ensures shard != null && DistinctPriorities(config.priorityBands) ==>
              StrictlyAscending(shard.orderedPriorityLevels) && (set l | l in shard.orderedPriorityLevels) == shard.bands.Keys
  {
    var configs := config.priorityBands;
    var bands: map<nat, Band> := map[];
    var levels: seq<nat> := [];
    for i := 0 to |configs|
      invariant forall j :: 0 <= j < i ==> PoliciesKnown(catalog, configs[j])
      invariant forall p :: p in bands ==> bands[p].len == 0 && bands[p].byteSize == 0
      invariant bands.Keys == set j | 0 <= j < i :: configs[j].priority
      invariant levels == Priorities(configs)[..i]
      invariant DistinctPriorities(configs) ==> forall j :: 0 <= j < i ==> BandAsConfigured(bands, configs[j])
    {
      if configs[i].interFlowPolicy !in catalog.interFlowPolicies || configs[i].intraFlowPolicy !in catalog.intraFlowPolicies {
        assert !PoliciesKnown(catalog, configs[i]);
        return null;
      }
      bands := bands[configs[i].priority := Band(configs[i], 0, 0)];
      levels := levels + [configs[i].priority];
    }
    assert Priorities(configs)[..|configs|] == Priorities(configs);
    levels := Sort(levels);
    shard := new RegistryShard(id, config, hasParent, bands, levels);
    if DistinctPriorities(configs) {
      DistinctLevelsAreStrict(configs, levels);
    }
  }

  // ---------- From a validated configuration to the statistics of its shards ----------

  /** Partitioning keeps every band's priority and policies, so each partition of an accepted configuration is distinct. */
  lemma PartitionKeepsBands(catalog: Catalog, c: Config, shardIndex: int, totalShards: int)
    requires Partition(c, shardIndex, totalShards).Some? && DistinctPriorities(c.priorityBands)
    ensures var p := Partition(c, shardIndex, totalShards).value;
      && DistinctPriorities(p.priorityBands)
      && |p.priorityBands| == |c.priorityBands|
      && forall i :: 0 <= i < |c.priorityBands| ==>
           && p.priorityBands[i].(maxBytes := c.priorityBands[i].maxBytes) == c.priorityBands[i]
           && (PoliciesKnown(catalog, p.priorityBands[i]) <==> PoliciesKnown(catalog, c.priorityBands[i]))
  {
  }

  function Validated(c: Config): Config {
    Config(c.maxBytes, DefaultedAll(c.priorityBands))
  }

  predicate InterFlowPoliciesKnown(catalog: Catalog, bands: seq<BandConfig>) {
    forall i :: 0 <= i < |bands| ==> Defaulted(bands[i]).interFlowPolicy in catalog.interFlowPolicies
  }

  /**
   Validation does not look at the inter-flow policies: every partition of an accepted configuration yields a shard if
   and only if each of them is registered.
   */
  lemma EveryPartitionYieldsAShardIff(catalog: Catalog, c: Config, totalShards: nat)
    requires Acceptable(catalog, c.priorityBands) && totalShards > 0
    ensures (forall k: nat :: k < totalShards ==> ShardPossible(catalog, Partition(Validated(c), k, totalShards).value))
            <==> InterFlowPoliciesKnown(catalog, c.priorityBands)
  {
    forall k: nat | k < totalShards
      ensures ShardPossible(catalog, Partition(Validated(c), k, totalShards).value)
              <==> InterFlowPoliciesKnown(catalog, c.priorityBands)
    {
      PartitionPossibleIff(catalog, c, k, totalShards);
    }
    var first: nat := 0;
    assert ShardPossible(catalog, Partition(Validated(c), first, totalShards).value)
           <==> InterFlowPoliciesKnown(catalog, c.priorityBands);
  }

  lemma PartitionPossibleIff(catalog: Catalog, c: Config, k: nat, totalShards: nat)
    requires Acceptable(catalog, c.priorityBands) && k < totalShards
    ensures ShardPossible(catalog, Partition(Validated(c), k, totalShards).value)
            <==> InterFlowPoliciesKnown(catalog, c.priorityBands)
  {
    var p := Partition(Validated(c), k, totalShards).value;
    forall i | 0 <= i < |c.priorityBands|
      ensures PoliciesKnown(catalog, p.priorityBands[i])
              <==> Defaulted(c.priorityBands[i]).interFlowPolicy in catalog.interFlowPolicies
    {
      assert BandAcceptable(catalog, c.priorityBands[i]);
    }
  }

  /** An accepted configuration none of whose partitions yields a shard. */
  lemma UnknownInterFlowPolicyIsAccepted(totalShards: nat, k: nat)
    requires k < totalShards
    ensures var catalog := Catalog(map[FCFS_POLICY_NAME := {}], {BEST_HEAD_POLICY_NAME}, map[LIST_QUEUE_NAME := {}]);
      var c := Config(100, [BandConfig(0, "High", "", "no-such-policy", "", 100)]);
      && Acceptable(catalog, c.priorityBands)
      && !ShardPossible(catalog, Partition(Validated(c), k, totalShards).value)
  {
    var catalog := Catalog(map[FCFS_POLICY_NAME := {}], {BEST_HEAD_POLICY_NAME}, map[LIST_QUEUE_NAME := {}]);
    var c := Config(100, [BandConfig(0, "High", "", "no-such-policy", "", 100)]);
    assert Defaulted(c.priorityBands[0]).interFlowPolicy == "no-such-policy" && |"no-such-policy"| == 14;
    assert |BEST_HEAD_POLICY_NAME| == 8;
    PartitionPossibleIff(catalog, c, k, totalShards);
  }

  lemma PartitionKeepsPriorities(c: Config, k: nat, totalShards: nat)
    requires k < totalShards
    ensures PrioritySet(Partition(Validated(c), k, totalShards).value.priorityBands) == PrioritySet(c.priorityBands)
  {
    var bands := Partition(Validated(c), k, totalShards).value.priorityBands;
    assert forall i :: 0 <= i < |bands| ==> bands[i].priority == c.priorityBands[i].priority;
  }

  ghost function CapacitySum(stats: seq<ShardStats>): nat {
    if stats == [] then 0 else CapacitySum(stats[..|stats| - 1]) + stats[|stats| - 1].totalCapacityBytes
  }

  ghost function BandCapacitySum(stats: seq<ShardStats>, priority: nat): nat
    requires forall k :: 0 <= k < |stats| ==> priority in stats[k].perPriorityBandStats
  {
    if stats == [] then 0 else
      BandCapacitySum(stats[..|stats| - 1], priority) + stats[|stats| - 1].perPriorityBandStats[priority].capacityBytes
  }

  /** `stats` are statistics of the shards built from the partitions of a configuration, one for each. */
  ghost predicate StatsOfShards(c: Config, stats: seq<ShardStats>, totalShards: nat) {
    |stats| <= totalShards && forall k :: 0 <= k < |stats| ==> StatsAsConfigured(Partition(c, k, totalShards).value, stats[k])
  }

  /**
   The statistics of all shards of an accepted configuration have exactly the configured priorities as keys; their
   capacities add up to the configured one, in all and band by band.
   */
  lemma {:induction false} ShardCapacitiesAddUp(catalog: Catalog, c: Config, stats: seq<ShardStats>, band: nat)
    requires Acceptable(catalog, c.priorityBands) && band < |c.priorityBands|
    requires |stats| > 0 && StatsOfShards(Validated(c), stats, |stats|)
    ensures forall k :: 0 <= k < |stats| ==> stats[k].perPriorityBandStats.Keys == PrioritySet(c.priorityBands)
    ensures CapacitySum(stats) == c.maxBytes
    ensures c.priorityBands[band].priority in PrioritySet(c.priorityBands)
    ensures BandCapacitySum(stats, c.priorityBands[band].priority) == c.priorityBands[band].maxBytes
  {
    var v, p := Validated(c), c.priorityBands[band].priority;
    assert p in PrioritySet(c.priorityBands);
    forall k | 0 <= k < |stats| ensures stats[k].perPriorityBandStats.Keys == PrioritySet(c.priorityBands) {
      PartitionKeepsPriorities(c, k, |stats|);
      assert StatsAsConfigured(Partition(v, k, |stats|).value, stats[k]);
    }
    StatsSumPartitions(catalog, v, stats, band, |stats|);
    PartitionConservesCapacity(v, |stats|, band);
  }

  lemma {:induction false} StatsSumPartitions(catalog: Catalog, c: Config, stats: seq<ShardStats>, band: nat, totalShards: nat)
    requires DistinctPriorities(c.priorityBands) && band < |c.priorityBands| && 0 < totalShards
    requires StatsOfShards(c, stats, totalShards)
    requires forall k :: 0 <= k < |stats| ==> c.priorityBands[band].priority in stats[k].perPriorityBandStats
    ensures CapacitySum(stats) == PartitionedMaxBytes(c, |stats|, totalShards)
    ensures BandCapacitySum(stats, c.priorityBands[band].priority) == PartitionedBandBytes(c, band, |stats|, totalShards)
    decreases |stats|
  {
    if stats != [] {
      var last := |stats| - 1;
      StatsSumPartitions(catalog, c, stats[..last], band, totalShards);
      var part := Partition(c, last, totalShards).value;
      PartitionKeepsBands(catalog, c, last, totalShards);
      assert StatsAsConfigured(part, stats[last]);
      assert BandStatsAsConfigured(part.priorityBands[band], stats[last]);
    }
  }
}
