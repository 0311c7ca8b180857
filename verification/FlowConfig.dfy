/** Configuration of the flow registry: defaulting and validation of the priority bands, and partitioning over shards. */
module FlowConfig {
  import opened Wrappers

  datatype BandConfig = BandConfig(
    priority: nat,
    priorityName: string,
    intraFlowPolicy: string,
    interFlowPolicy: string,
    queue: string,
    maxBytes: nat)

  datatype Config = Config(maxBytes: nat, priorityBands: seq<BandConfig>)

  /** The registered plugins: what each intra-flow policy requires of a queue, and what each queue type offers. */
  datatype Catalog = Catalog(
    intraFlowPolicies: map<string, set<string>>,
    interFlowPolicies: set<string>,
    queues: map<string, set<string>>)

  const FCFS_POLICY_NAME := "FCFS"
  const BEST_HEAD_POLICY_NAME := "BestHead"
  const LIST_QUEUE_NAME := "ListQueue"

  // ---------- Partitioning ----------

  function Share(total: nat, shardIndex: nat, totalShards: nat): nat
    requires totalShards > 0
  {
    if total == 0 then 0 else
      var base, remainder := total / totalShards, total % totalShards;
      if shardIndex < remainder then base + 1 else base
  }

  function PartitionBand(band: BandConfig, shardIndex: nat, totalShards: nat): BandConfig
    requires totalShards > 0
  {
    band.(maxBytes := Share(band.maxBytes, shardIndex, totalShards))
  }

  function Partition(c: Config, shardIndex: int, totalShards: int): (r: Option<Config>)
  {
    if totalShards <= 0 || shardIndex < 0 || shardIndex >= totalShards then None else
      Some(Config(Share(c.maxBytes, shardIndex, totalShards),
                  seq(|c.priorityBands|, i requires 0 <= i < |c.priorityBands| =>
                    PartitionBand(c.priorityBands[i], shardIndex, totalShards))))
  }

  /** Partitioning fails exactly on arguments that name no shard, and otherwise keeps all but the byte limits. */
  lemma PartitionFailsIff(c: Config, shardIndex: int, totalShards: int)
    ensures Partition(c, shardIndex, totalShards).None? <==> !(0 <= shardIndex < totalShards)
    ensures Partition(c, shardIndex, totalShards).Some? ==>
              var p := Partition(c, shardIndex, totalShards).value;
              && |p.priorityBands| == |c.priorityBands|
              && forall i :: 0 <= i < |c.priorityBands| ==>
                   c.priorityBands[i] == p.priorityBands[i].(maxBytes := c.priorityBands[i].maxBytes)
  {
  }

  /** What the first `count` shards receive together. */
  ghost function SharesUpTo(total: nat, count: nat, totalShards: nat): nat
    requires totalShards > 0
  {
    if count == 0 then 0 else SharesUpTo(total, count - 1, totalShards) + Share(total, count - 1, totalShards)
  }

  lemma ShareIs(total: nat, shardIndex: nat, totalShards: nat)
    requires totalShards > 0
    ensures Share(total, shardIndex, totalShards)
         == total / totalShards + if shardIndex < total % totalShards then 1 else 0
  {
  }

  lemma OneMoreTime(count: nat, base: nat)
    requires count > 0
    ensures count * base == (count - 1) * base + base
  {
  }

  lemma {:induction false} SharesUpToClosedForm(total: nat, count: nat, totalShards: nat)
    requires totalShards > 0
    ensures var remainder := total % totalShards;
      SharesUpTo(total, count, totalShards)
        == count * (total / totalShards) + if count < remainder then count else remainder
  {
    if count > 0 {
      SharesUpToClosedForm(total, count - 1, totalShards);
      ShareIs(total, count - 1, totalShards);
      OneMoreTime(count, total / totalShards);
    }
  }

  /** Nothing of a capacity is lost or invented by partitioning it. */
  lemma SharesSumToTotal(total: nat, totalShards: nat)
    requires totalShards > 0
    ensures SharesUpTo(total, totalShards, totalShards) == total
  {
    SharesUpToClosedForm(total, totalShards, totalShards);
  }

  /** Shares never grow with the shard index, differ by at most one, and vanish exactly from index `total` on. */
  lemma SharesAreEven(total: nat, i: nat, j: nat, totalShards: nat)
    requires i <= j < totalShards
    ensures Share(total, j, totalShards) <= Share(total, i, totalShards) <= Share(total, j, totalShards) + 1
    ensures Share(total, i, totalShards) == 0 <==> i >= total
  {
  }

  ghost function PartitionedMaxBytes(c: Config, count: nat, totalShards: nat): nat
    requires count <= totalShards
  {
    if count == 0 then 0 else
      PartitionedMaxBytes(c, count - 1, totalShards) + Partition(c, count - 1, totalShards).value.maxBytes
  }

  ghost function PartitionedBandBytes(c: Config, band: nat, count: nat, totalShards: nat): nat
    requires count <= totalShards && band < |c.priorityBands|
  {
    if count == 0 then 0 else
      PartitionedBandBytes(c, band, count - 1, totalShards)
      + Partition(c, count - 1, totalShards).value.priorityBands[band].maxBytes
  }

  /** The global limit and every band's limit, summed over all partitions, are the configured ones. */
  lemma PartitionConservesCapacity(c: Config, totalShards: nat, band: nat)
    requires totalShards > 0 && band < |c.priorityBands|
    ensures PartitionedMaxBytes(c, totalShards, totalShards) == c.maxBytes
    ensures PartitionedBandBytes(c, band, totalShards, totalShards) == c.priorityBands[band].maxBytes
  {
    PartitionedIsShares(c, band, totalShards, totalShards);
    SharesSumToTotal(c.maxBytes, totalShards);
    SharesSumToTotal(c.priorityBands[band].maxBytes, totalShards);
  }

  lemma {:induction false} PartitionedIsShares(c: Config, band: nat, count: nat, totalShards: nat)
    requires 0 < totalShards && count <= totalShards && band < |c.priorityBands|
    ensures PartitionedMaxBytes(c, count, totalShards) == SharesUpTo(c.maxBytes, count, totalShards)
    ensures PartitionedBandBytes(c, band, count, totalShards)
         == SharesUpTo(c.priorityBands[band].maxBytes, count, totalShards)
    decreases count
  {
    if count > 0 {
      PartitionedIsShares(c, band, count - 1, totalShards);
    }
  }

  // ---------- Defaulting and validation ----------

  function Defaulted(band: BandConfig): BandConfig {
    band.(
    intraFlowPolicy := if band.intraFlowPolicy == "" then FCFS_POLICY_NAME else band.intraFlowPolicy,
    interFlowPolicy := if band.interFlowPolicy == "" then BEST_HEAD_POLICY_NAME else band.interFlowPolicy,
    queue := if band.queue == "" then LIST_QUEUE_NAME else band.queue)
  }

  function DefaultedAll(bands: seq<BandConfig>): (r: seq<BandConfig>) {
    seq(|bands|, i requires 0 <= i < |bands| => Defaulted(bands[i]))
  }

  /** The queue type is looked up only when the policy requires something of it. */
  predicate BandCompatible(catalog: Catalog, band: BandConfig) {
    && band.intraFlowPolicy in catalog.intraFlowPolicies
    && var required := catalog.intraFlowPolicies[band.intraFlowPolicy];
       required == {} || (band.queue in catalog.queues && required <= catalog.queues[band.queue])
  }

  predicate DistinctPriorities(bands: seq<BandConfig>) {
    forall i, j :: 0 <= i < j < |bands| ==> bands[i].priority != bands[j].priority
  }

  predicate BandAcceptable(catalog: Catalog, band: BandConfig) {
    band.priorityName != "" && BandCompatible(catalog, Defaulted(band))
  }

  predicate Acceptable(catalog: Catalog, bands: seq<BandConfig>) {
    && bands != []
    && DistinctPriorities(bands)
    && forall i :: 0 <= i < |bands| ==> BandAcceptable(catalog, bands[i])
  }

  /** The first `k` bands have been defaulted, the others are as given. */
  predicate DefaultedUpTo(given: seq<BandConfig>, bands: seq<BandConfig>, k: int) {
    && 0 <= k <= |given| == |bands|
    && (forall j :: 0 <= j < k ==> bands[j] == Defaulted(given[j]))
    && (forall j :: k <= j < |given| ==> bands[j] == given[j])
  }

  /** The master configuration, whose bands are defaulted in place. */
  class MasterConfig {
    var maxBytes: nat
    var priorityBands: seq<BandConfig>

    constructor (c: Config)
      ensures maxBytes == c.maxBytes && priorityBands == c.priorityBands
    {
      maxBytes, priorityBands := c.maxBytes, c.priorityBands;
    }

    /**
     Succeeds exactly on acceptable configurations and then has defaulted every band; on failure the bands before the
     offending one, and possibly that one, have been defaulted already.
     */
    method ValidateAndApplyDefaults(catalog: Catalog) returns (ok: bool)
      modifies this
      ensures maxBytes == old(maxBytes)
      ensures ok <==> Acceptable(catalog, old(priorityBands))
      ensures ok ==> priorityBands == DefaultedAll(old(priorityBands))
      ensures exists k :: DefaultedUpTo(old(priorityBands), priorityBands, k)
    {
      ghost var given := priorityBands;
      if |priorityBands| == 0 {
        assert DefaultedUpTo(given, priorityBands, 0);
        return false;
      }
      var seen: set<nat> := {};
      var i := 0;
      while i < |priorityBands|
        invariant DefaultedUpTo(given, priorityBands, i)
        invariant maxBytes == old(maxBytes)
        invariant forall j :: 0 <= j < i ==> given[j].priority in seen
        invariant forall p :: p in seen ==> exists j :: 0 <= j < i && given[j].priority == p
        invariant forall j, k :: 0 <= j < k < i ==> given[j].priority != given[k].priority
        invariant forall j :: 0 <= j < i ==> BandAcceptable(catalog, given[j])
      {
        var band := priorityBands[i];
        assert band == given[i];
        if band.priority in seen {
          ghost var j :| 0 <= j < i && given[j].priority == band.priority;
          return false;
        }
        seen := seen + {band.priority};
        if band.priorityName == "" {
          assert !BandAcceptable(catalog, given[i]);
          return false;
        }
        priorityBands := priorityBands[i := Defaulted(band)];
        assert DefaultedUpTo(given, priorityBands, i + 1);
        if !BandCompatible(catalog, Defaulted(band)) {
          assert !BandAcceptable(catalog, given[i]);
          return false;
        }
        i := i + 1;
      }
      assert priorityBands == DefaultedAll(given);
      return true;
    }
  }

  /** A configuration that was accepted is accepted again and is not changed by the second call. */
  lemma ValidationIsIdempotent(catalog: Catalog, bands: seq<BandConfig>)
    requires Acceptable(catalog, bands)
    ensures Acceptable(catalog, DefaultedAll(bands))
    ensures DefaultedAll(DefaultedAll(bands)) == DefaultedAll(bands)
  {
    forall i | 0 <= i < |bands| ensures Defaulted(Defaulted(bands[i])) == Defaulted(bands[i]) {
      assert |FCFS_POLICY_NAME| == 4 && |BEST_HEAD_POLICY_NAME| == 8 && |LIST_QUEUE_NAME| == 9;
    }
    forall i | 0 <= i < |bands| ensures BandAcceptable(catalog, DefaultedAll(bands)[i]) {
      assert BandAcceptable(catalog, bands[i]);
    }
  }

  // ---------- What validation grants ----------

  /** Field by field: what is given is kept, and what is missing becomes the system's default. */
  lemma DefaultsFillEmptyFields(band: BandConfig)
    ensures var d := Defaulted(band);
      && d.priority == band.priority && d.priorityName == band.priorityName && d.maxBytes == band.maxBytes
      && (band.intraFlowPolicy != "" ==> d.intraFlowPolicy == band.intraFlowPolicy)
      && (band.intraFlowPolicy == "" ==> d.intraFlowPolicy == "FCFS")
      && (band.interFlowPolicy != "" ==> d.interFlowPolicy == band.interFlowPolicy)
      && (band.interFlowPolicy == "" ==> d.interFlowPolicy == "BestHead")
      && (band.queue != "" ==> d.queue == band.queue)
      && (band.queue == "" ==> d.queue == "ListQueue")
  {
  }

  /**
   A configuration is accepted if and only if it has a band, no priority twice, and for each band a name and a
   registered intra-flow policy each of whose required capabilities the band's queue type offers.
   */
  lemma AcceptedIffServed(catalog: Catalog, bands: seq<BandConfig>)
    ensures Acceptable(catalog, bands) <==>
            && |bands| > 0
            && (forall i, j :: 0 <= i < |bands| && 0 <= j < |bands| && i != j ==> bands[i].priority != bands[j].priority)
            && forall i :: 0 <= i < |bands| ==> bands[i].priorityName != "" && Served(catalog, DefaultedAll(bands)[i])
  {
    if Acceptable(catalog, bands) {
      forall i | 0 <= i < |bands| ensures bands[i].priorityName != "" && Served(catalog, DefaultedAll(bands)[i]) {
        assert BandAcceptable(catalog, bands[i]);
      }
    } else if bands != [] && DistinctPriorities(bands) {
      var i :| 0 <= i < |bands| && !BandAcceptable(catalog, bands[i]);
      assert bands[i].priorityName == "" || !Served(catalog, DefaultedAll(bands)[i]);
    }
  }

  /** The policy is registered, and the queue type offers whatever the policy requires. */
  predicate Served(catalog: Catalog, band: BandConfig) {
    && band.intraFlowPolicy in catalog.intraFlowPolicies
    && forall capability :: capability in catalog.intraFlowPolicies[band.intraFlowPolicy] ==>
         band.queue in catalog.queues && capability in catalog.queues[band.queue]
  }
}
