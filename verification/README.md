# Verification of the inference gateway extension

A Dafny model of the stateful core of the gateway API inference extension: the endpoint picker (Go, `pkg/epp`) and the
LLM actor of its simulator (Python, `tools/simulations/llm_ig_simulation`), with proofs about it.

`dafny verify dfyconfig.toml` checks everything.

| files | component |
|---|---|
| `Word64`, `Sums`, `FlowAccounting`, `FlowConfig`, `FlowRegistry` | flow-control registry: statistics under concurrency, partitioned configuration, queues and shards |
| `BatchScheduler`, `BatchRuns`, `BatchInterleavings`, `LLMActor` | continuous-batching scheduler of the simulator |
| `PodDatastore`, `DatastoreObjects` | pod cache of the endpoint picker and the reconciler that feeds it |
| `StreamHandler`, `StreamOrder`, `StreamBodies`, `StreamAnswers`, `StreamGauge`, `StreamServer` | the external-processing stream between the proxy and the endpoint picker |
| `MetricSpecs`, `MetricSpecProofs` | parser of metric specifications |
| `ConfigProfiles`, `ConfigDefaults`, `ConfigOrders`, `ConfigLoader` | loading of the endpoint-picker configuration |
| `Wrappers`, `Sequences` | optional values, associativity of concatenation |

Each component has a value model, whose functions are the specification, and, where the source updates things in place,
classes and methods with loops that are proved to compute it.

## Main results

*Flow control.* A queue operation changes the contents under a lock and then performs a row of separate atomic
additions on the counters of the queue, the shard, the band and the registry. The model interleaves these additions
over any number of threads. In every run, at every moment, counter plus what is still in flight equals contents modulo
2^64 (`EveryRunIsAccounted`); a counter is exact if and only if what is in flight cancels out
(`ExactIffNothingInFlight`), in particular at rest. The contents are those of the history: what was added and neither
removed, cleaned up nor drained since (`QueuesHoldTheirHistory`). The counters do not only lag: one can read 2^64 - 1
for an empty queue (`CounterCanWrapTransiently`). Partitioning a capacity over shards conserves it and is even, down
to the capacities that the shards report (`ShardCapacitiesAddUp`). Validation does not look at inter-flow policies, so
an accepted configuration yields its shards if and only if these are registered (`EveryPartitionYieldsAShardIff`).

*Batching.* Every run conserves requests: each is in exactly one store, with an amount of outstanding output that fits
the store. The batch is the longest that fits, recompute store first (`BatchIsMaximal`). The cache stays within its
bounds after every round, the error and the assertion in the source are unreachable, and an actor without arrivals
drains within twice its outstanding output. Requests may arrive at any `get` in the middle of an iteration;
`InterruptedIterationSplits` shows that this is the same as some arriving before it and the others after it. Requests
are fresh as the source makes them: at most 512 input tokens (`loadbalancer.py:580`), at least one output token
(`request.py:47`), a known adapter or none.

*Pod cache.* Cluster changes, asynchronous delivery through the event filter, the work queue, failed reads and
listings, pool changes and clears are steps of one system. Whenever nothing is pending for a pod, the cache is right
for it unless a listing that was needed has failed since its entry was last refreshed (`CacheRightIff`, which also
says when it is right nevertheless). The pool is stored although the listing failed, so retries do not resync:
`FailedListLosesAReadyPod` is a run that ends with nothing pending and a ready pod missing.

*Stream.* Whatever messages arrive and whichever send fails, responses leave in the order of the protocol
(`EveryTraceIsInGrammar`), errors are answered once and end the stream, accepted requests and re-encoded responses go
out in full or up to the first failing send (`AcceptedRequestIsForwarded`, `JsonResponseIsReencoded`), the announced
Content-Length is that of the body sent, and streaming responses pass through byte for byte, or a prefix of them does
if the stream ends early. Two expectations fail in general, with a stream that shows it and the exact condition for
each. Both directions share one buffer, so an unparseable buffered response is re-emitted unchanged if and only if the
buffer holds just the response; for a response that follows its request this means that no request bytes came after
the last end of the request body. The running-requests gauge stays right if and only if no message renames a running
stream.

*Metric specifications.* A text is accepted if and only if it is the print of a layout, with the meaning of that
layout; printing and parsing are inverse on well-formed specifications.

*Configuration.* The code ranges over a map to list the plugins of a default profile and to choose a picker, so
loading depends on the order of that map. Two conditions on the configuration, the registry and the handle, as they
are before the call, say when loading succeeds in every order and when in some (`EveryOrderLoadsIff`,
`SomeOrderLoadsIff`). A loaded configuration resolves every reference, has one picker per profile and exactly one
profile handler, and scores with the weights that were written (`LoadedScoresAsWritten`). The documentation of the
second defaulting phase promises a weight for every scorer without one; the code stops at the first picker, so the
promise is kept if and only if no such scorer stands behind it (`AllScorersWeightedIff`). Building dereferences the
missing weight, unless a second picker comes first and is reported as an error (`ProfilePanicsIff`); with one picker,
one scorer and no profile, the order of the map decides between loading and that panic (`MapOrderDecides`).

## Model

| member | source | states |
|---|---|---|
| `FlowAccounting.ReconcileReachesEachScopeOnce` | pkg/epp/flowcontrol/registry/managedqueue.go:159-167 | the atomic additions of one reconciliation add up, for each queue, band, shard and registry counter, to the given delta if the queue lies in that counter's scope and to nothing otherwise |
| `FlowAccounting.RemovalDeltasAreCongruent` | pkg/epp/flowcontrol/registry/managedqueue.go:120-155 | the deltas accumulated in 64-bit arithmetic over removed items are congruent, modulo 2^64, to minus the number and minus the total size of those items |
| `FlowAccounting.RemovalShrinksMeasures` | pkg/epp/flowcontrol/registry/managedqueue.go:120-155 | removing a list of distinct held items lowers length and byte size by exactly the count and the sum of sizes of that list |
| `FlowAccounting.BeganKeepsAccounts` | pkg/epp/flowcontrol/registry/managedqueue.go:97-167 | changing a queue's contents and starting the matching reconciliation keeps counter + in flight = contents for every counter |
| `FlowAccounting.AtomicKeepsAccounts` | pkg/epp/flowcontrol/registry/shard.go:144-159 | performing one atomic addition of any reconciliation keeps counter + in flight = contents |
| `FlowAccounting.AddKeepsAccounts` | pkg/epp/flowcontrol/registry/managedqueue.go:97-104 | an addition by any thread keeps every counter accounted for |
| `FlowAccounting.RemoveKeepsAccounts` | pkg/epp/flowcontrol/registry/managedqueue.go:108-116 | a removal by any thread keeps every counter accounted for |
| `FlowAccounting.StepKeepsInvariant` | pkg/epp/flowcontrol/registry/managedqueue.go:97-167 | every step of every thread keeps the accounting of every tracked counter, the 64-bit range of the counters and the set of bands |
| `FlowAccounting.EveryRunIsAccounted` | pkg/epp/flowcontrol/registry/managedqueue.go:97-167 | in every interleaving of any number of threads, at every moment, each queue, band, shard and registry counter plus the additions still to come is congruent modulo 2^64 to what the queues really hold |
| `FlowAccounting.DrainEmptiesTheQueue` | pkg/epp/flowcontrol/registry/managedqueue.go:139-155 | a drain leaves its queue empty and every other queue as it was |
| `FlowAccounting.CleanupDropsTheRemoved` | pkg/epp/flowcontrol/registry/managedqueue.go:120-136 | after a cleanup its queue holds exactly the items that were not listed, unchanged, and every other queue is as it was |
| `FlowAccounting.EveryPartCanBeRemoved` | pkg/epp/flowcontrol/registry/managedqueue.go:120-155 | cleanup and drain exclude nothing: any part of a queue can be cleaned up, and all of it drained |
| `FlowAccounting.QueuesHoldTheirHistory` | pkg/epp/flowcontrol/registry/managedqueue.go:97-155 | in every run of any number of threads, a queue holds an item of some size if and only if the history of operations on that queue says so: added, and neither removed, cleaned up nor drained since |
| `FlowAccounting.ExactIffNothingInFlight` | pkg/epp/flowcontrol/registry/shard.go:144-159 | a counter whose true value fits in 64 bits reads exactly that value if and only if the additions still to come cancel out |
| `FlowAccounting.QuiescentCountersAreExact` | pkg/epp/flowcontrol/registry/managedqueue.go:97-167 | once no reconciliation is under way, every counter whose true value is below 2^64 reads exactly what the queues in its scope hold |
| `FlowAccounting.CounterCanWrapTransiently` | pkg/epp/flowcontrol/registry/managedqueue.go:159-167 | a concrete run in which the length counter of an empty queue reads 2^64 - 1, because the removal is reconciled before the addition |
| `FlowAccounting.ShardTotalIsSumOfBands` | pkg/epp/flowcontrol/registry/shard.go:144-159 | when all queues lie in configured bands, what a shard holds is the sum of what its bands hold |
| `FlowAccounting.QuiescentShardIsSumOfBands` | pkg/epp/flowcontrol/registry/shard.go:240-261 | once no reconciliation is under way, and with all queues in configured bands and a shard total below 2^64, the shard counter equals the sum of its band counters |
| `FlowConfig.SharesUpToClosedForm` | pkg/epp/flowcontrol/registry/config.go:60-70 | the shares of the first shards add up to quotient times count plus at most the remainder |
| `FlowConfig.SharesSumToTotal` | pkg/epp/flowcontrol/registry/config.go:60-70 | the shares of all shards add up to the partitioned value |
| `FlowConfig.SharesAreEven` | pkg/epp/flowcontrol/registry/config.go:60-70 | shares never increase with the shard index, differ by at most one, and are zero exactly from index `total` on |
| `FlowConfig.PartitionConservesCapacity` | pkg/epp/flowcontrol/registry/config.go:54-84 | partitioning a configuration conserves its capacity and that of each of its bands over all shards |
| `FlowConfig.PartitionFailsIff` | pkg/epp/flowcontrol/registry/config.go:54-84 | partitioning fails exactly for an index that names none of the shards, and changes nothing of a band but its byte limit |
| `FlowConfig.MasterConfig.ValidateAndApplyDefaults` | pkg/epp/flowcontrol/registry/config.go:88-165 | accepts exactly the configurations with at least one band, distinct priorities, and bands that are named and, once defaulted, have a known intra-flow policy and a queue with what it requires; fills in exactly the missing fields; on an error a prefix of the bands is defaulted and the rest untouched |
| `FlowConfig.DefaultsFillEmptyFields` | pkg/epp/flowcontrol/registry/config.go:105-113 | a given field is kept, and an empty one becomes FCFS, BestHead or ListQueue |
| `FlowConfig.AcceptedIffServed` | pkg/epp/flowcontrol/registry/config.go:88-165 | a configuration is accepted if and only if it has a band, no priority twice, and each band has a name and a registered intra-flow policy whose every required capability its queue type offers |
| `FlowConfig.ValidationIsIdempotent` | pkg/epp/flowcontrol/registry/config.go:88-121 | a defaulted configuration is accepted again and does not change any more |
| `FlowRegistry.WrappingAddTracks` | pkg/epp/flowcontrol/registry/shard.go:144-159 | a wrapping addition of a congruent delta carries a counter from one true value to the next |
| `FlowRegistry.TallyStaysExact` | pkg/epp/flowcontrol/registry/shard.go:144-159 | reconciling a queue with deltas that match its change keeps all counters of the shard, of its bands and of the parent exact |
| `FlowRegistry.RegistrationKeepsTallyExact` | pkg/epp/flowcontrol/registry/shard.go:52-94 | a new empty queue leaves all counters exact |
| `FlowRegistry.ManagedQueue.constructor` | pkg/epp/flowcontrol/registry/managedqueue.go:66-87 | a new queue is empty with exact counters |
| `FlowRegistry.ManagedQueue.ReconcileStats` | pkg/epp/flowcontrol/registry/managedqueue.go:159-167 | moves the counters of the queue and, when there is one, of its shard, and nothing else |
| `FlowRegistry.ManagedQueue.Add` | pkg/epp/flowcontrol/registry/managedqueue.go:97-104 | on success holds the item and leaves all counters up to the parent exact; on a failed add changes nothing |
| `FlowRegistry.ManagedQueue.Remove` | pkg/epp/flowcontrol/registry/managedqueue.go:108-116 | returns and drops the named item, or fails and changes nothing; all counters stay exact |
| `FlowRegistry.ManagedQueue.SumDeltas` | pkg/epp/flowcontrol/registry/managedqueue.go:120-155 | the loop over removed items computes the 64-bit deltas that the accounting lemmas are about |
| `FlowRegistry.ManagedQueue.Cleanup` | pkg/epp/flowcontrol/registry/managedqueue.go:120-136 | drops exactly the returned items; all counters stay exact |
| `FlowRegistry.ManagedQueue.Drain` | pkg/epp/flowcontrol/registry/managedqueue.go:139-155 | leaves the queue empty and all counters exact, or fails and changes nothing |
| `FlowRegistry.ManagedQueue.Len` | pkg/epp/flowcontrol/registry/managedqueue.go:178 | reads the number of items held, as a signed word: exact below 2^63, negative from there |
| `FlowRegistry.ManagedQueue.ByteSize` | pkg/epp/flowcontrol/registry/managedqueue.go:181 | reads the total size of the items held |
| `FlowRegistry.RegistryShard.ReconcileStats` | pkg/epp/flowcontrol/registry/shard.go:144-159 | adds the deltas to the totals, to the band if it exists, and reports them to the parent if there is one |
| `FlowRegistry.RegistryShard.Stats` | pkg/epp/flowcontrol/registry/shard.go:240-261 | reports the configured capacity, the true totals and, for every configured priority and only those, the band's capacity, name, true length and size |
| `FlowRegistry.RegistryShard.AllOrderedPriorityLevels` | pkg/epp/flowcontrol/registry/shard.go:234-237 | the levels of a shard with distinct priorities are strictly ascending and name exactly its bands |
| `FlowRegistry.Sort` | pkg/epp/flowcontrol/registry/shard.go:135-136 | the priority levels come out in ascending order and as a permutation |
| `FlowRegistry.NewShard` | pkg/epp/flowcontrol/registry/shard.go:97-140 | fails exactly on an unknown policy; otherwise the shard is empty and exact, its bands are the configured ones and its levels sorted, strictly so and equal to the band keys for distinct priorities |
| `FlowRegistry.DistinctLevelsAreStrict` | pkg/epp/flowcontrol/registry/shard.go:135-136 | sorted levels of distinct priorities are strictly ascending and name exactly the configured priorities |
| `FlowRegistry.PartitionKeepsBands` | pkg/epp/flowcontrol/registry/config.go:54-84 | a partition keeps order, priorities, names and policies of the bands, so that a shard can be built from it exactly when one could be built from the whole |
| `FlowRegistry.ReconcilingKeepsShape` | pkg/epp/flowcontrol/registry/shard.go:144-159 | reconciling never changes which bands a shard has or their configuration |
| `FlowRegistry.EveryPartitionYieldsAShardIff` | pkg/epp/flowcontrol/registry/config.go:124-165 | every partition of an accepted and defaulted configuration yields a shard if and only if every inter-flow policy is registered, which validation does not look at |
| `FlowRegistry.UnknownInterFlowPolicyIsAccepted` | pkg/epp/flowcontrol/registry/shard.go:113-118 | an accepted configuration none of whose partitions yields a shard |
| `FlowRegistry.ShardCapacitiesAddUp` | pkg/epp/flowcontrol/registry/shard.go:240-261 | the statistics of all shards of an accepted configuration have exactly the configured priorities as keys, and their capacities add up to the configured one, in all and band by band |
| `BatchScheduler.CanPrefillIffBatch` | tools/simulations/llm_ig_simulation/src/continous_batching.py:24-99 | the prefill test holds if and only if the fetch returns a non-empty batch, although it looks at the heads of the two stores separately |
| `BatchScheduler.CanPrefillIffAHeadFits` | tools/simulations/llm_ig_simulation/src/continous_batching.py:24-57 | prefilling is possible if and only if the head of one of the waiting stores fits, in the numbers themselves: fewer than 256 requests running, at most 512 prefill tokens, the cache less than 90% full |
| `BatchScheduler.FetchTakesWhatFits` | tools/simulations/llm_ig_simulation/src/continous_batching.py:65-97 | a fetch loop goes on with exactly the items that fit behind what was already taken, and stops at the first that does not |
| `BatchScheduler.BatchIsMaximal` | tools/simulations/llm_ig_simulation/src/continous_batching.py:59-99 | the batch is a prefix of the recompute store followed by one of the prefill store; each of its items fits behind those before it, and the next item of either store would not |
| `BatchScheduler.BatchIsWithinLimits` | tools/simulations/llm_ig_simulation/src/continous_batching.py:59-99 | every batch keeps the decode store within 256 sequences, its input sizes within 512 tokens, and was below 90% of the cache before its last item |
| `BatchScheduler.AdmissionStopsAtTheFirstBlocked` | tools/simulations/llm_ig_simulation/src/continous_batching.py:65-97 | a fetch loop takes exactly the items in front of the first one that the three limits block, counting the tokens and sequences taken before it |
| `BatchScheduler.AdmittedStaysWithinLimits` | tools/simulations/llm_ig_simulation/src/continous_batching.py:70-80 | a fetch loop that starts within the limits stays within them |
| `BatchScheduler.ProcessAllSplits` | tools/simulations/llm_ig_simulation/src/continous_batching.py:101-129 | prefilling item by item equals loading all adapters and then distributing all items, each with one token less to produce |
| `BatchScheduler.BatchLoadsItsAdapters` | tools/simulations/llm_ig_simulation/src/continous_batching.py:106-111 | processing a batch loads the adapter of each of its items, and no other |
| `BatchScheduler.DistributionKeepsOrder` | tools/simulations/llm_ig_simulation/src/continous_batching.py:169-175 | items keep their order when they are sorted into finished and unfinished ones |
| `BatchScheduler.RoundOfOneToken` | tools/simulations/llm_ig_simulation/src/continous_batching.py:156-175 | one token per item keeps every request, finishes exactly those with none left, and lowers the outstanding output by the number of items |
| `BatchRuns.EnqueuedKeepsOrder` | tools/simulations/llm_ig_simulation/src/continous_batching.py:145 | putting an item into the recompute store keeps it in priority order and adds just that item |
| `BatchRuns.BeforeIsLexicographic` | tools/simulations/llm_ig_simulation/src/continous_batching.py:145 | the priority of the recompute store is the lexicographic order of identifiers, in terms of the first place where two of them differ |
| `BatchRuns.LoadAllIsAccounted` | tools/simulations/llm_ig_simulation/src/continous_batching.py:107-111 | after any batch the tokens allowed are the constant less the sizes of the distinct adapters loaded |
| `BatchRuns.MaxTokensStaysPositive` | tools/simulations/llm_ig_simulation/src/constants.py:25-35 | the tokens allowed never fall below 41248 |
| `BatchRuns.FetchConserves` | tools/simulations/llm_ig_simulation/src/continous_batching.py:59-99 | the fetched batch and what remains in the stores are together what was there before |
| `BatchRuns.PrefillPhase` | tools/simulations/llm_ig_simulation/src/continous_batching.py:194-199 | a prefill round keeps the invariant and the population, lowers the outstanding output by the size of its non-empty batch, and keeps the memory bound |
| `BatchRuns.EvictionPhase` | tools/simulations/llm_ig_simulation/src/continous_batching.py:135-145 | eviction ends with the cache within bounds, keeps the invariant, the population and the outstanding output, and evicts at least one item when it is called for |
| `BatchRuns.EvictionKeepsTheOldest` | tools/simulations/llm_ig_simulation/src/continous_batching.py:135-145 | eviction takes the newest items first: what it keeps is a prefix of the decode store that fits, and every longer prefix is too large |
| `BatchRuns.DecodePhase` | tools/simulations/llm_ig_simulation/src/continous_batching.py:147-177 | a decode round keeps the invariant and the population, produces one token per item, and leaves the cache at most 90% full |
| `BatchRuns.PrefillIterationMoves` | tools/simulations/llm_ig_simulation/src/continous_batching.py:194-199 | a prefill iteration takes its batch off the two waiting stores and puts it, a token shorter, behind what is in the decode and decoded stores |
| `BatchRuns.DecodeIterationMoves` | tools/simulations/llm_ig_simulation/src/continous_batching.py:200-205 | any other iteration keeps the oldest items of the decode store, moves the rest to the recompute store and gives each kept item one token; prefill store and adapters stay as they are |
| `BatchRuns.IterationKeepsInvariant` | tools/simulations/llm_ig_simulation/src/continous_batching.py:187-205 | every iteration keeps the remaining output of each request in the range its store demands, the recompute order, the sequence limit and the adapter accounting, and loses or invents no request |
| `BatchRuns.IterationMemoryBound` | tools/simulations/llm_ig_simulation/src/continous_batching.py:187-205 | after a decode round the cache is at most 90% full; after a prefill round it is below 90% of the maximum at fetch time plus the last admitted item and one token |
| `BatchRuns.WaitingHeadIsAdmissible` | tools/simulations/llm_ig_simulation/src/continous_batching.py:24-57 | an actor that waits with an empty decode store can always prefill |
| `BatchRuns.IterationMakesProgress` | tools/simulations/llm_ig_simulation/src/continous_batching.py:187-205 | every iteration of a non-idle actor produces a token, or evicts its whole decode store |
| `BatchRuns.IterationDecreasesLexicographically` | tools/simulations/llm_ig_simulation/src/continous_batching.py:187-205 | every iteration of a non-idle actor lowers the outstanding output, or keeps it and shrinks the decode store |
| `BatchRuns.IterationLowersPotential` | tools/simulations/llm_ig_simulation/src/continous_batching.py:187-205 | twice the outstanding output, less one while requests wait beside an empty decode store, falls with every non-idle iteration and stays a natural number |
| `BatchRuns.ActorDrains` | tools/simulations/llm_ig_simulation/src/continous_batching.py:187-205 | without arrivals, after twice the outstanding output many iterations the actor is idle and its decoded store holds every request, finished |
| `BatchRuns.EveryRunConserves` | tools/simulations/llm_ig_simulation/src/continous_batching.py:187-205 | at every iteration boundary of every run with arrivals, the four stores together hold exactly the requests that arrived, and the invariant holds |
| `BatchRuns.EachRequestIsInOneStore` | tools/simulations/llm_ig_simulation/src/continous_batching.py:101-177 | in every run, each arrived request is in exactly one of the four stores, once |
| `BatchInterleavings.MidFetchArrivalsMoveToTheBoundary` | tools/simulations/llm_ig_simulation/src/continous_batching.py:82-97 | a fetch loop interrupted by arrivals at any of its yields takes what an uninterrupted one takes after those it saw, and leaves the rest in order |
| `BatchInterleavings.InterleavedFetchSeesInOrder` | tools/simulations/llm_ig_simulation/src/continous_batching.py:82-97 | the arrivals an interrupted fetch sees are a prefix of all arrivals |
| `BatchInterleavings.ArrivalsKeepThePrefillDecision` | tools/simulations/llm_ig_simulation/src/continous_batching.py:24-57 | arrivals between the prefill test and the fetch neither revoke the decision nor change what comes from the recompute store |
| `BatchInterleavings.InterruptedRecomputeFetches` | tools/simulations/llm_ig_simulation/src/continous_batching.py:65-80 | a fetch from the recompute store interrupted by arrivals takes what an undisturbed one takes |
| `BatchInterleavings.InterruptedEvictionEvicts` | tools/simulations/llm_ig_simulation/src/continous_batching.py:135-145 | an eviction interrupted by arrivals evicts what an undisturbed one evicts |
| `BatchInterleavings.InterruptedDecodeDecodes` | tools/simulations/llm_ig_simulation/src/continous_batching.py:156-175 | a decode loop interrupted by arrivals does what an undisturbed round does |
| `BatchInterleavings.InterruptedIterationSplits` | tools/simulations/llm_ig_simulation/src/continous_batching.py:187-205 | a whole iteration interrupted by arrivals at any of its gets equals some of the arrivals, an undisturbed iteration, and the other arrivals, in their order |
| `BatchInterleavings.EveryInterruptedRunConserves` | tools/simulations/llm_ig_simulation/src/continous_batching.py:187-205 | in every run whose iterations are interrupted by arrivals, the four stores together hold exactly what arrived, and the invariant holds |
| `LLMActors.LLMActor.constructor` | tools/simulations/llm_ig_simulation/src/llmactor.py:22-33 | a new actor has four empty stores, no adapter loaded and all 44448 tokens allowed |
| `LLMActors.LLMActor.CanPrefillItems` | tools/simulations/llm_ig_simulation/src/continous_batching.py:24-57 | answers whether the head of the recompute or the prefill store fits, and so whether the batch that would be fetched is non-empty |
| `LLMActors.LLMActor.FetchFrom` | tools/simulations/llm_ig_simulation/src/continous_batching.py:82-97 | takes a prefix of a store, each item of which fits behind what was taken before it, and leaves the rest, whose first item does not fit |
| `LLMActors.LLMActor.FetchPrefillItems` | tools/simulations/llm_ig_simulation/src/continous_batching.py:59-99 | takes the batch from the recompute store first and then from the prefill store |
| `LLMActors.LLMActor.ProcessPrefillItems` | tools/simulations/llm_ig_simulation/src/continous_batching.py:101-129 | loads the adapters and moves each item to the store its remaining output demands; the assertion fails exactly at the first item that had no output left to produce |
| `BatchScheduler.NoneSpent` | tools/simulations/llm_ig_simulation/src/continous_batching.py:123-126 | requests in progress, and so all that a fetch returns, never fail that assertion |
| `LLMActors.LLMActor.RemoveFromDecodeStore` | tools/simulations/llm_ig_simulation/src/continous_batching.py:135-145 | terminates within the cache bound and leaves the invariant intact |
| `LLMActors.LLMActor.DecodeItems` | tools/simulations/llm_ig_simulation/src/continous_batching.py:147-177 | the negative-output error is unreachable, and the round equals the one the lemmas are about |
| `LLMActors.LLMActor.PrefillOrDecode` | tools/simulations/llm_ig_simulation/src/continous_batching.py:187-205 | one iteration fails neither the assertion of the prefill loop nor that of the decode loop, and keeps the invariant and the population |
| `LLMActors.LLMActor.Arrive` | tools/simulations/llm_ig_simulation/src/loadbalancer.py:638 | a routed request joins the back of the prefill store; invariant and population follow |
| `PodDatastore.WithListedAt` | pkg/epp/datastore/datastore.go:247-258 | adding a listing gives each listed ready pod its current entry and touches no other |
| `PodDatastore.ResyncIsRight` | pkg/epp/datastore/datastore.go:236-271 | after a resync with a complete listing the cache is right for every pod of the cluster |
| `PodDatastore.MatchesIffContained` | pkg/epp/datastore/datastore.go:149-158 | a selector matches exactly the labels that contain each of its pairs |
| `PodDatastore.FirstReadyIs` | pkg/epp/util/pod/pod.go:23-36 | the first condition of kind Ready, if there is one, decides, and a later one does not matter |
| `PodDatastore.StepStoresPool` | pkg/epp/datastore/datastore.go:107-132 | setting a pool stores it with the whole of its spec even if the listing fails, clearing forgets it, and no other step touches it |
| `PodDatastore.StoredPoolIsTheLastSet` | pkg/epp/datastore/datastore.go:107-132 | in every run the stored pool is the last one set since the last clear |
| `PodDatastore.DeliveryQueuesIff` | pkg/epp/controller/pod_reconciler.go:66-90 | an event puts its pod on the work queue exactly if there is a pool and the version before or the version after carries all labels of its selector |
| `PodDatastore.VersionsAfterChange` | pkg/epp/controller/pod_reconciler.go:66-90 | the versions of a pod still to be delivered form an unbroken chain that a change extends at its end |
| `PodDatastore.DroppedEventKeepsRight` | pkg/epp/controller/pod_reconciler.go:66-90 | an event that the filter drops moved the pod between versions neither of which belongs in the cache, so the cache stays right for a later version if it was for the earlier |
| `PodDatastore.DeliverKeepsTracked` | pkg/epp/controller/pod_reconciler.go:66-90 | delivering an event, whether it passes the filter or is dropped, leaves every pod tracked |
| `PodDatastore.ServeKeepsTracked` | pkg/epp/controller/pod_reconciler.go:42-64 | reconciling a queued pod leaves the cache right for it, also after a failed listing, and disturbs no other |
| `PodDatastore.SetPoolKeepsTracked` | pkg/epp/datastore/datastore.go:107-132 | setting a pool leaves every pod tracked, with or without a resync |
| `PodDatastore.StepKeepsTracked` | pkg/epp/datastore/datastore.go:93-271 | every step, failed reads and listings included, keeps a pod's entry that of its last refresh and, unless a needed listing has failed since, right or due to be corrected by a pending event or request |
| `PodDatastore.CacheRightIff` | pkg/epp/controller/pod_reconciler.go:42-104 | in every run, failed listings included, whenever nothing is pending for a pod, the cache is right for it if and only if no needed listing has failed since its entry was last refreshed, or that entry is still the one it should have |
| `PodDatastore.CacheConverges` | pkg/epp/controller/pod_reconciler.go:42-104 | in every run without a failed listing, whenever nothing is pending for a pod, it is cached if and only if there is a pool and the pod is in the cluster, ready and selected, and its entry is that of its current version |
| `PodDatastore.CacheRightMeans` | pkg/epp/controller/pod_reconciler.go:92-104 | where the cache is right, it holds a pod if and only if there is a pool and the pod exists, is not being deleted, has Ready as True and carries the labels; the entry has the pod's name, address and labels |
| `PodDatastore.FailedListIsNotRepaired` | pkg/epp/datastore/datastore.go:107-132 | after a failed listing, no number of retries with the same selector, whether their listings succeed or fail, changes the cached pods |
| `PodDatastore.FailedListLosesAReadyPod` | pkg/epp/datastore/datastore.go:107-132 | for every ready and selected pod, a run with a failed listing and a successful retry that ends with nothing pending and the pod missing from the cache |
| `PodDatastore.UnlistedEntrySurvivesIffNameIsActive` | pkg/epp/datastore/datastore.go:260-270 | the cleanup compares bare names: an entry that is not in the listing survives a resync if and only if a listed ready pod of any namespace has its name |
| `DatastoreObjects.PodMetrics.StartRefreshLoop` | pkg/epp/backend/metrics/pod_metrics.go:89-109 | starts at most one refresh loop, however often it is called |
| `DatastoreObjects.PodMetrics.StopRefreshLoop` | pkg/epp/backend/metrics/pod_metrics.go:140-145 | closes the done channel at most once, however often it is called |
| `DatastoreObjects.Datastore.PodUpdateOrAddIfNotExist` | pkg/epp/datastore/datastore.go:210-226 | updates the entry in place or creates one with a running refresh loop, says which, and leaves every other entry object as it is |
| `DatastoreObjects.Datastore.PodDelete` | pkg/epp/datastore/datastore.go:228-234 | drops the entry and stops its refresh loop |
| `DatastoreObjects.Datastore.PodResyncAll` | pkg/epp/datastore/datastore.go:236-271 | the two loops give the resynced contents; every entry object ever created is cached and running, or stopped |
| `DatastoreObjects.Datastore.Clear` | pkg/epp/datastore/datastore.go:93-104 | empties the cache and stops every refresh loop |
| `DatastoreObjects.Datastore.PoolSet` | pkg/epp/datastore/datastore.go:107-132 | stores the pool it is given, or clears on a missing one; resyncs exactly when the selector is new, and fails exactly when a needed listing fails, with the new pool stored all the same |
| `DatastoreObjects.Datastore.Reconcile` | pkg/epp/controller/pod_reconciler.go:42-104 | adds, updates or deletes exactly as the model of the reconciler does, stopping what it drops |
| `StreamHandler.ChunksJoin` | pkg/epp/handlers/server.go:476-519 | the chunks of a body join up to it, and their lengths add up to its length |
| `StreamHandler.ChunksShape` | pkg/epp/handlers/server.go:476-519 | no chunk exceeds the limit, none is empty unless the body is, and the end of stream is on the last chunk only, if and only if asked for |
| `StreamHandler.BuildCommonResponses` | pkg/epp/handlers/server.go:476-519 | the loop over the body computes these chunks |
| `StreamBodies.EveryChunkSentIsSmall` | pkg/epp/handlers/server.go:476-519 | no stream ever sends a body chunk of more than 62000 bytes, in either direction, whatever it receives |
| `StreamOrder.AcceptedIffInGrammar` | pkg/epp/handlers/server.go:344-404 | the order automaton accepts exactly the traces of the form: request header and bodies, then response headers each with its bodies, then at most one immediate response, ends of stream last |
| `StreamOrder.FlushKeepsOrder` | pkg/epp/handlers/server.go:344-404 | a flush, even one cut short by a failed send, continues the trace within the protocol |
| `StreamOrder.HandleKeepsPending` | pkg/epp/handlers/server.go:187-316 | handling a message leaves well-formed chunk lists pending and touches the state only on response headers |
| `StreamOrder.ReceiveKeepsOrder` | pkg/epp/handlers/server.go:129-340 | every pass of the receive loop keeps the state in step with what has been sent |
| `StreamOrder.EveryTraceIsInGrammar` | pkg/epp/handlers/server.go:129-404 | whatever the proxy sends, in whatever order, and whichever send fails, the responses sent follow the grammar |
| `StreamBodies.ContentLengthMatchesBody` | pkg/epp/handlers/request.go:82-148 | whenever one pass sends the request header with the complete body, the announced Content-Length is the total length of the chunks that follow, and these join up to the encoded body |
| `StreamAnswers.HandlingFailsAs` | pkg/epp/handlers/server.go:187-316 | a message is an error in exactly three cases: a request without a body that finds no pod or no pool, a complete request body that does not decode, and one that the director refuses |
| `StreamAnswers.ErrorsAreAnsweredOnce` | pkg/epp/handlers/server.go:318-334 | an error ends the stream with one immediate response of its status, if it has one and the send succeeds, and with nothing otherwise |
| `StreamAnswers.OnlyErrorsAreImmediate` | pkg/epp/handlers/server.go:318-334 | a message without an error leads to no immediate response |
| `StreamAnswers.AcceptedRequestIsForwarded` | pkg/epp/handlers/server.go:195-234 | on any stream that has sent nothing yet, an accepted request is forwarded, header and all chunks of its encoding, or as many of them as can be sent, and then counts as running under its model |
| `StreamAnswers.UnencodableRequestIsDropped` | pkg/epp/handlers/server.go:222-227 | an accepted request that cannot be encoded leaves the stream open and unanswered |
| `StreamAnswers.BodylessRequestIsAnswered` | pkg/epp/handlers/request.go:31-52 | a request without a body is answered by a header that announces no length |
| `StreamAnswers.ResponseHeadersAreAnswered` | pkg/epp/handlers/server.go:237-260 | response headers are answered at once, whatever came before |
| `StreamAnswers.StreamingIffAnnounced` | pkg/epp/handlers/server.go:244-248 | an open stream passes response bodies through if and only if some response headers announced an event stream |
| `StreamAnswers.JsonResponseIsReencoded` | pkg/epp/handlers/response.go:38-65 | in every stream, a complete buffered response that decodes goes out as the chunks of its re-encoding, the last of which ends the stream, or as a prefix of them if a send fails |
| `StreamAnswers.JsonResponseBytes` | pkg/epp/handlers/response.go:38-65 | the response bytes sent are then those of the re-encoding, or a prefix of them if a send fails |
| `StreamAnswers.UnencodableResponseIsDropped` | pkg/epp/handlers/response.go:38-44 | a response that decodes and cannot be encoded again is answered by nothing |
| `StreamBodies.StreamingResponsePassesThrough` | pkg/epp/handlers/response.go:105-119 | in every stream, a streaming response goes out byte for byte up to its first end of stream, or a prefix of that if the stream ends early, whatever else arrives in between |
| `StreamBodies.RelayIsFaithful` | pkg/epp/handlers/server.go:262-313 | from any relaying state, what is sent is what was sent plus a prefix of the bytes received until the end of stream, all of them if the stream stays open |
| `StreamBodies.QuietStreamBuffers` | pkg/epp/handlers/server.go:195-313 | until a response body is complete no stream sends any of it, and the buffer of an open stream holds the bytes received, in either direction, since the last end of a request body |
| `StreamBodies.UnparseableResponseBytes` | pkg/epp/handlers/server.go:262-313 | in every stream a buffered response that is not JSON goes out as the contents of the shared buffer, or a prefix of that if the stream ends early |
| `StreamBodies.UnparseableResponseIsReemitted` | pkg/epp/handlers/server.go:262-313 | it is re-emitted byte for byte if and only if the messages leave just the response in the shared buffer |
| `StreamBodies.FinishedRequestLeavesNoBytes` | pkg/epp/handlers/server.go:195-234 | a request whose last body message ended it leaves nothing in the shared buffer |
| `StreamBodies.UnparseableResponsePassesThrough` | pkg/epp/handlers/server.go:129-340 | from the first message to the last, an unparseable response goes out byte for byte if and only if no bytes of the request came after the last end of its body |
| `StreamBodies.LeftoverLeaksIntoTheResponse` | pkg/epp/handlers/server.go:195-234 | a stream whose response begins before the request body has ended sends the request byte in front of the response |
| `StreamGauge.ReceiveCounts` | pkg/epp/handlers/server.go:355-368 | a pass counts a stream as running only if it was not, and under the model it then has |
| `StreamGauge.DeliverDrift` | pkg/epp/handlers/server.go:156-165 | one message moves the difference between the gauge and the running streams of a model only if it renames a running stream, and then by exactly one for the old and the new name |
| `StreamGauge.GaugeReadsCountPlusDrift` | pkg/epp/handlers/server.go:156-165 | in every run of any number of streams, the gauge of a model reads the number of its running streams plus the drift of the messages |
| `StreamGauge.CountedThroughoutIffSteady` | pkg/epp/handlers/server.go:156-165 | the gauge is right after every step of a run if and only if no message of the run renames a running stream |
| `StreamGauge.StepCountsIffSteady` | pkg/epp/metrics/metrics.go:361-372 | a step keeps the gauge equal to the number of running streams of every model if and only if it renames no running stream |
| `StreamGauge.NamelessIsNeverCounted` | pkg/epp/metrics/metrics.go:361-372 | requests without a model name move no gauge |
| `StreamGauge.GaugeCountsRunningStreams` | pkg/epp/handlers/server.go:156-165 | in every such run the gauge of each model counts its running streams, and reads zero once all streams have ended |
| `StreamGauge.SingleBodiesAreSteady` | pkg/epp/handlers/server.go:195-234 | runs in which no running stream receives another end of a request body are of this kind |
| `StreamGauge.EndsOnceIsSteady` | pkg/epp/handlers/server.go:195-234 | a run in which every stream receives at most one end of a request body, a condition on its messages alone, is of this kind |
| `StreamGauge.OneBodyEndIsSteady` | pkg/epp/handlers/server.go:195-234 | a stream with at most one end of a request body is never renamed while running, so it leaves every gauge as it was |
| `StreamGauge.SecondBodyMovesTheGauge` | pkg/epp/handlers/server.go:195-234 | two complete request bodies for different models on one stream leave one gauge at 1 and the other at -1 after the stream has ended |
| `StreamGauge.StreamIsARun` | pkg/epp/handlers/server.go:129-340 | processing one stream is a run of its steps among the other streams: it leaves the gauge where that run does and the other streams alone |
| `StreamGauge.WholeStreamMovesByDrift` | pkg/epp/handlers/server.go:156-165 | a whole stream moves the gauge of each model by the drift of its messages, which is nothing if none renames it while running |
| `StreamServer.RequestContext.HandleMessage` | pkg/epp/handlers/server.go:187-316 | the switch over message kinds changes the context as the model does |
| `StreamServer.RequestContext.UpdateStateAndSendIfNeeded` | pkg/epp/handlers/server.go:344-404 | the four stages send, advance and count as the model of a flush does, up to the first failed send |
| `StreamServer.RequestContext.ReceiveOne` | pkg/epp/handlers/server.go:167-339 | one pass of the loop, with the immediate response to an error |
| `StreamServer.ReceiveLoop` | pkg/epp/handlers/server.go:129-340 | the loop and the deferred function send what the model sends and leave the gauge where the model does |
| `StreamServer.Process` | pkg/epp/handlers/server.go:129-340 | a whole stream sends what the model sends, in the order of the grammar, and moves the gauge of each model by the drift of its messages, the deferred decrement included: back to where it was if none renames the running stream |
| `MetricSpecs.ReadPairs` | pkg/epp/backend/metrics/metrics_spec.go:63-77 | the loop over the pairs accepts exactly the lists of well-formed pairs and collects their labels, the last of equal names winning |
| `MetricSpecs.StringToMetricSpec` | pkg/epp/backend/metrics/metrics_spec.go:43-93 | the parser, step by step, computes the parse that the lemmas are about |
| `MetricSpecProofs.PrintedLayoutIsRead` | pkg/epp/backend/metrics/metrics_spec.go:43-93 | every layout - a name, optional blanks, optional labels with blanks around every word - is read as its specification |
| `MetricSpecProofs.AcceptedTextIsPrintedLayout` | pkg/epp/backend/metrics/metrics_spec.go:43-93 | every accepted text is such a layout |
| `MetricSpecProofs.AcceptedIffPrintedLayout` | pkg/epp/backend/metrics/metrics_spec.go:43-93 | a text is accepted with a given meaning if and only if it is a layout with that meaning |
| `MetricSpecProofs.OutcomeOfParsing` | pkg/epp/backend/metrics/metrics_spec.go:43-93 | no specification for the empty text and for no other, an error for every other text that is not the print of a layout |
| `MetricSpecProofs.WhiteSpaceIs` | pkg/epp/backend/metrics/metrics_spec.go:47-72 | the characters that are trimmed, one by one |
| `MetricSpecProofs.SplitIsUndoneByJoin` | pkg/epp/backend/metrics/metrics_spec.go:61-64 | splitting at a separator loses nothing and leaves no separator |
| `MetricSpecProofs.ItemIsRead` | pkg/epp/backend/metrics/metrics_spec.go:65-77 | a label with blanks around its name and value is read as these |
| `MetricSpecProofs.AcceptedSpecIsWellFormed` | pkg/epp/backend/metrics/metrics_spec.go:43-93 | accepted names and labels are non-empty, trimmed and free of the separators |
| `MetricSpecProofs.CanonicalFormIsReadBack` | pkg/epp/backend/metrics/metrics_spec.go:43-93 | printing a well-formed specification, labels in any order, and parsing it gives the specification back |
| `MetricSpecProofs.ReparsingIsStable` | pkg/epp/backend/metrics/metrics_spec.go:43-93 | parsing, printing and parsing again gives the first result |
| `MetricSpecProofs.AcceptedTextHasCanonicalForm` | pkg/epp/backend/metrics/metrics_spec.go:43-93 | every accepted text has a canonical form, for some order of its labels, and that form is read as the same specification |
| `ConfigDefaults.SetDefaultsPhaseOne` | pkg/epp/config/loader/defaults.go:44-51 | plugins without a name get their type as name; names that are given, types, order and profiles stay |
| `ConfigDefaults.InstantiatePlugins` | pkg/epp/config/loader/configloader.go:119-146 | succeeds exactly when every plugin has a type, a unique name, a registered factory and a factory that succeeds; then the handle holds exactly these and what it held |
| `ConfigDefaults.InstalledHoldsEach` | pkg/epp/config/loader/configloader.go:119-146 | every instantiated plugin is found under its own name |
| `ConfigDefaults.DefaultProfile` | pkg/epp/config/loader/defaults.go:66-81 | a configuration without profiles gets one, named default, that refers without a weight to every scheduling plugin, to no other, and to none twice, in whatever order the map yields them; written profiles stay |
| `ConfigDefaults.ChoosePicker` | pkg/epp/config/loader/defaults.go:102-113 | chooses any picker there is, in whatever order the map yields them, or adds the default one if there is none; one with the empty name counts as none |
| `ConfigDefaults.SetDefaultsPhaseTwo` | pkg/epp/config/loader/defaults.go:60-133 | the defaulted configuration and the plugins are those of some order of the maps: base profiles, added handler, chosen or added picker, each profile's references |
| `ConfigDefaults.FinalPluginsAre` | pkg/epp/config/loader/defaults.go:83-113 | after the second phase the handle has the single profile handler if there is one profile and no handler, the default picker if it was added, and otherwise the plugins it had |
| `ConfigDefaults.WhenThePickerIsAdded` | pkg/epp/config/loader/defaults.go:102-113 | without a picker the default one is added; with a picker, and none under the empty name, one of those present is used |
| `ConfigDefaults.DefaultRefs` | pkg/epp/config/loader/defaults.go:115-132 | keeps every reference in its place, gives weight 1 to scorers without one up to the first picker it recognises, and appends the picker if it met none |
| `ConfigProfiles.DefaultingKeepsWhatIsWritten` | pkg/epp/config/loader/defaults.go:115-132 | a reference keeps its name and a written weight; a missing weight becomes 1 exactly for a scorer before the break of the loop |
| `ConfigProfiles.BreaksAtTheFirstPicker` | pkg/epp/config/loader/defaults.go:117-126 | the loop breaks at the first reference to a picker that is not also a scorer still without a weight |
| `ConfigProfiles.DefaultedRefsHaveAPicker` | pkg/epp/config/loader/defaults.go:115-132 | every defaulted profile has a picker |
| `ConfigProfiles.AllScorersWeightedIff` | pkg/epp/config/loader/defaults.go:53-132 | the documented promise of a weight for every scorer holds if and only if no unweighted scorer stands behind the picker the loop stops at, and an appended picker is no scorer |
| `ConfigProfiles.ScorerBehindPickerStaysUnweighted` | pkg/epp/config/loader/defaults.go:117-126 | in every profile that lists a recognised picker before an unweighted scorer, that scorer keeps no weight |
| `ConfigProfiles.ProfileBuildsIff` | pkg/epp/config/loader/configloader.go:87-101 | which profiles survive defaulting and building, in terms of the profile as written: no unweighted scorer and no second picker |
| `ConfigProfiles.ProfilePanicsIff` | pkg/epp/config/loader/configloader.go:90-99 | which profiles as written end in the dereference of a missing weight: an unweighted scorer behind the picker the loop breaks at, or an appended picker that is a scorer, with at most one picker before it |
| `ConfigProfiles.BuiltScorersAreAsWritten` | pkg/epp/config/loader/configloader.go:90-99 | a profile built after defaulting has the scorers of the configuration, in order, each with the weight written for it, or 1 |
| `ConfigProfiles.ChosenIff` | pkg/epp/scheduling/framework/scheduler_profile.go:85-107 | a plugin is in a slot of a profile if and only if some reference names it and it implements that interface |
| `ConfigProfiles.ChosenKeepsOrder` | pkg/epp/scheduling/framework/scheduler_profile.go:85-107 | a slot lists its plugins in the order of the references |
| `ConfigProfiles.SchedulerProfile.AddPlugin` | pkg/epp/scheduling/framework/scheduler_profile.go:85-107 | adds a plugin to every slot it fits; fails exactly on an unweighted scorer or a second picker |
| `ConfigProfiles.BuildProfile` | pkg/epp/config/loader/configloader.go:90-99 | succeeds exactly on weighted references with at most one picker; then every slot holds, in order, exactly the plugins referred to; panics exactly on an unweighted scorer with no second picker before it |
| `ConfigDefaults.ValidateSchedulingProfiles` | pkg/epp/config/loader/configloader.go:148-178 | accepts exactly distinct non-empty profile names and references to configured plugins |
| `ConfigDefaults.ValidReferencesResolve` | pkg/epp/config/loader/configloader.go:160-175 | a validated configuration resolves every reference in the handle |
| `ConfigLoader.FindProfileHandler` | pkg/epp/config/loader/configloader.go:103-114 | returns the profile handler exactly when there is one and only one |
| `ConfigLoader.LoadSchedulerConfig` | pkg/epp/config/loader/configloader.go:87-117 | succeeds exactly when every profile can be built and there is exactly one profile handler, and then has exactly these profiles and this handler; panics exactly when the first profile that cannot be built misses a weight |
| `ConfigOrders.LoadsIffWritten` | pkg/epp/config/loader/configloader.go:58-71 | in a given order of the maps, loading succeeds if and only if the profiles as written are named, resolved and well picked and there is exactly one profile handler |
| `ConfigOrders.PanicsIffWritten` | pkg/epp/config/loader/configloader.go:58-71 | in a given order of the maps, loading panics if and only if the profiles are valid and the first that is not well picked, as written, misses a weight |
| `ConfigOrders.EveryListingLoadsIff` | pkg/epp/config/loader/defaults.go:66-81 | a default profile loads however it lists the scheduling plugins if and only if none of them is a picker and the appended one is no scorer, or one is the only picker and none is a scorer |
| `ConfigOrders.SomeListingLoadsIff` | pkg/epp/config/loader/defaults.go:66-81 | a default profile loads in some order if and only if none of the plugins is a picker and the appended one is no scorer, or one is the only picker and no scorer |
| `ConfigOrders.EveryOrderLoadsIff` | pkg/epp/config/loader/configloader.go:43-74 | a condition on the instantiated plugins and the given configuration holds if and only if loading succeeds in every order of the maps, whichever picker is chosen |
| `ConfigOrders.SomeOrderLoadsIff` | pkg/epp/config/loader/configloader.go:43-74 | a condition on the instantiated plugins and the given configuration holds if and only if loading succeeds in some order of the maps |
| `ConfigOrders.EveryOrderImpliesSome` | pkg/epp/config/loader/configloader.go:43-74 | there always is an order, so a configuration that loads in every order loads in some |
| `ConfigOrders.MapOrderDecides` | pkg/epp/config/loader/defaults.go:70-75 | without profiles, with one picker and a scorer, one order of the map loads and another panics |
| `ConfigLoader.EveryProfileHasAPicker` | pkg/epp/config/loader/configloader.go:58-71 | every profile of a loaded configuration has a picker |
| `ConfigLoader.LoadedScoresAsWritten` | pkg/epp/config/loader/configloader.go:87-101 | every profile of a loaded configuration scores with the weights of the written one, or 1 where none was written |
| `ConfigLoader.LoadConfig` | pkg/epp/config/loader/configloader.go:43-74 | ends as the order of the maps demands: fails if a plugin cannot be instantiated, loads or panics exactly as the two conditions for that order say; a configuration that loads in every order is loaded, a loaded one loads in some order, it is complete, and its scorers have the weights that were written, or 1 |
| `ConfigLoader.PickerBeforeScorerPanics` | pkg/epp/config/loader/configloader.go:93-94 | a concrete configuration whose profile lists a picker before a scorer panics in every order of the maps |
| `ConfigLoader.OrderDecidesPickerAndScorer` | pkg/epp/config/loader/defaults.go:66-81 | the same plugins without a profile load in one order of the map and panic in the other |

## Left out

- The concurrent model treats a queue's own operation on its contents as one step, as its lock does; the classes in `FlowRegistry` show the operations one at a time, without interleaving.
- The parent registry is the sum of the deltas reported to it; shard activity, garbage collection and the queue plugins behind a managed queue are parameters (which items match, whether the operation fails) or absent.
- The map of queues of a shard is represented by the ghost record of what each queue holds; policies are known or unknown names.
- Requests of the simulator are values: times, latency formulas, recompute counts and the dictionaries of requests are absent, and request identifiers are taken to be unique.
- The 90% tests compare exact multiples (10 times the use with 9 times the maximum) where the source divides floating-point numbers.
- Routing in the load balancer is randomised and absent, except for its cap on input sizes.
- The pod reconciler runs one reconciliation at a time; the load-then-store window of `PodUpdateOrAddIfNotExist` under concurrent callers is not modelled, nor are fetching metrics, inference objectives and multiple namespaces.
- A nil selector and an empty one are the same value in the pod model.
- JSON decoding, JSON encoding and the director are outcomes carried by the messages, and so is the HTTP status that `buildErrResponse` finds for an error, if any; header maps other than Content-Length, metadata, trailers, token usage, cancellation and receive errors are absent.
- Which part of a response a stream sends before a failing send is a prefix; how long it is is not stated.
- Characters of a metric specification are Unicode code points with Go's notion of white space; byte sequences that are not valid UTF-8 are not modelled.
- Reading the configuration text, plugin parameters and factories that add plugins of their own are absent; a factory's result is part of its entry.
- The scheduler's filters, scorers and pickers, the prefix cache and the request director are absent: they would add shallow members or floating-point detail.
