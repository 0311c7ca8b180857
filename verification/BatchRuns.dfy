/** What every run of the continuous-batching scheduler keeps: conservation, memory bounds and progress. */
module BatchRuns {
  import opened BatchScheduler
  import opened Sums
  import opened Wrappers

  /** Every request the actor holds, as it arrived. */
  function Population(a: Actor): multiset<Request> {
    Origins(a.prefill) + Origins(a.recompute) + Origins(a.decode) + Origins(a.decoded)
  }

  /** Output tokens still to be generated. */
  function Remaining(a: Actor): int {
    Outstanding(a.prefill) + Outstanding(a.recompute) + Outstanding(a.decode)
  }

  // ---------- The recompute store keeps its order ----------

  /** `a` comes before `b`: it is a proper prefix of `b`, or smaller at the first place where they differ, which is `k`. */
  predicate DiffersAt(a: string, b: string, k: nat) {
    && k <= |a| && k < |b| && a[..k] == b[..k]
    && (k == |a| || a[k] < b[k])
  }

  lemma DiffersAtShifts(a: string, b: string, k: nat)
    requires a != [] && b != [] && k > 0
    ensures DiffersAt(a, b, k) <==> a[0] == b[0] && DiffersAt(a[1..], b[1..], k - 1)
  {
    if k <= |a| && k < |b| {
      var front, other := a[1..][..k - 1], b[1..][..k - 1];
      assert a[..k] == [a[0]] + front && b[..k] == [b[0]] + other;
      assert ([a[0]] + front)[1..] == front && ([b[0]] + other)[1..] == other;
      assert ([a[0]] + front)[0] == a[0] && ([b[0]] + other)[0] == b[0];
    }
  }

  /** The order of the recompute store is the lexicographic one on identifiers. */
  lemma {:induction false} BeforeIsLexicographic(a: string, b: string)
    ensures Before(a, b) <==> exists k: nat :: DiffersAt(a, b, k)
    decreases |a|
  {
    assert DiffersAt(a, b, 0) <==> b != [] && (a == [] || a[0] < b[0]);
    if a != [] && b != [] {
      BeforeIsLexicographic(a[1..], b[1..]);
      forall k: nat | k > 0 ensures DiffersAt(a, b, k) <==> a[0] == b[0] && DiffersAt(a[1..], b[1..], k - 1) {
        DiffersAtShifts(a, b, k);
      }
      if k: nat :| a[0] == b[0] && DiffersAt(a[1..], b[1..], k) {
        assert DiffersAt(a, b, k + 1);
      }
    }
  }

  lemma {:induction false} BeforeTransitive(a: string, b: string, c: string)
    requires Before(a, b) && Before(b, c)
    ensures Before(a, c)
    decreases |a|
  {
    if a != [] && a[0] == b[0] && b[0] == c[0] {
      BeforeTransitive(a[1..], b[1..], c[1..]);
    }
  }

  lemma {:induction false} EnqueuedKeepsOrder(store: seq<Request>, r: Request)
    requires Sorted(store)
    ensures Sorted(Enqueued(store, r))
    ensures forall x :: x in Enqueued(store, r) <==> x in store || x == r
    decreases |store|
  {
    if store != [] && !Before(r.id, store[0].id) {
      EnqueuedKeepsOrder(store[1..], r);
      var rest := Enqueued(store[1..], r);
      forall x | x in rest ensures !Before(x.id, store[0].id) {
      }
      assert forall j :: 0 <= j < |rest| ==> rest[j] in rest;
      assert store == [store[0]] + store[1..];
    } else if store != [] {
      forall j | 0 <= j < |store| ensures !Before(store[j].id, r.id) {
        if Before(store[j].id, r.id) {
          BeforeTransitive(store[j].id, r.id, store[0].id);
          if j == 0 { BeforeIrreflexive(store[0].id); }
        }
      }
    }
  }

  lemma {:induction false} BeforeIrreflexive(a: string)
    ensures !Before(a, a)
    decreases |a|
  {
    if a != [] {
      BeforeIrreflexive(a[1..]);
    }
  }

  lemma {:induction false} EnqueuedMeasures(store: seq<Request>, r: Request)
    ensures Origins(Enqueued(store, r)) == Origins(store) + multiset{Origin(r)}
    ensures Outstanding(Enqueued(store, r)) == Outstanding(store) + r.remaining
    decreases |store|
  {
    if store != [] && !Before(r.id, store[0].id) {
      EnqueuedMeasures(store[1..], r);
    }
  }

  // ---------- Adapter memory ----------

  lemma {:induction false} LoadAllIsAccounted(a: Actor, batch: seq<Request>)
    requires LoraAccounted(a) && forall r :: r in batch ==> Sized(r)
    ensures LoraAccounted(LoadAll(a, batch))
    ensures LoadAll(a, batch).prefill == a.prefill && LoadAll(a, batch).recompute == a.recompute
    ensures LoadAll(a, batch).decode == a.decode && LoadAll(a, batch).decoded == a.decoded
    decreases |batch|
  {
    if batch != [] {
      assert Sized(batch[0]);
      LoadLoraIsAccounted(a, batch[0].lora);
      LoadAllIsAccounted(LoadLora(a, batch[0].lora), batch[1..]);
    }
  }

  lemma LoadLoraIsAccounted(a: Actor, lora: Option<string>)
    requires LoraAccounted(a) && (lora.Some? ==> lora.value in LORA_DICT)
    ensures LoraAccounted(LoadLora(a, lora))
  {
    if lora.Some? && lora.value !in a.loraLoaded {
      var sizes := LoraSizes(a.loraLoaded);
      assert LoraSizes(a.loraLoaded + {lora.value}) == sizes[lora.value := LORA_DICT[lora.value]];
      SumReplace(sizes, lora.value, LORA_DICT[lora.value]);
    }
  }

  /** Loaded adapters never use up the cache: at least 41248 tokens always remain. */
  lemma MaxTokensStaysPositive(a: Actor)
    requires LoraAccounted(a)
    ensures 41248 <= a.maxTokens <= MAX_NUM_TOKENS_ALLOWED
  {
    var loaded := LoraSizes(a.loraLoaded);
    var most := map l | l in LORA_DICT :: if l in a.loraLoaded then LORA_DICT[l] else 0;
    SumOfZeros(map l | l in a.loraLoaded :: 0);
    SumIsMonotone(map l | l in a.loraLoaded :: 0, loaded);
    SumOverSuperset(loaded, most);
    SumIsMonotone(most, LORA_DICT);
    SumOfLoraSizes();
  }

  lemma {:induction false} SumOverSuperset(m: map<string, int>, n: map<string, int>)
    requires m.Keys <= n.Keys
    requires forall k :: k in n ==> n[k] == if k in m then m[k] else 0
    ensures Sum(m) == Sum(n)
    decreases |n|
  {
    if n == map[] {
      assert m == map[];
    } else {
      var k :| k in n;
      SumSplit(n, k);
      if k in m {
        SumSplit(m, k);
        SumOverSuperset(m - {k}, n - {k});
      } else {
        SumOverSuperset(m, n - {k});
      }
    }
  }

  lemma SumOfLoraSizes()
    ensures Sum(LORA_DICT) == 3200
  {
    var m3: map<string, int> := map["dummy-2" := 0];
    var m2 := m3["dummy-1" := 0];
    var m1 := m2["sql" := 1600];
    assert "tweet"[0] == 't' && "sql"[0] == 's' && "dummy-1"[0] == 'd' && "dummy-1"[6] == '1' && "dummy-2"[6] == '2';
    assert m3 == map[]["dummy-2" := 0];
    SumReplace(map[], "dummy-2", 0);
    SumReplace(m3, "dummy-1", 0);
    SumReplace(m2, "sql", 1600);
    SumReplace(m1, "tweet", 1600);
    assert LORA_DICT == m1["tweet" := 1600];
  }

  // ---------- Prefill ----------

  lemma SplitStore(store: seq<Request>, n: nat)
    requires n <= |store|
    ensures Origins(store) == Origins(store[..n]) + Origins(store[n..])
    ensures Outstanding(store) == Outstanding(store[..n]) + Outstanding(store[n..])
    ensures Tokens(store) == Tokens(store[..n]) + Tokens(store[n..])
  {
    assert store == store[..n] + store[n..];
    OriginsConcat(store[..n], store[n..]);
    TokensConcat(store[..n], store[n..]);
  }

  /** The batch leaves the stores it was fetched from, and nothing else does. */
  lemma FetchConserves(a: Actor)
    ensures Population(a) == Population(Fetched(a)) + Origins(Batch(a))
    ensures Remaining(a) == Remaining(Fetched(a)) + Outstanding(Batch(a))
  {
    var n, m := FromRecompute(a), FromPrefill(a);
    SplitStore(a.recompute, n);
    SplitStore(a.prefill, m);
    OriginsConcat(a.recompute[..n], a.prefill[..m]);
    TokensConcat(a.recompute[..n], a.prefill[..m]);
  }

  lemma FetchKeepsWellFormed(a: Actor)
    requires StoresWellFormed(a)
    ensures StoresWellFormed(Fetched(a))
    ensures forall r :: r in Batch(a) ==> InProgress(r)
  {
    forall r | r in Batch(a) ensures InProgress(r) {
      assert r in a.recompute || r in a.prefill;
    }
  }

  /** Distributing a round of ticked items over the decode and decoded stores. */
  lemma DistributeRound(a: Actor, items: seq<Request>)
    requires StoresWellFormed(a) && forall r :: r in items ==> InProgress(r)
    ensures var b := PutAll(a, TickedAll(items));
      && StoresWellFormed(b)
      && b.prefill == a.prefill && b.recompute == a.recompute
      && b.loraLoaded == a.loraLoaded && b.maxTokens == a.maxTokens
      && Population(b) == Population(a) + Origins(items)
      && Remaining(b) == Remaining(a) + Outstanding(items) - |items|
      && |b.decode| <= |a.decode| + |items|
      && Tokens(b.decode) <= Tokens(a.decode) + Tokens(items) + |items|
  {
    var unfinished, finished := Unfinished(TickedAll(items)), Finished(TickedAll(items));
    PutAllSplits(a, TickedAll(items));
    RoundOfOneToken(items);
    OriginsConcat(a.decode, unfinished);
    OriginsConcat(a.decoded, finished);
    TokensConcat(a.decode, unfinished);
  }

  /** Cache use after a prefill round: below 90% of the maximum at fetch time, plus the last item and its new token. */
  predicate PrefillMemoryBound(a: Actor, b: Actor) {
    Batch(a) != [] && 10 * Tokens(b.decode) < 9 * a.maxTokens + 10 * (Len(Batch(a)[|Batch(a)| - 1]) + 1)
  }

  lemma PrefillMemory(a: Actor, batch: seq<Request>, decodeTokens: int)
    requires batch != [] && WithinLimits(a, batch)
    requires decodeTokens <= Tokens(a.decode) + Tokens(batch) + |batch|
    ensures 10 * decodeTokens < 9 * a.maxTokens + 10 * (Len(batch[|batch| - 1]) + 1)
  {
    var last := |batch| - 1;
    assert batch == batch[..last] + [batch[last]];
    TokensSnoc(batch[..last], batch[last]);
  }

  lemma PrefillPhase(a: Actor)
    requires Invariant(a) && CanPrefill(a)
    ensures var b := ProcessAll(Fetched(a), Batch(a));
      && Invariant(b)
      && Population(b) == Population(a)
      && Remaining(b) == Remaining(a) - |Batch(a)|
      && Batch(a) != [] && PrefillMemoryBound(a, b)
  {
    var batch, f := Batch(a), Fetched(a);
    CanPrefillIffBatch(a);
    FetchKeepsWellFormed(a);
    FetchConserves(a);
    BatchIsWithinLimits(a);
    ProcessAllSplits(f, batch);
    LoadAllIsAccounted(f, batch);
    var loaded := LoadAll(f, batch);
    assert Population(loaded) == Population(f) && Remaining(loaded) == Remaining(f);
    DistributeRound(loaded, batch);
    var b := PutAll(loaded, TickedAll(batch));
    assert LoraAccounted(b);
    PrefillMemory(a, batch, Tokens(b.decode));
  }

  // ---------- Eviction and decoding ----------

  lemma EvictNewestConserves(a: Actor)
    requires Invariant(a) && a.decode != []
    ensures Invariant(EvictNewest(a))
    ensures Population(EvictNewest(a)) == Population(a) && Remaining(EvictNewest(a)) == Remaining(a)
  {
    var last := |a.decode| - 1;
    var newest := a.decode[last];
    SplitStore(a.decode, last);
    assert a.decode[last..] == [newest];
    EnqueuedKeepsOrder(a.recompute, newest);
    EnqueuedMeasures(a.recompute, newest);
    TokensOfOne(newest);
    assert Origins([newest]) == multiset{Origin(newest)};
  }

  /** When the cache is too full there is an item to evict. */
  lemma EvictionStep(a: Actor)
    requires Invariant(a) && ShouldRecompute(a)
    ensures a.decode != [] && Invariant(EvictNewest(a)) && Evicted(EvictNewest(a)) == Evicted(a)
  {
    MaxTokensStaysPositive(a);
    EvictNewestConserves(a);
  }

  /** Eviction ends below the memory limit and loses nothing; if it was needed it did evict something. */
  lemma {:induction false} EvictionPhase(a: Actor)
    requires Invariant(a)
    ensures var e := Evicted(a);
      && Invariant(e)
      && Population(e) == Population(a) && Remaining(e) == Remaining(a)
      && !ShouldRecompute(e)
      && e.decoded == a.decoded && e.prefill == a.prefill && e.maxTokens == a.maxTokens
      && |e.decode| <= |a.decode|
      && (ShouldRecompute(a) ==> |e.decode| < |a.decode|)
    decreases |a.decode|
  {
    MaxTokensStaysPositive(a);
    if ShouldRecompute(a) && a.decode != [] {
      EvictNewestConserves(a);
      EvictionPhase(EvictNewest(a));
    }
  }

  /** The decode store with only its `k` oldest items would still have to be shortened. */
  predicate TooManyKept(a: Actor, k: nat)
    requires k <= |a.decode|
  {
    10 * (k + Tokens(a.decode[..k])) > 9 * a.maxTokens
  }

  /** Eviction takes the newest items first: it keeps a prefix that fits, and every longer prefix would not. */
  lemma {:induction false} EvictionKeepsTheOldest(a: Actor)
    ensures var k := |Evicted(a).decode|;
      && k <= |a.decode| && Evicted(a).decode == a.decode[..k]
      && (forall j :: k < j <= |a.decode| ==> TooManyKept(a, j))
      && (k > 0 ==> !TooManyKept(a, k))
    decreases |a.decode|
  {
    assert a.decode[..|a.decode|] == a.decode;
    if ShouldRecompute(a) && a.decode != [] {
      var b := EvictNewest(a);
      EvictionKeepsTheOldest(b);
      forall j: nat | j <= |b.decode| ensures TooManyKept(a, j) == TooManyKept(b, j) {
        assert b.decode[..j] == a.decode[..j];
      }
      assert TooManyKept(a, |a.decode|);
    }
  }

  lemma DecodePhase(a: Actor)
    requires Invariant(a) && !ShouldRecompute(a)
    ensures var b := DecodeRound(a);
      && Invariant(b)
      && Population(b) == Population(a)
      && Remaining(b) == Remaining(a) - |a.decode|
      && 10 * Tokens(b.decode) <= 9 * b.maxTokens
      && b.maxTokens == a.maxTokens
  {
    assert Tokens([]) == 0 && Outstanding([]) == 0 && Origins([]) == multiset{};
    DistributeRound(a.(decode := []), a.decode);
  }

  // ---------- One iteration ----------

  /** Conservation, order and bounds across one iteration of the scheduler's main loop. */
  lemma IterationKeepsInvariant(a: Actor)
    requires Invariant(a)
    ensures Invariant(Iteration(a)) && Population(Iteration(a)) == Population(a)
  {
    if Idle(a) {
    } else if CanPrefill(a) {
      PrefillPhase(a);
    } else {
      EvictionPhase(a);
      DecodePhase(Evicted(a));
    }
  }

  /**
   Memory after an iteration: a decode round ends within 90% of the maximum; a prefill round may exceed the limit it was
   admitted under only by its last item and that item's new token.
   */
  lemma IterationMemoryBound(a: Actor)
    requires Invariant(a) && !Idle(a)
    ensures if CanPrefill(a) then PrefillMemoryBound(a, Iteration(a))
            else 10 * Tokens(Iteration(a).decode) <= 9 * Iteration(a).maxTokens
  {
    if CanPrefill(a) {
      PrefillPhase(a);
    } else {
      EvictionPhase(a);
      DecodePhase(Evicted(a));
    }
  }

  /** With an empty decode store the head of either waiting store can always be admitted. */
  lemma WaitingHeadIsAdmissible(a: Actor)
    requires Invariant(a) && !Idle(a) && a.decode == []
    ensures CanPrefill(a)
  {
    MaxTokensStaysPositive(a);
    if a.recompute != [] {
      assert IsPartial(a.recompute[0]);
    } else {
      assert IsFresh(a.prefill[0]);
    }
  }

  lemma {:induction false} OutstandingIsPositive(s: seq<Request>)
    requires forall r :: r in s ==> InProgress(r)
    ensures Outstanding(s) >= |s|
    decreases |s|
  {
    if s != [] {
      assert InProgress(s[0]);
      OutstandingIsPositive(s[1..]);
    }
  }

  lemma RemainingIsPositive(a: Actor)
    requires StoresWellFormed(a)
    ensures Remaining(a) >= |a.prefill| + |a.recompute| + |a.decode|
    ensures Remaining(a) == 0 <==> Idle(a)
  {
    OutstandingIsPositive(a.prefill);
    OutstandingIsPositive(a.recompute);
    OutstandingIsPositive(a.decode);
  }

  /** Every working iteration generates a token, or else empties the decode store without generating any. */
  lemma IterationMakesProgress(a: Actor)
    requires Invariant(a) && !Idle(a)
    ensures var b := Iteration(a);
      || Remaining(b) < Remaining(a)
      || (Remaining(b) == Remaining(a) && a.decode != [] && b.decode == [] && !CanPrefill(a))
  {
    if CanPrefill(a) {
      PrefillPhase(a);
    } else {
      if a.decode == [] {
        WaitingHeadIsAdmissible(a);
      }
      EvictionPhase(a);
      DecodePhase(Evicted(a));
    }
  }

  /** The pair (remaining tokens, decode-store size) decreases lexicographically in every working iteration. */
  lemma IterationDecreasesLexicographically(a: Actor)
    requires Invariant(a) && !Idle(a)
    ensures var b := Iteration(a);
      || 0 <= Remaining(b) < Remaining(a)
      || (Remaining(b) == Remaining(a) && |b.decode| < |a.decode|)
  {
    IterationMakesProgress(a);
    IterationKeepsInvariant(a);
    RemainingIsPositive(Iteration(a));
  }

  // ---------- Draining ----------

  function Iterate(a: Actor, n: nat): Actor
    decreases n
  {
    if n == 0 then a else Iterate(Iteration(a), n - 1)
  }

  /** Working iterations still possible: two per token, one fewer when the decode store has just been emptied. */
  function Potential(a: Actor): int {
    2 * Remaining(a) - if !Idle(a) && a.decode == [] then 1 else 0
  }

  lemma IterationLowersPotential(a: Actor)
    requires Invariant(a) && !Idle(a)
    ensures Invariant(Iteration(a)) && 0 <= Potential(Iteration(a)) < Potential(a)
  {
    IterationMakesProgress(a);
    IterationKeepsInvariant(a);
    RemainingIsPositive(a);
    RemainingIsPositive(Iteration(a));
  }

  lemma {:induction false} IdleStaysIdle(a: Actor, n: nat)
    requires Idle(a)
    ensures Iterate(a, n) == a
    decreases n
  {
    if n > 0 {
      IdleStaysIdle(a, n - 1);
    }
  }

  lemma {:induction false} DrainsWithinPotential(a: Actor, n: nat)
    requires Invariant(a) && Potential(a) <= n
    ensures Idle(Iterate(a, n)) && Population(Iterate(a, n)) == Population(a) && Invariant(Iterate(a, n))
    decreases n
  {
    if Idle(a) {
      IdleStaysIdle(a, n);
    } else {
      IterationLowersPotential(a);
      IterationKeepsInvariant(a);
      DrainsWithinPotential(Iteration(a), n - 1);
    }
  }

  /**
   With no new arrivals the actor drains: within twice as many iterations as there are tokens left to generate, every
   store but the decoded one is empty, and the decoded store holds exactly the requests the actor had, each complete.
   */
  lemma ActorDrains(a: Actor)
    requires Invariant(a)
    ensures 0 <= Remaining(a)
    ensures var b := Iterate(a, 2 * Remaining(a));
      Idle(b) && Origins(b.decoded) == Population(a) && forall r :: r in b.decoded ==> IsDone(r)
  {
    RemainingIsPositive(a);
    DrainsWithinPotential(a, 2 * Remaining(a));
    assert Origins([]) == multiset{};
  }

  // ---------- What an iteration does to each store ----------

  /** A prefill iteration takes its batch from the two waiting stores and puts it behind what is in the other two. */
  lemma PrefillIterationMoves(a: Actor)
    requires CanPrefill(a)
    ensures var b, ticked := Iteration(a), TickedAll(Batch(a));
      && b.recompute == a.recompute[FromRecompute(a)..] && b.prefill == a.prefill[FromPrefill(a)..]
      && b.decode == a.decode + Unfinished(ticked) && b.decoded == a.decoded + Finished(ticked)
  {
    ProcessAllSplits(Fetched(a), Batch(a));
    PutAllSplits(LoadAll(Fetched(a), Batch(a)), TickedAll(Batch(a)));
    LoadAllMovesNothing(Fetched(a), Batch(a));
  }

  lemma {:induction false} LoadAllMovesNothing(a: Actor, batch: seq<Request>)
    ensures var b := LoadAll(a, batch);
      b.prefill == a.prefill && b.recompute == a.recompute && b.decode == a.decode && b.decoded == a.decoded
    decreases |batch|
  {
    if batch != [] {
      LoadAllMovesNothing(LoadLora(a, batch[0].lora), batch[1..]);
    }
  }

  /**
   Any other iteration leaves the prefill store and the adapters alone, keeps the oldest items of the decode store, moves
   the others to the recompute store, and gives each of the kept items one token.
   */
  lemma DecodeIterationMoves(a: Actor)
    requires Invariant(a) && !Idle(a) && !CanPrefill(a)
    ensures var b, k := Iteration(a), |Evicted(a).decode|;
      && b.prefill == a.prefill && b.loraLoaded == a.loraLoaded && b.maxTokens == a.maxTokens
      && k <= |a.decode| && (!ShouldRecompute(a) ==> k == |a.decode|)
      && b.decode == Unfinished(TickedAll(a.decode[..k])) && b.decoded == a.decoded + Finished(TickedAll(a.decode[..k]))
      && b.recompute == Evicted(a).recompute
      && (forall r :: r in b.recompute <==> r in a.recompute || r in a.decode[k..])
  {
    var e := Evicted(a);
    EvictionKeepsTheOldest(a);
    EvictionMovesTheRest(a);
    PutAllSplits(e.(decode := []), TickedAll(e.decode));
    assert [] + Unfinished(TickedAll(e.decode)) == Unfinished(TickedAll(e.decode));
    if e.decode == [] {
      assert a.decoded + [] == a.decoded;
    }
  }

  lemma {:induction false} EvictionMovesTheRest(a: Actor)
    requires Sorted(a.recompute)
    ensures var e := Evicted(a); var k := |e.decode|;
      && k <= |a.decode|
      && e.prefill == a.prefill && e.loraLoaded == a.loraLoaded && e.maxTokens == a.maxTokens && e.decoded == a.decoded
      && forall r :: r in e.recompute <==> r in a.recompute || r in a.decode[k..]
    decreases |a.decode|
  {
    if ShouldRecompute(a) && a.decode != [] {
      var last := |a.decode| - 1;
      EnqueuedKeepsOrder(a.recompute, a.decode[last]);
      EvictionMovesTheRest(EvictNewest(a));
      var k := |Evicted(a).decode|;
      assert a.decode[k..] == a.decode[..last][k..] + [a.decode[last]];
    }
  }

  // ---------- Runs with arrivals ----------

  datatype Event = Arrival(request: Request) | Loop

  /** A new actor: empty stores and the full cache. */
  function NewActor(): Actor {
    Actor([], [], [], [], {}, MAX_NUM_TOKENS_ALLOWED)
  }

  function After(a: Actor, e: Event): Actor {
    match e
    case Arrival(r) => a.(prefill := a.prefill + [r])
    case Loop => Iteration(a)
  }

  function Run(events: seq<Event>): Actor {
    if events == [] then NewActor() else After(Run(events[..|events| - 1]), events[|events| - 1])
  }

  function Arrived(events: seq<Event>): seq<Request> {
    if events == [] then [] else
      Arrived(events[..|events| - 1])
      + match events[|events| - 1] case Arrival(r) => [r] case Loop => []
  }

  lemma ArrivalKeepsInvariant(a: Actor, r: Request)
    requires Invariant(a) && IsFresh(r)
    ensures Invariant(After(a, Arrival(r)))
    ensures Population(After(a, Arrival(r))) == Population(a) + multiset{r}
  {
    OriginsConcat(a.prefill, [r]);
    assert Origins([r]) == multiset{Origin(r)} && Origin(r) == r;
  }

  lemma NewActorIsValid()
    ensures Invariant(NewActor())
  {
    SumOfZeros(LoraSizes({}));
  }

  /**
   In every run, at every iteration boundary: the requests held are exactly those that arrived, each in the phase its
   store stands for, and the limits on sequences and memory are kept. Hence no request is ever decoded past its end.
   */
  lemma {:induction false} EveryRunConserves(events: seq<Event>)
    requires forall r :: r in Arrived(events) ==> IsFresh(r)
    ensures Invariant(Run(events)) && Population(Run(events)) == multiset(Arrived(events))
    decreases |events|
  {
    if events == [] {
      NewActorIsValid();
    } else {
      var before, e := events[..|events| - 1], events[|events| - 1];
      forall r | r in Arrived(before) ensures IsFresh(r) {
        assert r in Arrived(events);
      }
      EveryRunConserves(before);
      match e
      case Arrival(r) =>
        assert Arrived(events) == Arrived(before) + [r];
        assert r in Arrived(events);
        ArrivalKeepsInvariant(Run(before), r);
      case Loop =>
        assert Arrived(events) == Arrived(before) + [];
        IterationKeepsInvariant(Run(before));
    }
  }

  lemma {:induction false} DistinctOnceInMultiset(s: seq<Request>, r: Request)
    requires r in s && forall i, j :: 0 <= i < j < |s| ==> s[i].id != s[j].id
    ensures multiset(s)[r] == 1
    decreases |s|
  {
    assert s == [s[0]] + s[1..];
    if s[0] == r {
      assert r !in s[1..];
    } else {
      DistinctOnceInMultiset(s[1..], r);
    }
  }

  /** When ids are unique, a request that arrived is in one place of one store: its four store counts add up to one. */
  lemma EachRequestIsInOneStore(events: seq<Event>, r: Request)
    requires forall x :: x in Arrived(events) ==> IsFresh(x)
    requires forall i, j :: 0 <= i < j < |Arrived(events)| ==> Arrived(events)[i].id != Arrived(events)[j].id
    requires r in Arrived(events)
    ensures var a := Run(events);
      Origins(a.prefill)[r] + Origins(a.recompute)[r] + Origins(a.decode)[r] + Origins(a.decoded)[r] == 1
  {
    EveryRunConserves(events);
    DistinctOnceInMultiset(Arrived(events), r);
    assert Population(Run(events))[r] == 1;
  }
}
