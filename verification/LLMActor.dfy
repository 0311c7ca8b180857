/** The LLM actor as an object whose scheduler moves requests between its stores in place. */
module LLMActors {
  import opened BatchScheduler
  import opened BatchRuns

  class LLMActor {
    var prefillStore: seq<Request>
    var recomputeStore: seq<Request>
    var decodeStore: seq<Request>
    var decodedStore: seq<Request>
    var loraLoaded: set<string>
    var maxNumTokensAllowed: int

    ghost function State(): Actor
      reads this
    {
      Actor(prefillStore, recomputeStore, decodeStore, decodedStore, loraLoaded, maxNumTokensAllowed)
    }

    constructor ()
      ensures State() == NewActor() && Invariant(State())
      ensures prefillStore == recomputeStore == decodeStore == decodedStore == [] && loraLoaded == {}
      ensures maxNumTokensAllowed == 2810 * 16 - 512
    {
      prefillStore, recomputeStore, decodeStore, decodedStore := [], [], [], [];
      loraLoaded, maxNumTokensAllowed := {}, MAX_NUM_TOKENS_ALLOWED;
      new;
      NewActorIsValid();
    }

    method CanPrefillItems() returns (can: bool)
      ensures can <==> Batch(State()) != []
      ensures can <==>
              || (recomputeStore != [] && Fits(State(), [], recomputeStore[0]))
              || (prefillStore != [] && Fits(State(), [], prefillStore[0]))
    {
      CanPrefillIffBatch(State());
      if |recomputeStore| > 0 {
        var oldest := recomputeStore[0];
        if !(|decodeStore| + 0 + 1 > MAX_NUM_SEQ || 0 + oldest.inputSize > MAX_NUM_BATCH_TOKENS
             || 10 * (0 + 0 + Tokens(decodeStore)) >= 9 * maxNumTokensAllowed) {
          return true;
        }
      }
      if |prefillStore| > 0 {
        var oldest := prefillStore[0];
        if !(|decodeStore| + 0 + 1 > MAX_NUM_SEQ || 0 + oldest.inputSize > MAX_NUM_BATCH_TOKENS
             || 10 * (0 + 0 + Tokens(decodeStore)) >= 9 * maxNumTokensAllowed) {
          return true;
        }
      }
      return false;
    }

    /** One of the two fetch loops: takes from the front of `store` into the batch until a limit is reached. */
    method FetchLoop(store: seq<Request>, taken: seq<Request>) returns (items: seq<Request>, rest: seq<Request>)
      ensures var n := Admitted(State(), store, Tokens(taken), |taken|);
        items == taken + store[..n] && rest == store[n..]
    {
      items, rest := taken, store;
      var batchSize, numNewSeq := Tokens(taken), |taken|;
      ghost var n := Admitted(State(), store, batchSize, numNewSeq);
      ghost var k := 0;
      while |rest| > 0
        invariant k <= n && numNewSeq == |items| && batchSize == Tokens(items)
        invariant items == taken + store[..k] && rest == store[k..]
        invariant n == k + Admitted(State(), rest, batchSize, numNewSeq)
        decreases |rest|
      {
        var oldest := rest[0];
        if |decodeStore| + numNewSeq + 1 > MAX_NUM_SEQ || batchSize + oldest.inputSize > MAX_NUM_BATCH_TOKENS
           || 10 * (batchSize + numNewSeq + Tokens(decodeStore)) >= 9 * maxNumTokensAllowed {
          break;
        }
        TokensSnoc(items, oldest);
        batchSize, numNewSeq := batchSize + Len(oldest), numNewSeq + 1;
        items, rest := items + [oldest], rest[1..];
        k := k + 1;
      }
    }

    /** The loop takes exactly the items that fit behind those before them, up to the first that does not. */
    method FetchFrom(store: seq<Request>, taken: seq<Request>) returns (items: seq<Request>, rest: seq<Request>)
      ensures var n := Admitted(State(), store, Tokens(taken), |taken|);
        && items == taken + store[..n] && rest == store[n..]
        && (forall k :: 0 <= k < n ==> Fits(State(), taken + store[..k], store[k]))
      ensures rest != [] ==> !Fits(State(), items, rest[0])
    {
      items, rest := FetchLoop(store, taken);
      FetchTakesWhatFits(State(), taken, store);
    }

    method FetchPrefillItems() returns (items: seq<Request>)
      modifies this`recomputeStore, this`prefillStore
      ensures items == Batch(old(State())) && State() == Fetched(old(State()))
    {
      ghost var a := State();
      items, recomputeStore := FetchFrom(recomputeStore, []);
      assert items == a.recompute[..FromRecompute(a)];
      AdmissionIgnoresWaiting(State(), a, prefillStore, Tokens(items), |items|);
      items, prefillStore := FetchFrom(prefillStore, items);
    }

    method ProcessPrefillItems(items: seq<Request>) returns (raised: bool)
      requires forall r :: r in items ==> Sized(r)
      modifies this`loraLoaded, this`maxNumTokensAllowed, this`decodeStore, this`decodedStore
      ensures raised <==> FirstSpent(items) < |items|
      ensures State() == ProcessAll(old(State()), if raised then items[..FirstSpent(items) + 1] else items)
    {
      for i := 0 to |items|
        invariant State() == ProcessAll(old(State()), items[..i]) && i <= FirstSpent(items)
      {
        var item := items[i];
        assert item in items;
        assert items[..i + 1] == items[..i] + [item];
        ProcessAllSnoc(old(State()), items[..i], item);
        FirstSpentIs(items, i);
        if item.lora.Some? {
          if item.lora.value !in loraLoaded {
            loraLoaded := loraLoaded + {item.lora.value};
            maxNumTokensAllowed := maxNumTokensAllowed - LORA_DICT[item.lora.value];
          }
        }
        item := item.(remaining := item.remaining - 1);
        if item.remaining == 0 {
          decodedStore := decodedStore + [item];
        } else {
          decodeStore := decodeStore + [item];
          if item.remaining <= 0 {
            return true;
          }
        }
      }
      assert items[..|items|] == items;
      return false;
    }

    /** The eviction loop terminates: the cache limit is positive, so it never asks for more of an empty store. */
    method RemoveFromDecodeStore()
      requires Invariant(State())
      modifies this`decodeStore, this`recomputeStore
      ensures State() == Evicted(old(State())) && Invariant(State()) && !ShouldRecompute(State())
    {
      EvictionPhase(State());
      while 10 * (|decodeStore| + Tokens(decodeStore)) > 9 * maxNumTokensAllowed
        invariant Invariant(State()) && Evicted(State()) == Evicted(old(State()))
        decreases |decodeStore|
      {
        EvictionStep(State());
        var newest := decodeStore[|decodeStore| - 1];
        decodeStore := decodeStore[..|decodeStore| - 1];
        recomputeStore := Enqueued(recomputeStore, newest);
      }
    }

    /** `raised` reports the error for a negative remainder; on a valid actor it is never raised. */
    method DecodeItems() returns (raised: bool)
      requires Invariant(State())
      modifies this`decodeStore, this`decodedStore
      ensures !raised && State() == DecodeRound(old(State()))
    {
      var numItems := |decodeStore|;
      var tempItems: seq<Request> := [];
      for i := 0 to numItems
        invariant tempItems == TickedAll(old(decodeStore))[..i] && decodeStore == old(decodeStore)[i..]
        invariant decodedStore == old(decodedStore)
      {
        var msg := decodeStore[0];
        assert msg in old(decodeStore);
        decodeStore := decodeStore[1..];
        msg := msg.(remaining := msg.remaining - 1);
        if msg.remaining < 0 {
          return true;
        }
        tempItems := tempItems + [msg];
      }
      assert tempItems == TickedAll(old(decodeStore));
      PutBack(tempItems);
      return false;
    }

    /** The loop that puts each item where its remaining output says. */
    method PutBack(items: seq<Request>)
      modifies this`decodeStore, this`decodedStore
      ensures State() == PutAll(old(State()), items)
    {
      for i := 0 to |items|
        invariant PutAll(State(), items[i..]) == PutAll(old(State()), items)
      {
        assert items[i..][1..] == items[i + 1..];
        if items[i].remaining == 0 {
          decodedStore := decodedStore + [items[i]];
        } else {
          decodeStore := decodeStore + [items[i]];
        }
      }
    }

    /** One pass of the main loop. */
    method PrefillOrDecode() returns (raised: bool)
      requires Invariant(State())
      modifies this
      ensures !raised
      ensures State() == Iteration(old(State())) && Invariant(State())
      ensures Population(State()) == Population(old(State()))
    {
      raised := false;
      IterationKeepsInvariant(State());
      if |decodeStore| == 0 && |prefillStore| == 0 && |recomputeStore| == 0 {
        return;
      }
      var can := CanPrefillItems();
      if can {
        CanPrefillIffBatch(State());
        FetchKeepsWellFormed(State());
        var items := FetchPrefillItems();
        NoneSpent(items);
        raised := ProcessPrefillItems(items);
      } else {
        CanPrefillIffBatch(State());
        if 10 * (|decodeStore| + Tokens(decodeStore)) > 9 * maxNumTokensAllowed {
          RemoveFromDecodeStore();
        }
        if |decodeStore| > 0 {
          raised := DecodeItems();
        }
      }
    }

    /** A request routed to this actor. */
    method Arrive(r: Request)
      requires Invariant(State()) && IsFresh(r)
      modifies this`prefillStore
      ensures State() == After(old(State()), Arrival(r)) && Invariant(State())
      ensures Population(State()) == Population(old(State())) + multiset{r}
    {
      ArrivalKeepsInvariant(State(), r);
      prefillStore := prefillStore + [r];
    }
  }
}
