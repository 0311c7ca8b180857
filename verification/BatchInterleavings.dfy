/**
 Requests that arrive while an iteration is under way. Every `get` on a store yields to the other processes of the
 simulation, which may put requests at the end of the prefill store. An iteration interrupted in this way does what an
 undisturbed one does between some of these arrivals and the others.
 */
module BatchInterleavings {
  import opened BatchRuns
  import opened BatchScheduler
  import opened Sequences

  function Arrive(a: Actor, more: seq<Request>): Actor {
    a.(prefill := a.prefill + more)
  }

  /** What arrives at the next `get`, and at those after it; once the list is used up nothing arrives any more. */
  function Next(feeds: seq<seq<Request>>): seq<Request> {
    if feeds == [] then [] else feeds[0]
  }

  function Later(feeds: seq<seq<Request>>): seq<seq<Request>> {
    if feeds == [] then [] else feeds[1..]
  }

  // ---------- The fetch from the prefill store ----------

  /** What an interleaved fetch took, what the store then holds, the arrivals it saw, and the feeds still to come. */
  datatype Fetch = Fetch(taken: seq<Request>, rest: seq<Request>, seen: seq<Request>, unseen: seq<seq<Request>>)

  /**
   The fetch loop over the prefill store when other processes run between its steps: after each `get`, the next element
   of `feeds` is put at the end of the store.
   */
  function InterleavedFetch(a: Actor, store: seq<Request>, feeds: seq<seq<Request>>, batchTokens: int, count: int): Fetch
    decreases |feeds|, |store|
  {
    if store == [] || Blocked(a, batchTokens, count, store[0]) then Fetch([], store, [], feeds) else
      var feed, later := Next(feeds), Later(feeds);
      var f := InterleavedFetch(a, store[1..] + feed, later, batchTokens + Len(store[0]), count + 1);
      f.(taken := [store[0]] + f.taken, seen := feed + f.seen)
  }

  function Flat(feeds: seq<seq<Request>>): seq<Request> {
    if feeds == [] then [] else feeds[0] + Flat(feeds[1..])
  }

  /** An uninterrupted fetch, made after the arrivals that `f` saw, takes and leaves what `f` did. */
  predicate MatchesFetchAfterArrivals(a: Actor, store: seq<Request>, batchTokens: int, count: int, f: Fetch) {
    var n := Admitted(a, store + f.seen, batchTokens, count);
    f.taken == (store + f.seen)[..n] && f.rest == (store + f.seen)[n..]
  }

  lemma MatchingFetchStep(a: Actor, store: seq<Request>, feed: seq<Request>, batchTokens: int, count: int, g: Fetch)
    requires store != [] && !Blocked(a, batchTokens, count, store[0])
    requires MatchesFetchAfterArrivals(a, store[1..] + feed, batchTokens + Len(store[0]), count + 1, g)
    ensures MatchesFetchAfterArrivals(a, store, batchTokens, count, g.(taken := [store[0]] + g.taken, seen := feed + g.seen))
  {
    var all := store + (feed + g.seen);
    assert all[0] == store[0] && all[1..] == store[1..] + feed + g.seen;
    ConsSlices(all, Admitted(a, all[1..], batchTokens + Len(store[0]), count + 1));
  }

  /**
   A fetch interleaved with arrivals takes what an uninterrupted fetch takes after the arrivals it saw: mid-fetch
   arrivals can be moved to the iteration boundary before, the unseen ones to the boundary after.
   */
  lemma {:induction false} MidFetchArrivalsMoveToTheBoundary(
      a: Actor, store: seq<Request>, feeds: seq<seq<Request>>, batchTokens: int, count: int)
    ensures MatchesFetchAfterArrivals(a, store, batchTokens, count, InterleavedFetch(a, store, feeds, batchTokens, count))
    decreases |feeds|, |store|
  {
    if store == [] || Blocked(a, batchTokens, count, store[0]) {
      assert store + [] == store;
    } else {
      var feed, later := Next(feeds), Later(feeds);
      MidFetchArrivalsMoveToTheBoundary(a, store[1..] + feed, later, batchTokens + Len(store[0]), count + 1);
      MatchingFetchStep(a, store, feed, batchTokens, count,
                        InterleavedFetch(a, store[1..] + feed, later, batchTokens + Len(store[0]), count + 1));
    }
  }

  /** No arrival is lost: those seen and those still to come are all there were, in order. */
  lemma {:induction false} InterleavedFetchSeesInOrder(
      a: Actor, store: seq<Request>, feeds: seq<seq<Request>>, batchTokens: int, count: int)
    ensures var f := InterleavedFetch(a, store, feeds, batchTokens, count);
      Flat(feeds) == f.seen + Flat(f.unseen)
    decreases |feeds|, |store|
  {
    if store != [] && !Blocked(a, batchTokens, count, store[0]) {
      var feed, later := Next(feeds), Later(feeds);
      InterleavedFetchSeesInOrder(a, store[1..] + feed, later, batchTokens + Len(store[0]), count + 1);
    }
  }

  lemma ConsSlices(s: seq<Request>, k: nat)
    requires s != [] && k < |s|
    ensures s[..k + 1] == [s[0]] + s[1..][..k] && s[k + 1..] == s[1..][k..]
  {
  }

  /** Arrivals never take away the reason to prefill, nor change what is fetched from the recompute store. */
  lemma ArrivalsKeepThePrefillDecision(a: Actor, more: seq<Request>)
    requires CanPrefill(a)
    ensures var b := a.(prefill := a.prefill + more);
      CanPrefill(b) && FromRecompute(b) == FromRecompute(a)
  {
    var b := a.(prefill := a.prefill + more);
    AdmissionIgnoresWaiting(a, b, a.recompute, 0, 0);
  }

  // ---------- The other loops ----------

  /** The actor as a loop leaves it, the arrivals during the loop, and those still to come. */
  datatype Interrupted = Interrupted(actor: Actor, seen: seq<Request>, unseen: seq<seq<Request>>)

  /** `r` is what the undisturbed loop makes of the actor, with the arrivals behind. */
  predicate DoesWithArrivals(r: Interrupted, undisturbed: Actor, feeds: seq<seq<Request>>) {
    r.actor == Arrive(undisturbed, r.seen) && Flat(feeds) == r.seen + Flat(r.unseen)
  }

  lemma FlatSplits(feeds: seq<seq<Request>>)
    ensures Flat(feeds) == Next(feeds) + Flat(Later(feeds))
  {
  }

  /** One more `get`, with what arrives at it, before the rest of a loop. */
  lemma DoesOneMore(r: Interrupted, undisturbed: Actor, feeds: seq<seq<Request>>)
    requires r.actor == Arrive(Arrive(undisturbed, Next(feeds)), r.seen) && Flat(Later(feeds)) == r.seen + Flat(r.unseen)
    ensures DoesWithArrivals(r.(seen := Next(feeds) + r.seen), undisturbed, feeds)
  {
    FlatSplits(feeds);
    ConcatIsAssociative(undisturbed.prefill, Next(feeds), r.seen);
    ConcatIsAssociative(Next(feeds), r.seen, Flat(r.unseen));
  }

  /** The eviction loop. */
  function InterruptedEviction(a: Actor, feeds: seq<seq<Request>>): Interrupted
    decreases |a.decode|
  {
    if ShouldRecompute(a) && a.decode != [] then
      var r := InterruptedEviction(Arrive(EvictNewest(a), Next(feeds)), Later(feeds));
      r.(seen := Next(feeds) + r.seen)
    else Interrupted(a, [], feeds)
  }

  lemma {:induction false} EvictionIgnoresArrivals(a: Actor, more: seq<Request>)
    ensures Evicted(Arrive(a, more)) == Arrive(Evicted(a), more)
    decreases |a.decode|
  {
    if ShouldRecompute(a) && a.decode != [] {
      assert EvictNewest(Arrive(a, more)) == Arrive(EvictNewest(a), more);
      EvictionIgnoresArrivals(EvictNewest(a), more);
    }
  }

  lemma {:induction false} InterruptedEvictionEvicts(a: Actor, feeds: seq<seq<Request>>)
    ensures DoesWithArrivals(InterruptedEviction(a, feeds), Evicted(a), feeds)
    decreases |a.decode|
  {
    if ShouldRecompute(a) && a.decode != [] {
      var b := EvictNewest(a);
      InterruptedEvictionEvicts(Arrive(b, Next(feeds)), Later(feeds));
      EvictionIgnoresArrivals(b, Next(feeds));
      DoesOneMore(InterruptedEviction(Arrive(b, Next(feeds)), Later(feeds)), Evicted(b), feeds);
    } else {
      assert a.prefill + [] == a.prefill;
    }
  }

  /** The decode loop, which takes every item out before it puts any back. */
  function InterruptedDecode(a: Actor, temp: seq<Request>, feeds: seq<seq<Request>>): Interrupted
    decreases |a.decode|
  {
    if a.decode == [] then Interrupted(PutAll(a, temp), [], feeds) else
      var r := InterruptedDecode(Arrive(a.(decode := a.decode[1..]), Next(feeds)), temp + [Ticked(a.decode[0])], Later(feeds));
      r.(seen := Next(feeds) + r.seen)
  }

  lemma PuttingIgnoresArrivals(a: Actor, items: seq<Request>, more: seq<Request>)
    ensures PutAll(Arrive(a, more), items) == Arrive(PutAll(a, items), more)
  {
    PutAllSplits(a, items);
    PutAllSplits(Arrive(a, more), items);
  }

  lemma {:induction false} InterruptedDecodeDecodes(a: Actor, temp: seq<Request>, feeds: seq<seq<Request>>)
    ensures DoesWithArrivals(InterruptedDecode(a, temp, feeds), PutAll(a.(decode := []), temp + TickedAll(a.decode)), feeds)
    decreases |a.decode|
  {
    if a.decode == [] {
      assert temp + TickedAll(a.decode) == temp && a.(decode := []) == a;
      assert PutAll(a, temp).prefill + [] == PutAll(a, temp).prefill;
    } else {
      var b, t := a.(decode := a.decode[1..]), temp + [Ticked(a.decode[0])];
      InterruptedDecodeDecodes(Arrive(b, Next(feeds)), t, Later(feeds));
      var items := t + TickedAll(b.decode);
      assert items == temp + TickedAll(a.decode);
      PuttingIgnoresArrivals(a.(decode := []), items, Next(feeds));
      assert Arrive(b, Next(feeds)).(decode := []) == Arrive(a.(decode := []), Next(feeds));
      DoesOneMore(InterruptedDecode(Arrive(b, Next(feeds)), t, Later(feeds)), PutAll(a.(decode := []), items), feeds);
    }
  }

  /** The fetch from the recompute store: `taken` so far; arrivals go to the other store. */
  function InterruptedRecompute(a: Actor, taken: seq<Request>, feeds: seq<seq<Request>>): (Interrupted, seq<Request>)
    decreases |a.recompute|
  {
    if a.recompute == [] || Blocked(a, Tokens(taken), |taken|, a.recompute[0]) then (Interrupted(a, [], feeds), taken) else
      var (r, all) := InterruptedRecompute(Arrive(a.(recompute := a.recompute[1..]), Next(feeds)),
                                           taken + [a.recompute[0]], Later(feeds));
      (r.(seen := Next(feeds) + r.seen), all)
  }

  lemma {:induction false} InterruptedRecomputeTakes(a: Actor, taken: seq<Request>, feeds: seq<seq<Request>>)
    ensures InterruptedRecompute(a, taken, feeds).1
         == taken + a.recompute[..Admitted(a, a.recompute, Tokens(taken), |taken|)]
    decreases |a.recompute|
  {
    if a.recompute == [] || Blocked(a, Tokens(taken), |taken|, a.recompute[0]) {
      assert taken + a.recompute[..0] == taken;
    } else {
      var head := a.recompute[0];
      var b := Arrive(a.(recompute := a.recompute[1..]), Next(feeds));
      InterruptedRecomputeTakes(b, taken + [head], Later(feeds));
      TokensSnoc(taken, head);
      AdmissionIgnoresWaiting(a, b, b.recompute, Tokens(taken) + Len(head), |taken| + 1);
      var n := Admitted(a, b.recompute, Tokens(taken) + Len(head), |taken| + 1);
      ConsSlices(a.recompute, n);
      ConcatIsAssociative(taken, [head], b.recompute[..n]);
    }
  }

  lemma {:induction false} InterruptedRecomputeLeaves(a: Actor, taken: seq<Request>, feeds: seq<seq<Request>>)
    ensures var n := Admitted(a, a.recompute, Tokens(taken), |taken|);
      DoesWithArrivals(InterruptedRecompute(a, taken, feeds).0, a.(recompute := a.recompute[n..]), feeds)
    decreases |a.recompute|
  {
    if a.recompute == [] || Blocked(a, Tokens(taken), |taken|, a.recompute[0]) {
      assert a.prefill + [] == a.prefill;
    } else {
      var head := a.recompute[0];
      var b := Arrive(a.(recompute := a.recompute[1..]), Next(feeds));
      InterruptedRecomputeLeaves(b, taken + [head], Later(feeds));
      TokensSnoc(taken, head);
      AdmissionIgnoresWaiting(a, b, b.recompute, Tokens(taken) + Len(head), |taken| + 1);
      var n := Admitted(a, b.recompute, Tokens(taken) + Len(head), |taken| + 1);
      ConsSlices(a.recompute, n);
      DoesOneMore(InterruptedRecompute(b, taken + [head], Later(feeds)).0, a.(recompute := b.recompute[n..]), feeds);
    }
  }

  /** An interrupted fetch from the recompute store takes and leaves what an undisturbed one does. */
  lemma InterruptedRecomputeFetches(a: Actor, taken: seq<Request>, feeds: seq<seq<Request>>)
    ensures var (r, all) := InterruptedRecompute(a, taken, feeds);
      var n := Admitted(a, a.recompute, Tokens(taken), |taken|);
      && all == taken + a.recompute[..n]
      && DoesWithArrivals(r, a.(recompute := a.recompute[n..]), feeds)
  {
    InterruptedRecomputeTakes(a, taken, feeds);
    InterruptedRecomputeLeaves(a, taken, feeds);
  }

  // ---------- A whole iteration ----------

  /** Both fetch loops and the processing of what they took. */
  function InterruptedPrefill(a: Actor, feeds: seq<seq<Request>>): Interrupted {
    var (r, taken) := InterruptedRecompute(a, [], feeds);
    var f := InterleavedFetch(r.actor, r.actor.prefill, r.unseen, Tokens(taken), |taken|);
    Interrupted(ProcessAll(r.actor.(prefill := f.rest), taken + f.taken), r.seen + f.seen, f.unseen)
  }

  function InterruptedRound(a: Actor, feeds: seq<seq<Request>>): Interrupted {
    var e := if ShouldRecompute(a) then InterruptedEviction(a, feeds) else Interrupted(a, [], feeds);
    if e.actor.decode == [] then e else
      var d := InterruptedDecode(e.actor, [], e.unseen);
      d.(seen := e.seen + d.seen)
  }

  /** One iteration of the main loop, interrupted by arrivals at its gets. */
  function InterruptedIteration(a: Actor, feeds: seq<seq<Request>>): Interrupted {
    if Idle(a) then Interrupted(a, [], feeds)
    else if CanPrefill(a) then InterruptedPrefill(a, feeds)
    else InterruptedRound(a, feeds)
  }

  /** An interrupted iteration, and the arrivals it has not seen. */
  function Turn(a: Actor, feeds: seq<seq<Request>>): Actor {
    var r := InterruptedIteration(a, feeds);
    Arrive(r.actor, Flat(r.unseen))
  }

  /** Prefilling with interruptions is prefilling after the arrivals that were seen. */
  lemma InterruptedPrefillPrefills(a: Actor, feeds: seq<seq<Request>>)
    requires CanPrefill(a)
    ensures var r := InterruptedPrefill(a, feeds);
      r.actor == Iteration(Arrive(a, r.seen)) && Flat(feeds) == r.seen + Flat(r.unseen)
  {
    var (r, taken) := InterruptedRecompute(a, [], feeds);
    InterruptedRecomputeFetches(a, [], feeds);
    var n := FromRecompute(a);
    assert taken == a.recompute[..n];
    var f := InterleavedFetch(r.actor, r.actor.prefill, r.unseen, Tokens(taken), |taken|);
    MidFetchArrivalsMoveToTheBoundary(r.actor, r.actor.prefill, r.unseen, Tokens(taken), |taken|);
    InterleavedFetchSeesInOrder(r.actor, r.actor.prefill, r.unseen, Tokens(taken), |taken|);
    ConcatIsAssociative(r.seen, f.seen, Flat(f.unseen));
    ConcatIsAssociative(a.prefill, r.seen, f.seen);
    FetchMatchesBatch(a, r.seen + f.seen, r.actor, taken, f);
  }

  lemma FetchMatchesBatch(a: Actor, seen: seq<Request>, r: Actor, taken: seq<Request>, f: Fetch)
    requires CanPrefill(a) && taken == a.recompute[..FromRecompute(a)]
    requires r.(prefill := a.prefill) == a.(recompute := a.recompute[FromRecompute(a)..])
    requires MatchesFetchAfterArrivals(r, r.prefill, Tokens(taken), |taken|, f) && r.prefill + f.seen == a.prefill + seen
    ensures ProcessAll(r.(prefill := f.rest), taken + f.taken) == Iteration(Arrive(a, seen))
  {
    var b := Arrive(a, seen);
    ArrivalsKeepThePrefillDecision(a, seen);
    AdmissionIgnoresWaiting(r, b, b.prefill, Tokens(taken), |taken|);
    assert taken + f.taken == Batch(b);
    assert r.(prefill := f.rest) == Fetched(b);
  }

  /** A round with interruptions is a round before the arrivals. */
  lemma InterruptedRoundDecodes(a: Actor, feeds: seq<seq<Request>>)
    requires !Idle(a) && !CanPrefill(a)
    ensures DoesWithArrivals(InterruptedRound(a, feeds), Iteration(a), feeds)
  {
    var evicted := if ShouldRecompute(a) then Evicted(a) else a;
    var e := if ShouldRecompute(a) then InterruptedEviction(a, feeds) else Interrupted(a, [], feeds);
    if ShouldRecompute(a) {
      InterruptedEvictionEvicts(a, feeds);
    } else {
      assert a.prefill + [] == a.prefill;
    }
    if e.actor.decode != [] {
      InterruptedDecodeDecodes(e.actor, [], e.unseen);
      var d := InterruptedDecode(e.actor, [], e.unseen);
      assert [] + TickedAll(e.actor.decode) == TickedAll(e.actor.decode);
      assert e.actor.(decode := []) == Arrive(evicted.(decode := []), e.seen);
      PuttingIgnoresArrivals(evicted.(decode := []), TickedAll(evicted.decode), e.seen);
      ConcatIsAssociative(DecodeRound(evicted).prefill, e.seen, d.seen);
      ConcatIsAssociative(e.seen, d.seen, Flat(d.unseen));
    }
  }

  /**
   An iteration interrupted by arrivals, and the arrivals it has not seen, are some of the arrivals, an undisturbed
   iteration, and the others, in their order.
   */
  lemma InterruptedIterationSplits(a: Actor, feeds: seq<seq<Request>>) returns (before: seq<Request>, after: seq<Request>)
    ensures before + after == Flat(feeds)
    ensures Turn(a, feeds) == Arrive(Iteration(Arrive(a, before)), after)
  {
    before, after := [], Flat(feeds);
    assert [] + Flat(feeds) == Flat(feeds) && Arrive(a, []) == a;
    if !Idle(a) {
      var r := InterruptedIteration(a, feeds);
      if CanPrefill(a) {
        InterruptedPrefillPrefills(a, feeds);
        before, after := r.seen, Flat(r.unseen);
      } else {
        InterruptedRoundDecodes(a, feeds);
        ConcatIsAssociative(Iteration(a).prefill, r.seen, Flat(r.unseen));
      }
    }
  }

  // ---------- Runs of interrupted iterations ----------

  function InterruptedRun(turns: seq<seq<seq<Request>>>): Actor {
    if turns == [] then NewActor() else Turn(InterruptedRun(turns[..|turns| - 1]), turns[|turns| - 1])
  }

  function AllArrived(turns: seq<seq<seq<Request>>>): seq<Request> {
    if turns == [] then [] else AllArrived(turns[..|turns| - 1]) + Flat(turns[|turns| - 1])
  }

  lemma {:induction false} ArrivalsKeepInvariant(a: Actor, more: seq<Request>)
    requires Invariant(a) && forall r :: r in more ==> IsFresh(r)
    ensures Invariant(Arrive(a, more)) && Population(Arrive(a, more)) == Population(a) + multiset(more)
    decreases |more|
  {
    if more == [] {
      assert Arrive(a, more) == a;
    } else {
      var r := more[0];
      assert r in more;
      ArrivalKeepsInvariant(a, r);
      ArrivalsKeepInvariant(Arrive(a, [r]), more[1..]);
      assert more == [r] + more[1..];
      ConcatIsAssociative(a.prefill, [r], more[1..]);
    }
  }

  lemma TurnConserves(a: Actor, feeds: seq<seq<Request>>)
    requires Invariant(a) && forall r :: r in Flat(feeds) ==> IsFresh(r)
    ensures Invariant(Turn(a, feeds)) && Population(Turn(a, feeds)) == Population(a) + multiset(Flat(feeds))
  {
    var before, after := InterruptedIterationSplits(a, feeds);
    assert forall r :: r in before || r in after ==> r in Flat(feeds);
    ArrivalsKeepInvariant(a, before);
    IterationKeepsInvariant(Arrive(a, before));
    ArrivalsKeepInvariant(Iteration(Arrive(a, before)), after);
    assert multiset(Flat(feeds)) == multiset(before) + multiset(after);
  }

  /** In every run whose iterations are interrupted by arrivals, the stores hold exactly what arrived, and the invariant holds. */
  lemma {:induction false} EveryInterruptedRunConserves(turns: seq<seq<seq<Request>>>)
    requires forall r :: r in AllArrived(turns) ==> IsFresh(r)
    ensures Invariant(InterruptedRun(turns)) && Population(InterruptedRun(turns)) == multiset(AllArrived(turns))
    decreases |turns|
  {
    if turns == [] {
      NewActorIsValid();
    } else {
      var front, feeds := turns[..|turns| - 1], turns[|turns| - 1];
      assert AllArrived(turns) == AllArrived(front) + Flat(feeds);
      assert forall r :: r in AllArrived(front) || r in Flat(feeds) ==> r in AllArrived(turns);
      EveryInterruptedRunConserves(front);
      TurnConserves(InterruptedRun(front), feeds);
    }
  }
}
