/**
 The continuous-batching scheduler of the LLM actor simulation: four stores of requests, admission of a prefill batch
 under three limits, eviction to the recompute store when the key-value cache runs full, and decode rounds of one token.
 */
module BatchScheduler {
  import opened Sequences
  import opened Wrappers
  import opened Sums

  const MAX_NUM_SEQ := 256
  const MAX_NUM_BATCH_TOKENS := 512
  const MAX_NUM_TOKENS_ALLOWED := 2810 * 16 - MAX_NUM_BATCH_TOKENS
  const LORA_DICT: map<string, int> := map["tweet" := 1600, "sql" := 1600, "dummy-1" := 0, "dummy-2" := 0]

  datatype Request = Request(id: string, inputSize: int, outputSize: int, remaining: int, lora: Option<string>)

  /** `recompute` is listed in priority order, its head being the item a priority store returns next. */
  datatype Actor = Actor(
    prefill: seq<Request>,
    recompute: seq<Request>,
    decode: seq<Request>,
    decoded: seq<Request>,
    loraLoaded: set<string>,
    maxTokens: int)

  // ---------- Queries on the stores ----------

  /** Tokens a request occupies in the cache: its prompt and what it has generated so far. */
  function Len(r: Request): int {
    r.inputSize + r.outputSize - r.remaining
  }

  function Tokens(s: seq<Request>): int {
    if s == [] then 0 else Len(s[0]) + Tokens(s[1..])
  }

  function InputTokens(s: seq<Request>): int {
    if s == [] then 0 else s[0].inputSize + InputTokens(s[1..])
  }

  function Outstanding(s: seq<Request>): int {
    if s == [] then 0 else s[0].remaining + Outstanding(s[1..])
  }

  // ---------- The phases of one iteration ----------

  /** The three admission limits, for a batch that so far has `count` items of `batchTokens` tokens in all. */
  predicate Blocked(a: Actor, batchTokens: int, count: int, r: Request) {
    || |a.decode| + count + 1 > MAX_NUM_SEQ
    || batchTokens + r.inputSize > MAX_NUM_BATCH_TOKENS
    || 10 * (batchTokens + count + Tokens(a.decode)) >= 9 * a.maxTokens
  }

  predicate CanPrefill(a: Actor) {
    || (a.recompute != [] && !Blocked(a, 0, 0, a.recompute[0]))
    || (a.prefill != [] && !Blocked(a, 0, 0, a.prefill[0]))
  }

  /** How many items a fetch loop takes from the front of a store. */
  function Admitted(a: Actor, store: seq<Request>, batchTokens: int, count: int): (n: nat)
    ensures n <= |store|
  {
    if store == [] || Blocked(a, batchTokens, count, store[0]) then 0
    else 1 + Admitted(a, store[1..], batchTokens + Len(store[0]), count + 1)
  }

  function FromRecompute(a: Actor): (n: nat)
    ensures n <= |a.recompute|
  {
    Admitted(a, a.recompute, 0, 0)
  }

  function FromPrefill(a: Actor): (n: nat)
    ensures n <= |a.prefill|
  {
    Admitted(a, a.prefill, Tokens(a.recompute[..FromRecompute(a)]), FromRecompute(a))
  }

  function Batch(a: Actor): seq<Request> {
    a.recompute[..FromRecompute(a)] + a.prefill[..FromPrefill(a)]
  }

  function Fetched(a: Actor): Actor {
    a.(recompute := a.recompute[FromRecompute(a)..], prefill := a.prefill[FromPrefill(a)..])
  }

  function LoadLora(a: Actor, lora: Option<string>): Actor {
    if lora.Some? && lora.value !in a.loraLoaded && lora.value in LORA_DICT then
      a.(loraLoaded := a.loraLoaded + {lora.value}, maxTokens := a.maxTokens - LORA_DICT[lora.value])
    else a
  }

  function Ticked(r: Request): Request {
    r.(remaining := r.remaining - 1)
  }

  /** The item goes where its remaining output says, behind what is there. */
  function Put(a: Actor, r: Request): Actor {
    if r.remaining == 0 then a.(decoded := a.decoded + [r]) else a.(decode := a.decode + [r])
  }

  function ProcessOne(a: Actor, r: Request): Actor {
    Put(LoadLora(a, r.lora), Ticked(r))
  }

  function ProcessAll(a: Actor, batch: seq<Request>): Actor
    decreases |batch|
  {
    if batch == [] then a else ProcessAll(ProcessOne(a, batch[0]), batch[1..])
  }

  predicate ShouldRecompute(a: Actor) {
    10 * (|a.decode| + Tokens(a.decode)) > 9 * a.maxTokens
  }

  /** Python's `<` on strings: lexicographic by code point. */
  predicate Before(a: string, b: string) {
    b != [] && (a == [] || a[0] < b[0] || (a[0] == b[0] && Before(a[1..], b[1..])))
  }

  function Enqueued(store: seq<Request>, r: Request): seq<Request> {
    if store == [] || Before(r.id, store[0].id) then [r] + store else [store[0]] + Enqueued(store[1..], r)
  }

  /** The newest item of the decode store moves to the recompute store. */
  function EvictNewest(a: Actor): Actor
    requires a.decode != []
  {
    var newest := a.decode[|a.decode| - 1];
    a.(decode := a.decode[..|a.decode| - 1], recompute := Enqueued(a.recompute, newest))
  }

  function Evicted(a: Actor): Actor
    decreases |a.decode|
  {
    if ShouldRecompute(a) && a.decode != [] then Evicted(EvictNewest(a)) else a
  }

  function PutAll(a: Actor, items: seq<Request>): Actor
    decreases |items|
  {
    if items == [] then a else PutAll(Put(a, items[0]), items[1..])
  }

  function TickedAll(s: seq<Request>): (r: seq<Request>)
    ensures |r| == |s| && forall i :: 0 <= i < |s| ==> r[i] == Ticked(s[i])
  {
    if s == [] then [] else [Ticked(s[0])] + TickedAll(s[1..])
  }

  function DecodeRound(a: Actor): Actor {
    PutAll(a.(decode := []), TickedAll(a.decode))
  }

  predicate Idle(a: Actor) {
    a.decode == [] && a.prefill == [] && a.recompute == []
  }

  function Iteration(a: Actor): Actor {
    if Idle(a) then a
    else if CanPrefill(a) then ProcessAll(Fetched(a), Batch(a))
    else
      var e := if ShouldRecompute(a) then Evicted(a) else a;
      if e.decode != [] then DecodeRound(e) else e
  }

  // ---------- Sums over stores ----------

  lemma {:induction false} TokensConcat(s: seq<Request>, t: seq<Request>)
    ensures Tokens(s + t) == Tokens(s) + Tokens(t)
    ensures InputTokens(s + t) == InputTokens(s) + InputTokens(t)
    ensures Outstanding(s + t) == Outstanding(s) + Outstanding(t)
    decreases |s|
  {
    if s == [] {
      assert s + t == t;
    } else {
      assert (s + t)[1..] == s[1..] + t;
      TokensConcat(s[1..], t);
    }
  }

  lemma TokensOfOne(r: Request)
    ensures Tokens([r]) == Len(r) == r.inputSize + (r.outputSize - r.remaining)
    ensures InputTokens([r]) == r.inputSize && Outstanding([r]) == r.remaining
  {
    assert [r][1..] == [];
  }

  lemma TokensSnoc(s: seq<Request>, r: Request)
    ensures Tokens(s + [r]) == Tokens(s) + Len(r)
    ensures InputTokens(s + [r]) == InputTokens(s) + r.inputSize
    ensures Outstanding(s + [r]) == Outstanding(s) + r.remaining
  {
    TokensConcat(s, [r]);
    TokensOfOne(r);
  }

  // ---------- What every request satisfies, by store ----------

  predicate Sized(r: Request) {
    1 <= r.inputSize <= MAX_NUM_BATCH_TOKENS && 1 <= r.outputSize && (r.lora.Some? ==> r.lora.value in LORA_DICT)
  }

  predicate IsFresh(r: Request) {
    Sized(r) && r.remaining == r.outputSize
  }

  predicate IsPartial(r: Request) {
    Sized(r) && 0 < r.remaining < r.outputSize
  }

  predicate IsDone(r: Request) {
    Sized(r) && r.remaining == 0
  }

  predicate Sorted(store: seq<Request>) {
    forall i, j :: 0 <= i < j < |store| ==> !Before(store[j].id, store[i].id)
  }

  function LoraSizes(loaded: set<string>): map<string, int> {
    map l | l in loaded && l in LORA_DICT :: LORA_DICT[l]
  }

  /** The tokens allowed are the constant less the sizes of the distinct adapters loaded. */
  ghost predicate LoraAccounted(a: Actor) {
    a.loraLoaded <= LORA_DICT.Keys && a.maxTokens == MAX_NUM_TOKENS_ALLOWED - Sum(LoraSizes(a.loraLoaded))
  }

  predicate StoresWellFormed(a: Actor) {
    && (forall r :: r in a.prefill ==> IsFresh(r))
    && (forall r :: r in a.recompute ==> IsPartial(r))
    && (forall r :: r in a.decode ==> IsPartial(r))
    && (forall r :: r in a.decoded ==> IsDone(r))
  }

  ghost predicate Invariant(a: Actor) {
    && StoresWellFormed(a)
    && Sorted(a.recompute)
    && |a.decode| <= MAX_NUM_SEQ
    && LoraAccounted(a)
  }

  // ---------- Closed forms ----------

  function Unfinished(s: seq<Request>): seq<Request> {
    if s == [] then [] else (if s[0].remaining == 0 then [] else [s[0]]) + Unfinished(s[1..])
  }

  function Finished(s: seq<Request>): seq<Request> {
    if s == [] then [] else (if s[0].remaining == 0 then [s[0]] else []) + Finished(s[1..])
  }

  lemma {:induction false} PutAllSplits(a: Actor, items: seq<Request>)
    ensures PutAll(a, items) == a.(decode := a.decode + Unfinished(items), decoded := a.decoded + Finished(items))
    decreases |items|
  {
    if items == [] {
      assert a.decode + [] == a.decode && a.decoded + [] == a.decoded;
    } else {
      PutAllSplits(Put(a, items[0]), items[1..]);
      if items[0].remaining == 0 {
        ConcatIsAssociative(a.decoded, [items[0]], Finished(items[1..]));
      } else {
        ConcatIsAssociative(a.decode, [items[0]], Unfinished(items[1..]));
      }
    }
  }

  function LoadAll(a: Actor, batch: seq<Request>): Actor
    decreases |batch|
  {
    if batch == [] then a else LoadAll(LoadLora(a, batch[0].lora), batch[1..])
  }

  lemma {:induction false} LoadAllCommutesWithPut(a: Actor, r: Request, batch: seq<Request>)
    ensures LoadAll(Put(a, r), batch) == Put(LoadAll(a, batch), r)
    decreases |batch|
  {
    if batch != [] {
      assert LoadLora(Put(a, r), batch[0].lora) == Put(LoadLora(a, batch[0].lora), r);
      LoadAllCommutesWithPut(LoadLora(a, batch[0].lora), r, batch[1..]);
    }
  }

  /** Processing a batch is loading its adapters and distributing its items, each with one token less to go. */
  lemma {:induction false} ProcessAllSplits(a: Actor, batch: seq<Request>)
    ensures ProcessAll(a, batch) == PutAll(LoadAll(a, batch), TickedAll(batch))
    decreases |batch|
  {
    if batch != [] {
      var t, loaded := Ticked(batch[0]), LoadLora(a, batch[0].lora);
      ProcessAllSplits(Put(loaded, t), batch[1..]);
      LoadAllCommutesWithPut(loaded, t, batch[1..]);
      assert TickedAll(batch)[1..] == TickedAll(batch[1..]);
    }
  }

  // ---------- One token each ----------

  /** The request as it arrived. */
  function Origin(r: Request): Request {
    r.(remaining := r.outputSize)
  }

  function Origins(s: seq<Request>): multiset<Request> {
    if s == [] then multiset{} else multiset{Origin(s[0])} + Origins(s[1..])
  }

  lemma {:induction false} OriginsConcat(s: seq<Request>, t: seq<Request>)
    ensures Origins(s + t) == Origins(s) + Origins(t)
    decreases |s|
  {
    if s == [] {
      assert s + t == t;
    } else {
      assert (s + t)[1..] == s[1..] + t;
      OriginsConcat(s[1..], t);
    }
  }

  predicate InProgress(r: Request) {
    Sized(r) && 0 < r.remaining <= r.outputSize
  }

  /** What one token more does to the first of the items. */
  lemma TickSplits(s: seq<Request>)
    requires s != []
    ensures var t, u, f := Ticked(s[0]), Unfinished(TickedAll(s[1..])), Finished(TickedAll(s[1..]));
      && Unfinished(TickedAll(s)) == (if t.remaining == 0 then u else [t] + u)
      && Finished(TickedAll(s)) == (if t.remaining == 0 then [t] + f else f)
  {
    assert TickedAll(s)[1..] == TickedAll(s[1..]) && TickedAll(s)[0] == Ticked(s[0]);
  }

  lemma {:induction false} RoundCounts(s: seq<Request>)
    requires forall r :: r in s ==> InProgress(r)
    ensures var unfinished, finished := Unfinished(TickedAll(s)), Finished(TickedAll(s));
      && |unfinished| + |finished| == |s|
      && Outstanding(unfinished) == Outstanding(s) - |s|
      && Tokens(unfinished) <= Tokens(s) + |s|
    decreases |s|
  {
    if s != [] {
      assert InProgress(s[0]);
      RoundCounts(s[1..]);
      TickSplits(s);
      var t, u := Ticked(s[0]), Unfinished(TickedAll(s[1..]));
      assert ([t] + u)[1..] == u;
    }
  }

  lemma {:induction false} RoundKeepsRequests(s: seq<Request>)
    requires forall r :: r in s ==> InProgress(r)
    ensures var unfinished, finished := Unfinished(TickedAll(s)), Finished(TickedAll(s));
      && (forall r :: r in unfinished ==> IsPartial(r))
      && (forall r :: r in finished ==> IsDone(r))
      && Origins(unfinished) + Origins(finished) == Origins(s)
    decreases |s|
  {
    if s != [] {
      assert InProgress(s[0]);
      RoundKeepsRequests(s[1..]);
      TickSplits(s);
      var t, u, f := Ticked(s[0]), Unfinished(TickedAll(s[1..])), Finished(TickedAll(s[1..]));
      assert Origin(t) == Origin(s[0]) && ([t] + u)[1..] == u && ([t] + f)[1..] == f;
    }
  }

  /** What a round of one token each does to the items it touches, in every respect the stores are measured by. */
  lemma RoundOfOneToken(s: seq<Request>)
    requires forall r :: r in s ==> InProgress(r)
    ensures var unfinished, finished := Unfinished(TickedAll(s)), Finished(TickedAll(s));
      && |unfinished| + |finished| == |s|
      && (forall r :: r in unfinished ==> IsPartial(r))
      && (forall r :: r in finished ==> IsDone(r))
      && Origins(unfinished) + Origins(finished) == Origins(s)
      && Outstanding(unfinished) == Outstanding(s) - |s|
      && Tokens(unfinished) <= Tokens(s) + |s|
  {
    RoundCounts(s);
    RoundKeepsRequests(s);
  }

  // ---------- Admission ----------

  /** What the admission limits guarantee of a whole batch, however many items it has. */
  predicate WithinLimits(a: Actor, batch: seq<Request>) {
    batch != [] ==>
      && |a.decode| + |batch| <= MAX_NUM_SEQ
      && InputTokens(batch) <= MAX_NUM_BATCH_TOKENS
      && 10 * (Tokens(batch[..|batch| - 1]) + |batch| - 1 + Tokens(a.decode)) < 9 * a.maxTokens
  }

  lemma {:induction false} InputsBelowTokens(s: seq<Request>)
    requires forall r :: r in s ==> InProgress(r)
    ensures 0 <= InputTokens(s) <= Tokens(s)
    decreases |s|
  {
    if s != [] {
      assert InProgress(s[0]);
      InputsBelowTokens(s[1..]);
    }
  }

  lemma {:induction false} AdmittedStaysWithinLimits(a: Actor, taken: seq<Request>, store: seq<Request>)
    requires forall r :: r in taken + store ==> InProgress(r)
    requires WithinLimits(a, taken)
    ensures WithinLimits(a, taken + store[..Admitted(a, store, Tokens(taken), |taken|)])
    decreases |store|
  {
    var n := Admitted(a, store, Tokens(taken), |taken|);
    if n == 0 {
      assert taken + store[..0] == taken;
    } else {
      var more := taken + [store[0]];
      TokensSnoc(taken, store[0]);
      InputsBelowTokens(taken);
      assert more[..|more| - 1] == taken;
      assert WithinLimits(a, more);
      forall r | r in more + store[1..] ensures InProgress(r) {
        assert r in taken + store;
      }
      AdmittedStaysWithinLimits(a, more, store[1..]);
      assert more + store[1..][..n - 1] == taken + store[..n];
    }
  }

  /** Every batch respects the sequence limit, the batch-token limit and, up to its last item, the memory limit. */
  lemma BatchIsWithinLimits(a: Actor)
    requires StoresWellFormed(a)
    ensures WithinLimits(a, Batch(a))
  {
    var n := FromRecompute(a);
    AdmittedStaysWithinLimits(a, [], a.recompute);
    assert [] + a.recompute[..n] == a.recompute[..n];
    AdmittedStaysWithinLimits(a, a.recompute[..n], a.prefill);
  }

  /** The limits block item `k` of a store once the items before it have been taken. */
  predicate BlockedAt(a: Actor, store: seq<Request>, batchTokens: int, count: int, k: nat)
    requires k < |store|
  {
    Blocked(a, batchTokens + Tokens(store[..k]), count + k, store[k])
  }

  lemma BlockedAtShifts(a: Actor, store: seq<Request>, batchTokens: int, count: int, k: nat)
    requires 0 < k < |store|
    ensures BlockedAt(a, store, batchTokens, count, k)
         == BlockedAt(a, store[1..], batchTokens + Len(store[0]), count + 1, k - 1)
  {
    assert store[..k][1..] == store[1..][..k - 1];
  }

  /** A fetch loop takes exactly the items in front of the first blocked one. */
  lemma {:induction false} AdmissionStopsAtTheFirstBlocked(a: Actor, store: seq<Request>, batchTokens: int, count: int)
    ensures var n := Admitted(a, store, batchTokens, count);
      && (forall k :: 0 <= k < n ==> !BlockedAt(a, store, batchTokens, count, k))
      && (n < |store| ==> BlockedAt(a, store, batchTokens, count, n))
    decreases |store|
  {
    if store != [] && !Blocked(a, batchTokens, count, store[0]) {
      AdmissionStopsAtTheFirstBlocked(a, store[1..], batchTokens + Len(store[0]), count + 1);
      forall k: nat | 0 < k < |store|
        ensures BlockedAt(a, store, batchTokens, count, k)
             == BlockedAt(a, store[1..], batchTokens + Len(store[0]), count + 1, k - 1)
      {
        BlockedAtShifts(a, store, batchTokens, count, k);
      }
    }
  }

  /** The check made before fetching is exact: it holds if and only if the fetch returns something. */
  lemma CanPrefillIffBatch(a: Actor)
    ensures CanPrefill(a) <==> Batch(a) != []
  {
    if FromRecompute(a) == 0 {
      assert a.recompute[..0] == [];
      assert FromPrefill(a) == Admitted(a, a.prefill, 0, 0);
    }
  }

  /** Admission looks at the decode store and the tokens allowed only. */
  lemma {:induction false} AdmissionIgnoresWaiting(a: Actor, b: Actor, store: seq<Request>, batchTokens: int, count: int)
    requires a.decode == b.decode && a.maxTokens == b.maxTokens
    ensures Admitted(a, store, batchTokens, count) == Admitted(b, store, batchTokens, count)
    decreases |store|
  {
    if store != [] && !Blocked(a, batchTokens, count, store[0]) {
      AdmissionIgnoresWaiting(a, b, store[1..], batchTokens + Len(store[0]), count + 1);
    }
  }

  // ---------- The assertion of the prefill loop ----------

  /** The first item without output left to produce, whose remaining output would turn negative. */
  function FirstSpent(items: seq<Request>): (i: nat)
    ensures i <= |items|
  {
    if items == [] || items[0].remaining <= 0 then 0 else 1 + FirstSpent(items[1..])
  }

  lemma {:induction false} FirstSpentIs(items: seq<Request>, i: nat)
    requires i < |items| && i <= FirstSpent(items)
    ensures FirstSpent(items) == i <==> items[i].remaining <= 0
    decreases |items|
  {
    if i > 0 {
      FirstSpentIs(items[1..], i - 1);
    }
  }

  /** Requests in progress never raise the assertion. */
  lemma {:induction false} NoneSpent(items: seq<Request>)
    requires forall r :: r in items ==> InProgress(r)
    ensures FirstSpent(items) == |items|
    decreases |items|
  {
    if items != [] {
      assert items[0] in items;
      NoneSpent(items[1..]);
    }
  }

  lemma {:induction false} ProcessAllSnoc(a: Actor, batch: seq<Request>, r: Request)
    ensures ProcessAll(a, batch + [r]) == ProcessOne(ProcessAll(a, batch), r)
    decreases |batch|
  {
    if batch == [] {
      assert batch + [r] == [r] && [r][1..] == [];
    } else {
      assert (batch + [r])[1..] == batch[1..] + [r];
      ProcessAllSnoc(ProcessOne(a, batch[0]), batch[1..], r);
    }
  }

  // ---------- The limits in numbers ----------

  /**
   A request may join a batch: the actor has fewer than 256 sequences, the batch stays within 512 tokens with the
   request's input, and less than 90% of the cache is in use.
   */
  predicate Fits(a: Actor, taken: seq<Request>, r: Request) {
    && |a.decode| + |taken| < 256
    && Tokens(taken) + r.inputSize <= 512
    && 10 * (Tokens(taken) + |taken| + Tokens(a.decode)) < 9 * a.maxTokens
  }

  /** Prefilling is possible if and only if the head of the recompute store or of the prefill store fits. */
  lemma CanPrefillIffAHeadFits(a: Actor)
    ensures CanPrefill(a) <==>
            || (a.recompute != [] && Fits(a, [], a.recompute[0]))
            || (a.prefill != [] && Fits(a, [], a.prefill[0]))
  {
  }

  /** A fetch loop that has taken `taken` goes on with exactly the items that fit, and stops at the first that does not. */
  lemma FetchTakesWhatFits(a: Actor, taken: seq<Request>, store: seq<Request>)
    ensures var n := Admitted(a, store, Tokens(taken), |taken|);
      && (forall k :: 0 <= k < n ==> Fits(a, taken + store[..k], store[k]))
      && (n < |store| ==> !Fits(a, taken + store[..n], store[n]))
  {
    AdmissionStopsAtTheFirstBlocked(a, store, Tokens(taken), |taken|);
    var n := Admitted(a, store, Tokens(taken), |taken|);
    forall k: nat | k <= n && k < |store|
      ensures Fits(a, taken + store[..k], store[k]) <==> !BlockedAt(a, store, Tokens(taken), |taken|, k)
    {
      TokensConcat(taken, store[..k]);
    }
  }

  /**
   The batch is the longest possible: it takes the recompute store first, every item in it fits behind those before it,
   and the next one of either store would not fit.
   */
  lemma BatchIsMaximal(a: Actor)
    ensures var n, m := FromRecompute(a), FromPrefill(a);
      && Batch(a) == a.recompute[..n] + a.prefill[..m]
      && (forall k :: 0 <= k < n ==> Fits(a, a.recompute[..k], a.recompute[k]))
      && (n < |a.recompute| ==> !Fits(a, a.recompute[..n], a.recompute[n]))
      && (forall k :: 0 <= k < m ==> Fits(a, a.recompute[..n] + a.prefill[..k], a.prefill[k]))
      && (m < |a.prefill| ==> !Fits(a, Batch(a), a.prefill[m]))
  {
    FetchTakesWhatFits(a, [], a.recompute);
    assert forall k :: 0 <= k <= |a.recompute| ==> [] + a.recompute[..k] == a.recompute[..k];
    FetchTakesWhatFits(a, a.recompute[..FromRecompute(a)], a.prefill);
  }

  // ---------- Adapters and order ----------

  /** A batch loads the adapter of each of its items, and no other. */
  lemma {:induction false} BatchLoadsItsAdapters(a: Actor, batch: seq<Request>, l: string)
    requires forall r :: r in batch ==> Sized(r)
    ensures l in ProcessAll(a, batch).loraLoaded
            <==> l in a.loraLoaded || exists i :: 0 <= i < |batch| && batch[i].lora == Some(l)
    decreases |batch|
  {
    if batch != [] {
      var b, rest := ProcessOne(a, batch[0]), batch[1..];
      BatchLoadsItsAdapters(b, rest, l);
      assert batch[0] in batch;
      assert b.loraLoaded == a.loraLoaded + if batch[0].lora.Some? then {batch[0].lora.value} else {};
      if i :| 0 <= i < |rest| && rest[i].lora == Some(l) {
        assert batch[i + 1].lora == Some(l);
      }
      if i :| 0 <= i < |batch| && batch[i].lora == Some(l) {
        assert i > 0 ==> rest[i - 1].lora == Some(l);
      }
    }
  }

  /** Items keep their order when they are sorted into finished and unfinished ones. */
  lemma {:induction false} DistributionKeepsOrder(s: seq<Request>, t: seq<Request>)
    ensures Unfinished(s + t) == Unfinished(s) + Unfinished(t)
    ensures Finished(s + t) == Finished(s) + Finished(t)
    decreases |s|
  {
    if s == [] {
      assert s + t == t && [] + Unfinished(t) == Unfinished(t) && [] + Finished(t) == Finished(t);
    } else {
      var rest := s[1..];
      assert (s + t)[1..] == rest + t && (s + t)[0] == s[0];
      DistributionKeepsOrder(rest, t);
      ConcatIsAssociative(if s[0].remaining == 0 then [] else [s[0]], Unfinished(rest), Unfinished(t));
      ConcatIsAssociative(if s[0].remaining == 0 then [s[0]] else [], Finished(rest), Finished(t));
    }
  }

  lemma DistributionOfOne(r: Request)
    ensures Unfinished([r]) == if r.remaining == 0 then [] else [r]
    ensures Finished([r]) == if r.remaining == 0 then [r] else []
  {
    assert [r][1..] == [];
  }
}
