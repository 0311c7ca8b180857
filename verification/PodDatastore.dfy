/**
 The pod cache of the endpoint picker: its operations on the pool and the pod map, and the system of cluster changes,
 filtered watch events, reconciles and pool updates that feeds it.
 */
module PodDatastore {
  import opened Wrappers

  type Labels = map<string, string>

  datatype NamespacedName = NamespacedName(namespace: string, name: string)
  datatype Condition = Condition(kind: string, status: string)

  /** A pod as the API server reports it. */
  datatype Pod = Pod(id: NamespacedName, labels: Labels, ip: string, deleting: bool, conditions: seq<Condition>)

  /** What the cache keeps of a pod. */
  datatype CachedPod = CachedPod(id: NamespacedName, address: string, labels: Labels)

  /** `port` stands for everything in the pool's spec that is not the selector. */
  datatype Pool = Pool(namespace: string, selector: Labels, port: int)

  datatype Store = Store(pool: Option<Pool>, pods: map<NamespacedName, CachedPod>)

  // ---------- The operations ----------

  function FirstReadyStatus(conditions: seq<Condition>): string {
    if conditions == [] then ""
    else if conditions[0].kind == "Ready" then conditions[0].status
    else FirstReadyStatus(conditions[1..])
  }

  predicate IsPodReady(pod: Pod) {
    !pod.deleting && FirstReadyStatus(pod.conditions) == "True"
  }

  predicate Matches(selector: Labels, labels: Labels) {
    forall k :: k in selector ==> k in labels && labels[k] == selector[k]
  }

  predicate PoolLabelsMatch(pool: Option<Pool>, labels: Labels) {
    pool.Some? && Matches(pool.value.selector, labels)
  }

  function ToInternal(pod: Pod): CachedPod {
    CachedPod(pod.id, pod.ip, pod.labels)
  }

  function PodUpdateOrAdd(s: Store, pod: Pod): Store {
    s.(pods := s.pods[pod.id := ToInternal(pod)])
  }

  function PodDelete(s: Store, id: NamespacedName): Store {
    s.(pods := s.pods - {id})
  }

  /** The first half of a resync: every listed pod that is ready is updated or added. */
  function WithListed(pods: map<NamespacedName, CachedPod>, listed: seq<Pod>): map<NamespacedName, CachedPod> {
    if listed == [] then pods else
      var last := listed[|listed| - 1];
      var before := WithListed(pods, listed[..|listed| - 1]);
      if IsPodReady(last) then before[last.id := ToInternal(last)] else before
  }

  /** The bare names of the listed pods that are ready. */
  function ActiveNames(listed: seq<Pod>): set<string> {
    set p | p in listed && IsPodReady(p) :: p.id.name
  }

  /** A resync: add what is listed and ready, then drop every entry whose bare name is not among those. */
  function Resynced(pods: map<NamespacedName, CachedPod>, listed: seq<Pod>): map<NamespacedName, CachedPod> {
    var added := WithListed(pods, listed);
    map k | k in added && added[k].id.name in ActiveNames(listed) :: added[k]
  }

  /** A resync happens only when there was no pool, or one with another selector. */
  predicate NeedsResync(previous: Option<Pool>, pool: Pool) {
    previous.None? || previous.value.selector != pool.selector
  }

  /** `listed` is what `List` returned, or nothing if it failed; the pool is stored either way. */
  function PoolSet(s: Store, pool: Option<Pool>, listed: Option<seq<Pod>>): Store {
    if pool.None? then Store(None, map[])
    else if NeedsResync(s.pool, pool.value) && listed.Some? then Store(pool, Resynced(s.pods, listed.value))
    else Store(pool, s.pods)
  }

  function UpdateDatastore(s: Store, pod: Pod): Store {
    if !IsPodReady(pod) || !PoolLabelsMatch(s.pool, pod.labels) then PodDelete(s, pod.id) else PodUpdateOrAdd(s, pod)
  }

  /** `found` is what the reader returned for the request. */
  function Reconcile(s: Store, id: NamespacedName, found: Option<Pod>): Store {
    if s.pool.None? then s
    else if found.None? then PodDelete(s, id)
    else UpdateDatastore(s, found.value)
  }

  // ---------- The system around the cache ----------

  /** A watch event: create, update or delete, by which of the two versions are present. */
  datatype Event = Event(id: NamespacedName, before: Option<Pod>, after: Option<Pod>)

  /** `cluster` is the informer's view of the watched namespace; `queue` the reconcile requests waiting to be served. */
  datatype System = System(
    namespace: string,
    cluster: map<NamespacedName, Pod>,
    store: Store,
    events: seq<Event>,
    queue: set<NamespacedName>)

  function Current(s: System, id: NamespacedName): Option<Pod> {
    if id in s.cluster then Some(s.cluster[id]) else None
  }

  predicate LabelsMatch(pool: Option<Pool>, version: Option<Pod>) {
    version.Some? && PoolLabelsMatch(pool, version.value.labels)
  }

  /** The event predicates: an event is let through if either version of the pod matches the pool's selector. */
  predicate PassesFilter(pool: Option<Pool>, e: Event) {
    LabelsMatch(pool, e.before) || LabelsMatch(pool, e.after)
  }

  predicate Selected(pool: Pool, pod: Pod) {
    pod.id.namespace == pool.namespace && Matches(pool.selector, pod.labels)
  }

  /** What `List` returns for a pool: the pods of its namespace that match its selector, in any order. */
  predicate IsListing(s: System, pool: Pool, listed: seq<Pod>) {
    && (forall p :: p in listed ==> p.id in s.cluster && s.cluster[p.id] == p && Selected(pool, p))
    && (forall id :: id in s.cluster && Selected(pool, s.cluster[id]) ==> s.cluster[id] in listed)
  }

  datatype Step =
    | Change(id: NamespacedName, after: Option<Pod>)
    | Deliver
    | Serve(id: NamespacedName)
    | GetFails(id: NamespacedName)
    | Requeue(id: NamespacedName)
    | SetPool(pool: Pool, listed: seq<Pod>)
    | ListFails(pool: Pool)
    | Clear

  predicate Enabled(s: System, step: Step) {
    match step
    case Change(id, after) =>
      && id.namespace == s.namespace
      && (after.None? ==> id in s.cluster)
      && (after.Some? ==> after.value.id == id)
    case Deliver => s.events != []
    case Serve(id) => id in s.queue
    case GetFails(id) => id in s.queue
    case Requeue(id) => true
    case SetPool(pool, listed) => pool.namespace == s.namespace && IsListing(s, pool, listed)
    case ListFails(pool) => pool.namespace == s.namespace
    case Clear => true
  }

  function Apply(s: System, step: Step): System
    requires Enabled(s, step)
  {
    match step
    case Change(id, after) =>
      s.(cluster := if after.Some? then s.cluster[id := after.value] else s.cluster - {id},
      events := s.events + [Event(id, Current(s, id), after)])
    case Deliver =>
      var e := s.events[0];
      s.(events := s.events[1..], queue := if PassesFilter(s.store.pool, e) then s.queue + {e.id} else s.queue)
    case Serve(id) => s.(queue := s.queue - {id}, store := Reconcile(s.store, id, Current(s, id)))
    case GetFails(id) => s
    case Requeue(id) => s.(queue := s.queue + {id})
    case SetPool(pool, listed) => s.(store := PoolSet(s.store, Some(pool), Some(listed)))
    case ListFails(pool) => s.(store := PoolSet(s.store, Some(pool), None))
    case Clear => s.(store := PoolSet(s.store, None, None))
  }

  function Init(namespace: string): System {
    System(namespace, map[], Store(None, map[]), [], {})
  }

  predicate IsRun(s: System, steps: seq<Step>)
    decreases |steps|
  {
    steps == [] || (Enabled(s, steps[0]) && IsRun(Apply(s, steps[0]), steps[1..]))
  }

  function RunState(s: System, steps: seq<Step>): System
    requires IsRun(s, steps)
    decreases |steps|
  {
    if steps == [] then s else RunState(Apply(s, steps[0]), steps[1..])
  }

  // ---------- The stored pool and the work queue ----------

  /** The pool the steps of a run leave: the last one set, whether or not it could be listed, unless cleared since. */
  function PoolAfter(steps: seq<Step>): Option<Pool> {
    if steps == [] then None else
      match steps[|steps| - 1]
      case SetPool(pool, _) => Some(pool)
      case ListFails(pool) => Some(pool)
      case Clear => None
      case _ => PoolAfter(steps[..|steps| - 1])
  }

  lemma StepStoresPool(s: System, step: Step)
    requires Enabled(s, step)
    ensures Apply(s, step).store.pool ==
            match step
            case SetPool(pool, _) => Some(pool)
            case ListFails(pool) => Some(pool)
            case Clear => None
            case _ => s.store.pool
  {
  }

  lemma {:induction false} RunStoresPool(s: System, done: seq<Step>, steps: seq<Step>)
    requires IsRun(s, steps) && s.store.pool == PoolAfter(done)
    ensures RunState(s, steps).store.pool == PoolAfter(done + steps)
    decreases |steps|
  {
    if steps == [] {
      assert done + steps == done;
    } else {
      StepStoresPool(s, steps[0]);
      assert (done + [steps[0]])[..|done|] == done;
      RunStoresPool(Apply(s, steps[0]), done + [steps[0]], steps[1..]);
      assert done + [steps[0]] + steps[1..] == done + steps;
    }
  }

  /** In every run, the stored pool is the last one set since the last clear, with all that its spec says. */
  lemma StoredPoolIsTheLastSet(namespace: string, steps: seq<Step>)
    requires IsRun(Init(namespace), steps)
    ensures RunState(Init(namespace), steps).store.pool == PoolAfter(steps)
  {
    RunStoresPool(Init(namespace), [], steps);
    assert [] + steps == steps;
  }

  /** The event at the head is queued exactly if there is a pool and either version of the pod carries its selector's labels. */
  lemma DeliveryQueuesIff(s: System, id: NamespacedName)
    requires Enabled(s, Deliver)
    ensures var e := s.events[0];
      id in Apply(s, Deliver).queue <==>
        || id in s.queue
        || (&& id == e.id && s.store.pool.Some?
            && ((e.before.Some? && s.store.pool.value.selector.Items <= e.before.value.labels.Items)
                || (e.after.Some? && s.store.pool.value.selector.Items <= e.after.value.labels.Items)))
  {
    if s.store.pool.Some? {
      var e, selector := s.events[0], s.store.pool.value.selector;
      if e.before.Some? {
        MatchesIffContained(selector, e.before.value.labels);
      }
      if e.after.Some? {
        MatchesIffContained(selector, e.after.value.labels);
      }
    }
  }

  // ---------- Readiness and selection ----------

  /** A selector matches if and only if each of its pairs is among the labels. */
  lemma MatchesIffContained(selector: Labels, labels: Labels)
    ensures Matches(selector, labels) <==> selector.Items <= labels.Items
  {
    if selector.Items <= labels.Items {
      forall k | k in selector ensures k in labels && labels[k] == selector[k] {
        assert (k, selector[k]) in selector.Items;
      }
    }
  }

  /** A pod is ready if and only if it is not being deleted and its first condition of kind Ready has status True. */
  lemma {:induction false} FirstReadyIs(conditions: seq<Condition>)
    ensures FirstReadyStatus(conditions) == "True" <==>
            exists i :: && 0 <= i < |conditions| && conditions[i] == Condition("Ready", "True")
                        && forall j :: 0 <= j < i ==> conditions[j].kind != "Ready"
    decreases |conditions|
  {
    if conditions != [] && conditions[0].kind != "Ready" {
      var rest := conditions[1..];
      FirstReadyIs(rest);
      if i :| && 0 <= i < |rest| && rest[i] == Condition("Ready", "True")
              && forall j :: 0 <= j < i ==> rest[j].kind != "Ready" {
        assert conditions[i + 1] == Condition("Ready", "True");
        assert forall j :: 0 <= j < i + 1 ==> conditions[j] == if j == 0 then conditions[0] else rest[j - 1];
      }
      if i :| && 0 <= i < |conditions| && conditions[i] == Condition("Ready", "True")
              && forall j :: 0 <= j < i ==> conditions[j].kind != "Ready" {
        assert i > 0 && rest[i - 1] == Condition("Ready", "True");
        assert forall j :: 0 <= j < i - 1 ==> rest[j] == conditions[j + 1];
      }
    } else if conditions != [] {
      assert conditions[0].kind == "Ready";
    }
  }

  predicate ReadyNow(pod: Pod) {
    && !pod.deleting
    && exists i :: && 0 <= i < |pod.conditions| && pod.conditions[i] == Condition("Ready", "True")
                   && forall j :: 0 <= j < i ==> pod.conditions[j].kind != "Ready"
  }

  /** What a right cache means in the pod's and the pool's own terms. */
  lemma CacheRightMeans(s: System, id: NamespacedName)
    requires CacheRight(s, id)
    ensures id in s.store.pods <==>
            && s.store.pool.Some? && id in s.cluster && ReadyNow(s.cluster[id])
            && s.store.pool.value.selector.Items <= s.cluster[id].labels.Items
    ensures id in s.store.pods ==>
              var entry, pod := s.store.pods[id], s.cluster[id];
              entry.id == pod.id && entry.address == pod.ip && entry.labels == pod.labels
  {
    if s.store.pool.Some? && id in s.cluster {
      FirstReadyIs(s.cluster[id].conditions);
      MatchesIffContained(s.store.pool.value.selector, s.cluster[id].labels);
    }
  }

  // ---------- What the cache should hold ----------

  function Expected(pool: Option<Pool>, version: Option<Pod>): Option<CachedPod> {
    if version.Some? && IsPodReady(version.value) && PoolLabelsMatch(pool, version.value.labels)
    then Some(ToInternal(version.value)) else None
  }

  function Cached(s: Store, id: NamespacedName): Option<CachedPod> {
    if id in s.pods then Some(s.pods[id]) else None
  }

  /** The cache is right about `id` if the pod is at `version`. */
  predicate RightFor(s: Store, id: NamespacedName, version: Option<Pod>) {
    Cached(s, id) == Expected(s.pool, version)
  }

  /** The versions of a pod from before its first undelivered event up to the current one. */
  function Versions(events: seq<Event>, id: NamespacedName, current: Option<Pod>): (v: seq<Option<Pod>>)
    ensures v != [] && v[|v| - 1] == current
  {
    if events == [] then [current] else
      (if events[0].id == id then [events[0].before] else []) + Versions(events[1..], id, current)
  }

  /** Undelivered events of a pod link up: each ends in the version the next one starts from. */
  predicate Chained(events: seq<Event>, id: NamespacedName, current: Option<Pod>) {
    events == [] ||
    (&& Chained(events[1..], id, current)
     && (events[0].id == id ==> events[0].after == Versions(events[1..], id, current)[0]))
  }

  predicate NoPending(s: System, id: NamespacedName) {
    id !in s.queue && forall e :: e in s.events ==> e.id != id
  }

  ghost predicate RightForSome(s: Store, id: NamespacedName, versions: seq<Option<Pod>>) {
    exists j :: 0 <= j < |versions| && RightFor(s, id, versions[j])
  }

  /**
   What became of a pod's entry: the pool and the version it was last refreshed for, and whether a listing that was
   needed has failed since.
   */
  datatype History = History(pool: Option<Pool>, version: Option<Pod>, stale: bool)

  function NoHistory(): History {
    History(None, None, false)
  }

  /** The steps that look at the pod and bring its entry up to date. */
  predicate Refreshes(s: System, step: Step, id: NamespacedName) {
    match step
    case Serve(i) => i == id && s.store.pool.Some?
    case SetPool(pool, _) => NeedsResync(s.store.pool, pool)
    case Clear => true
    case _ => false
  }

  function NextHistory(s: System, step: Step, id: NamespacedName, h: History): History
    requires Enabled(s, step)
  {
    if Refreshes(s, step, id) then History(Apply(s, step).store.pool, Current(s, id), false)
    else if step.ListFails? && NeedsResync(s.store.pool, step.pool) then h.(stale := true)
    else h
  }

  function HistoryAfter(s: System, steps: seq<Step>, id: NamespacedName, h: History): History
    requires IsRun(s, steps)
    decreases |steps|
  {
    if steps == [] then h else HistoryAfter(Apply(s, steps[0]), steps[1..], id, NextHistory(s, steps[0], id, h))
  }

  ghost predicate RightOrWaiting(s: System, id: NamespacedName) {
    id in s.queue || RightForSome(s.store, id, Versions(s.events, id, Current(s, id)))
  }

  /**
   The entry is that of the last refresh. Unless a needed listing has failed since, a request for the pod is waiting or
   the cache is right for a version not older than the first undelivered.
   */
  ghost predicate Tracked(s: System, id: NamespacedName, h: History) {
    && Chained(s.events, id, Current(s, id))
    && Cached(s.store, id) == Expected(h.pool, h.version)
    && (!h.stale ==> RightOrWaiting(s, id))
  }

  ghost predicate Invariant(s: System) {
    && (forall id :: id in s.cluster ==> s.cluster[id].id == id && id.namespace == s.namespace)
    && (forall id :: id in s.store.pods ==> s.store.pods[id].id == id && id.namespace == s.namespace)
    && (s.store.pool.None? ==> s.store.pods == map[])
  }

  // ---------- Resync ----------

  lemma {:induction false} WithListedAt(pods: map<NamespacedName, CachedPod>, listed: seq<Pod>, id: NamespacedName)
    requires forall i, j :: 0 <= i < |listed| && 0 <= j < |listed| && listed[i].id == listed[j].id ==> listed[i] == listed[j]
    ensures (forall p :: p in listed && IsPodReady(p) && p.id == id ==>
              id in WithListed(pods, listed) && WithListed(pods, listed)[id] == ToInternal(p))
    ensures (forall p :: p in listed && IsPodReady(p) ==> p.id != id) ==>
              (id in WithListed(pods, listed) <==> id in pods) && (id in pods ==> WithListed(pods, listed)[id] == pods[id])
    decreases |listed|
  {
    if listed != [] {
      var last := listed[|listed| - 1];
      var rest := listed[..|listed| - 1];
      WithListedAt(pods, rest, id);
      assert listed == rest + [last];
      forall p | p in listed && IsPodReady(p) && p.id == id
        ensures id in WithListed(pods, listed) && WithListed(pods, listed)[id] == ToInternal(p)
      {
        if last.id == id {
          assert p == last;
        }
      }
    }
  }

  /** In one namespace, a resync leaves exactly the listed pods that are ready, with their current data. */
  lemma ResyncIsRight(s: System, pool: Pool, listed: seq<Pod>, id: NamespacedName)
    requires Invariant(s) && pool.namespace == s.namespace && IsListing(s, pool, listed)
    ensures RightFor(Store(Some(pool), Resynced(s.store.pods, listed)), id, Current(s, id))
  {
    var added := WithListed(s.store.pods, listed);
    WithListedAt(s.store.pods, listed, id);
    var version := Current(s, id);
    if Expected(Some(pool), version).Some? {
      assert version.value in listed;
      assert version.value.id.name in ActiveNames(listed);
    } else {
      forall p | p in listed && IsPodReady(p) ensures p.id != id {
      }
    }
  }

  // ---------- Each step keeps the cache tracked ----------

  lemma {:induction false} VersionsAfterChange(events: seq<Event>, e: Event, id: NamespacedName, current: Option<Pod>)
    requires Chained(events, id, current)
    requires e.id == id ==> e.before == current
    ensures var next := if e.id == id then e.after else current;
      && Versions(events + [e], id, next) == Versions(events, id, current) + (if e.id == id then [e.after] else [])
      && Chained(events + [e], id, next)
    decreases |events|
  {
    var next := if e.id == id then e.after else current;
    if events == [] {
      assert events + [e] == [e];
      assert [e][1..] == [];
      assert Versions([e], id, next) == (if e.id == id then [e.before] else []) + Versions([], id, next);
    } else {
      assert (events + [e])[1..] == events[1..] + [e] && (events + [e])[0] == events[0];
      VersionsAfterChange(events[1..], e, id, current);
    }
  }

  lemma ChangeKeepsTracked(s: System, id: NamespacedName, after: Option<Pod>, other: NamespacedName, h: History)
    requires Tracked(s, other, h) && Enabled(s, Change(id, after))
    ensures Tracked(Apply(s, Change(id, after)), other, h)
  {
    var t := Apply(s, Change(id, after));
    var e := Event(id, Current(s, id), after);
    VersionsAfterChange(s.events, e, other, Current(s, other));
    assert Current(t, other) == if other == id then after else Current(s, other);
    if other !in s.queue && !h.stale {
      var versions := Versions(s.events, other, Current(s, other));
      var j :| 0 <= j < |versions| && RightFor(s.store, other, versions[j]);
      assert Versions(t.events, other, Current(t, other))[j] == versions[j];
    }
  }

  /** A dropped event moved the pod between two versions neither of which belongs in the cache. */
  lemma DroppedEventKeepsRight(s: Store, e: Event, rest: seq<Option<Pod>>)
    requires rest != [] && e.after == rest[0] && !PassesFilter(s.pool, e)
    requires RightForSome(s, e.id, [e.before] + rest)
    ensures RightForSome(s, e.id, rest)
  {
    var versions := [e.before] + rest;
    var j :| 0 <= j < |versions| && RightFor(s, e.id, versions[j]);
    assert RightFor(s, e.id, rest[if j == 0 then 0 else j - 1]);
  }

  /** A dropped event leaves the cache right for a version that is still to come. */
  lemma DeliverKeepsTracked(s: System, id: NamespacedName, h: History)
    requires Tracked(s, id, h) && Enabled(s, Deliver)
    ensures Tracked(Apply(s, Deliver), id, h)
  {
    var t := Apply(s, Deliver);
    var e := s.events[0];
    if id !in t.queue && !h.stale {
      var versions := Versions(s.events, id, Current(s, id));
      var rest := Versions(t.events, id, Current(t, id));
      if e.id == id {
        DroppedEventKeepsRight(s.store, e, rest);
      } else {
        assert versions == rest;
      }
    }
  }

  lemma RightNowIsTracked(s: System, id: NamespacedName)
    requires Chained(s.events, id, Current(s, id)) && RightFor(s.store, id, Current(s, id))
    ensures Tracked(s, id, History(s.store.pool, Current(s, id), false))
  {
    var versions := Versions(s.events, id, Current(s, id));
    assert RightFor(s.store, id, versions[|versions| - 1]);
  }

  lemma StoreUnchangedAtKeepsTracked(s: System, t: System, id: NamespacedName, h: History)
    requires Tracked(s, id, h)
    requires t.events == s.events && t.cluster == s.cluster && (id in s.queue ==> id in t.queue)
    requires Cached(t.store, id) == Cached(s.store, id)
    requires forall v :: Expected(t.store.pool, v) == Expected(s.store.pool, v)
    ensures Tracked(t, id, h)
  {
    if id !in t.queue && !h.stale {
      var versions := Versions(s.events, id, Current(s, id));
      var j :| 0 <= j < |versions| && RightFor(s.store, id, versions[j]);
      assert RightFor(t.store, id, versions[j]);
    }
  }

  /** Serving a pod makes its entry right; without a pool there is nothing to be right about. */
  lemma ServeKeepsTracked(s: System, id: NamespacedName, other: NamespacedName, h: History)
    requires Invariant(s) && Tracked(s, other, h) && Enabled(s, Serve(id))
    ensures Tracked(Apply(s, Serve(id)), other, NextHistory(s, Serve(id), other, h))
  {
    var t := Apply(s, Serve(id));
    if other == id {
      RightNowIsTracked(t, id);
      if s.store.pool.None? {
        assert RightFor(t.store, id, Current(t, id)) && Cached(t.store, id).None?;
      }
    } else {
      StoreUnchangedAtKeepsTracked(s, t, other, h);
    }
  }

  lemma SetPoolKeepsTracked(s: System, pool: Pool, listed: seq<Pod>, id: NamespacedName, h: History)
    requires Invariant(s) && Tracked(s, id, h) && Enabled(s, SetPool(pool, listed))
    ensures Tracked(Apply(s, SetPool(pool, listed)), id, NextHistory(s, SetPool(pool, listed), id, h))
  {
    var t := Apply(s, SetPool(pool, listed));
    if NeedsResync(s.store.pool, pool) {
      ResyncIsRight(s, pool, listed, id);
      RightNowIsTracked(t, id);
    } else {
      StoreUnchangedAtKeepsTracked(s, t, id, h);
    }
  }

  lemma StepKeepsTracked(s: System, step: Step, id: NamespacedName, h: History)
    requires Invariant(s) && Tracked(s, id, h) && Enabled(s, step)
    ensures Tracked(Apply(s, step), id, NextHistory(s, step, id, h))
  {
    match step
    case Change(i, after) => ChangeKeepsTracked(s, i, after, id, h);
    case Deliver => DeliverKeepsTracked(s, id, h);
    case Serve(i) => ServeKeepsTracked(s, i, id, h);
    case GetFails(i) =>
    case Requeue(i) => StoreUnchangedAtKeepsTracked(s, Apply(s, step), id, h);
    case SetPool(pool, listed) => SetPoolKeepsTracked(s, pool, listed, id, h);
    case ListFails(pool) =>
      if !NeedsResync(s.store.pool, pool) {
        StoreUnchangedAtKeepsTracked(s, Apply(s, step), id, h);
      }
    case Clear => RightNowIsTracked(Apply(s, step), id);
  }

  lemma ResyncKeepsKeys(s: System, pool: Pool, listed: seq<Pod>, id: NamespacedName)
    requires Invariant(s) && pool.namespace == s.namespace && IsListing(s, pool, listed)
    requires id in Resynced(s.store.pods, listed)
    ensures Resynced(s.store.pods, listed)[id].id == id && id.namespace == s.namespace
  {
    WithListedAt(s.store.pods, listed, id);
  }

  lemma StepKeepsInvariant(s: System, step: Step)
    requires Invariant(s) && Enabled(s, step)
    ensures Invariant(Apply(s, step)) && Apply(s, step).namespace == s.namespace
  {
    if step.SetPool? && NeedsResync(s.store.pool, step.pool) {
      forall id | id in Resynced(s.store.pods, step.listed)
        ensures Resynced(s.store.pods, step.listed)[id].id == id && id.namespace == s.namespace
      {
        ResyncKeepsKeys(s, step.pool, step.listed, id);
      }
    }
  }

  lemma {:induction false} RunKeepsTracked(s: System, steps: seq<Step>, id: NamespacedName, h: History)
    requires Invariant(s) && Tracked(s, id, h) && IsRun(s, steps)
    ensures Invariant(RunState(s, steps)) && Tracked(RunState(s, steps), id, HistoryAfter(s, steps, id, h))
    decreases |steps|
  {
    if steps != [] {
      StepKeepsInvariant(s, steps[0]);
      StepKeepsTracked(s, steps[0], id, h);
      RunKeepsTracked(Apply(s, steps[0]), steps[1..], id, NextHistory(s, steps[0], id, h));
    }
  }

  lemma InitIsTracked(namespace: string, id: NamespacedName)
    ensures Invariant(Init(namespace)) && Tracked(Init(namespace), id, NoHistory())
  {
    RightNowIsTracked(Init(namespace), id);
  }

  // ---------- Main results ----------

  lemma {:induction false} NoEventsNoHistory(events: seq<Event>, id: NamespacedName, current: Option<Pod>)
    requires forall e :: e in events ==> e.id != id
    ensures Versions(events, id, current) == [current]
    decreases |events|
  {
    if events != [] {
      assert events[0] in events;
      NoEventsNoHistory(events[1..], id, current);
    }
  }

  /** The entry a pod should have: one with its current data, if it is in the cluster, ready and selected by the pool. */
  predicate CacheRight(s: System, id: NamespacedName) {
    && (id in s.store.pods <==>
         && s.store.pool.Some? && id in s.cluster
         && IsPodReady(s.cluster[id]) && Matches(s.store.pool.value.selector, s.cluster[id].labels))
    && (id in s.store.pods ==> s.store.pods[id] == ToInternal(s.cluster[id]))
  }

  /**
   In every run, for every pod with no undelivered event and no waiting request: the cache is right for it if and only if
   no listing that was needed has failed since its entry was last refreshed, or the entry the pod had then, under the
   pool of that time, is the one it should have now.
   */
  lemma CacheRightIff(namespace: string, steps: seq<Step>, id: NamespacedName)
    requires IsRun(Init(namespace), steps) && NoPending(RunState(Init(namespace), steps), id)
    ensures var s, h := RunState(Init(namespace), steps), HistoryAfter(Init(namespace), steps, id, NoHistory());
      CacheRight(s, id) <==> !h.stale || Expected(h.pool, h.version) == Expected(s.store.pool, Current(s, id))
  {
    InitIsTracked(namespace, id);
    RunKeepsTracked(Init(namespace), steps, id, NoHistory());
    var s := RunState(Init(namespace), steps);
    NoEventsNoHistory(s.events, id, Current(s, id));
    assert CacheRight(s, id) <==> RightFor(s.store, id, Current(s, id));
  }

  /** No step of the run is a listing that was needed and failed. */
  predicate ListingsSucceed(s: System, steps: seq<Step>)
    requires IsRun(s, steps)
    decreases |steps|
  {
    steps != [] ==>
      && !(steps[0].ListFails? && NeedsResync(s.store.pool, steps[0].pool))
      && ListingsSucceed(Apply(s, steps[0]), steps[1..])
  }

  lemma {:induction false} NeverStale(s: System, steps: seq<Step>, id: NamespacedName, h: History)
    requires IsRun(s, steps) && ListingsSucceed(s, steps) && !h.stale
    ensures !HistoryAfter(s, steps, id, h).stale
    decreases |steps|
  {
    if steps != [] {
      NeverStale(Apply(s, steps[0]), steps[1..], id, NextHistory(s, steps[0], id, h));
    }
  }

  /** In every run whose listings succeed, the cache is right for every pod that nothing is pending for. */
  lemma CacheConverges(namespace: string, steps: seq<Step>, id: NamespacedName)
    requires IsRun(Init(namespace), steps) && ListingsSucceed(Init(namespace), steps)
    requires NoPending(RunState(Init(namespace), steps), id)
    ensures CacheRight(RunState(Init(namespace), steps), id)
  {
    NeverStale(Init(namespace), steps, id, NoHistory());
    CacheRightIff(namespace, steps, id);
  }

  // ---------- Where convergence stops ----------

  /** The pool reconciler tries again with pools of this selector, and its listings may succeed or fail. */
  predicate Retries(steps: seq<Step>, selector: Labels) {
    forall i :: 0 <= i < |steps| ==> (steps[i].SetPool? || steps[i].ListFails?) && steps[i].pool.selector == selector
  }

  /**
   If `List` fails, the pool is stored all the same, so no retry with its selector ever resyncs: the pods of the cache
   stay what they were.
   */
  lemma FailedListIsNotRepaired(s: System, pool: Pool, retries: seq<Step>)
    requires Retries(retries, pool.selector) && IsRun(s, [ListFails(pool)] + retries)
    ensures RunState(s, [ListFails(pool)] + retries).store.pods == s.store.pods
  {
    var steps := [ListFails(pool)] + retries;
    assert steps[1..] == retries;
    RetriesKeepPods(Apply(s, ListFails(pool)), retries, pool.selector);
  }

  lemma {:induction false} RetriesKeepPods(s: System, retries: seq<Step>, selector: Labels)
    requires Retries(retries, selector) && IsRun(s, retries)
    requires s.store.pool.Some? && s.store.pool.value.selector == selector
    ensures RunState(s, retries).store.pods == s.store.pods
    decreases |retries|
  {
    if retries != [] {
      RetriesKeepPods(Apply(s, retries[0]), retries[1..], selector);
    }
  }

  /** A run with nothing pending at its end, in which a ready and selected pod is missing from the cache. */
  lemma FailedListLosesAReadyPod(pod: Pod, pool: Pool)
    requires IsPodReady(pod) && Selected(pool, pod)
    ensures var steps := [Change(pod.id, Some(pod)), Deliver, ListFails(pool), SetPool(pool, [pod])];
      && IsRun(Init(pool.namespace), steps)
      && (var s := RunState(Init(pool.namespace), steps);
          && NoPending(s, pod.id) && s.cluster == map[pod.id := pod] && s.store == Store(Some(pool), map[])
          && !CacheRight(s, pod.id))
  {
    var steps := [Change(pod.id, Some(pod)), Deliver, ListFails(pool), SetPool(pool, [pod])];
    var s0 := Init(pool.namespace);
    var s1 := Apply(s0, steps[0]);
    var s2 := Apply(s1, steps[1]);
    assert s2.events == [] && s2.queue == {};
    var s3 := Apply(s2, steps[2]);
    assert IsListing(s3, pool, [pod]);
    var s4 := Apply(s3, steps[3]);
    assert steps[3..] == [steps[3]] && steps[2..] == [steps[2]] + steps[3..];
    assert steps[1..] == [steps[1]] + steps[2..] && steps == [steps[0]] + steps[1..];
    RunOfOne(s3, steps[3]);
    RunFromFirst(s2, steps[2], steps[3..]);
    RunFromFirst(s1, steps[1], steps[2..]);
    RunFromFirst(s0, steps[0], steps[1..]);
  }

  lemma RunOfOne(s: System, step: Step)
    requires Enabled(s, step)
    ensures IsRun(s, [step]) && RunState(s, [step]) == Apply(s, step)
  {
    RunFromFirst(s, step, []);
    assert [step] + [] == [step];
  }

  lemma RunFromFirst(s: System, step: Step, rest: seq<Step>)
    requires Enabled(s, step) && IsRun(Apply(s, step), rest)
    ensures IsRun(s, [step] + rest) && RunState(s, [step] + rest) == RunState(Apply(s, step), rest)
  {
    assert ([step] + rest)[1..] == rest;
  }

  /**
   A resync compares bare names. With entries of several namespaces, an entry that was not listed survives if and only
   if some listed, ready pod has the same name in whatever namespace.
   */
  lemma UnlistedEntrySurvivesIffNameIsActive(pods: map<NamespacedName, CachedPod>, listed: seq<Pod>, id: NamespacedName)
    requires forall i, j :: 0 <= i < |listed| && 0 <= j < |listed| && listed[i].id == listed[j].id ==> listed[i] == listed[j]
    requires forall k :: k in pods ==> pods[k].id == k
    requires id in pods && forall p :: p in listed && IsPodReady(p) ==> p.id != id
    ensures id in Resynced(pods, listed) <==> exists p :: p in listed && IsPodReady(p) && p.id.name == id.name
  {
    WithListedAt(pods, listed, id);
    assert id.name in ActiveNames(listed) <==> exists p :: p in listed && IsPodReady(p) && p.id.name == id.name;
  }
}
