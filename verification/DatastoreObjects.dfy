/** The datastore as an object: entries with their own refresh loops, updated in place by the operations. */
module DatastoreObjects {
  import opened PodDatastore
  import opened Wrappers

  /** One pod's metrics entry. `starts` and `closes` count refresh goroutines started and closes of the done channel. */
  class PodMetrics {
    var pod: CachedPod
    var startDone: bool
    var stopDone: bool
    var starts: nat
    var closes: nat

    constructor (p: CachedPod)
      ensures pod == p && Running() && starts == 1
    {
      pod, startDone, stopDone, starts, closes := p, false, false, 0, 0;
      new;
      StartRefreshLoop();
    }

    ghost predicate Running()
      reads this
    {
      startDone && !stopDone && closes == 0
    }

    ghost predicate Stopped()
      reads this
    {
      startDone && stopDone && closes == 1
    }

    method StartRefreshLoop()
      modifies this`startDone, this`starts
      ensures startDone && starts == if old(startDone) then old(starts) else old(starts) + 1
    {
      if !startDone {
        startDone, starts := true, starts + 1;
      }
    }

    method StopRefreshLoop()
      modifies this`stopDone, this`closes
      ensures stopDone && closes == if old(stopDone) then old(closes) else old(closes) + 1
    {
      if !stopDone {
        stopDone, closes := true, closes + 1;
      }
    }

    method UpdatePod(p: Pod)
      modifies this`pod
      ensures pod == ToInternal(p)
    {
      pod := ToInternal(p);
    }
  }

  class Datastore {
    var pool: Option<Pool>
    var pods: map<NamespacedName, PodMetrics>
    ghost var created: set<PodMetrics>                 // every entry made so far
    ghost var cached: map<NamespacedName, CachedPod>   // the pods behind the entries

    ghost function Contents(): Store
      reads this
    {
      Store(pool, cached)
    }

    ghost predicate EntryValid(pm: PodMetrics)
      reads this, pm
    {
      && pm.starts == 1
      && (if pm.pod.id in pods && pods[pm.pod.id] == pm then pm.Running() else pm.Stopped())
    }

    /** The loops ever started split into those of the entries in the map, running, and the others, stopped once. */
    ghost predicate Valid()
      reads this, created
    {
      && pods.Keys == cached.Keys
      && (forall k :: k in pods ==> pods[k] in created && pods[k].pod == cached[k] && cached[k].id == k)
      && (forall pm :: pm in created ==> EntryValid(pm))
    }

    constructor ()
      ensures Valid() && Contents() == Store(None, map[]) && created == {}
    {
      pool, pods, created, cached := None, map[], {}, map[];
    }

    /** Entries that were there and still are have not been replaced, hence not restarted; every other one is new. */
    twostate predicate EntriesKept()
      reads this
    {
      && old(created) <= created
      && (forall pm :: pm in created && pm !in old(created) ==> fresh(pm))
      && (forall k :: k in pods ==> if k in old(pods) then pods[k] == old(pods[k]) else fresh(pods[k]))
    }

    method PodUpdateOrAddIfNotExist(pod: Pod) returns (existed: bool)
      requires Valid()
      modifies this`pods, this`created, this`cached, created
      ensures Valid() && EntriesKept()
      ensures existed == (pod.id in old(pods))
      ensures Contents() == PodUpdateOrAdd(old(Contents()), pod)
    {
      existed := pod.id in pods;
      if !existed {
        AddEntry(pod);
      }
      UpdateEntry(pod);
    }

    method UpdateEntry(pod: Pod)
      requires Valid() && pod.id in pods
      modifies this`cached, pods[pod.id]
      ensures Valid()
      ensures Contents() == PodUpdateOrAdd(old(Contents()), pod)
    {
      pods[pod.id].UpdatePod(pod);
      cached := cached[pod.id := ToInternal(pod)];
    }

    /** The `!ok` branch: a new entry, whose refresh loop starts with it. */
    method AddEntry(pod: Pod)
      requires Valid() && pod.id !in pods
      modifies this`pods, this`created, this`cached
      ensures Valid() && EntriesKept()
      ensures pod.id in pods && created == old(created) + {pods[pod.id]}
      ensures Contents() == PodUpdateOrAdd(old(Contents()), pod)
    {
      var pm := new PodMetrics(ToInternal(pod));
      pods := pods[pod.id := pm];
      created := created + {pm};
      cached := cached[pod.id := ToInternal(pod)];
    }

    method PodDelete(id: NamespacedName)
      requires Valid()
      modifies this`pods, this`cached, created
      ensures Valid() && EntriesKept() && created == old(created)
      ensures Contents() == PodDatastore.PodDelete(old(Contents()), id)
    {
      if id in pods {
        var pm := pods[id];
        pods, cached := pods - {id}, cached - {id};
        pm.StopRefreshLoop();
      } else {
        assert cached - {id} == cached;
      }
    }

    /** The loop over the listed pods. */
    method AddListed(listed: seq<Pod>) returns (activePods: set<string>)
      requires Valid()
      modifies this`pods, this`created, this`cached, created
      ensures Valid() && EntriesKept()
      ensures activePods == ActiveNames(listed)
      ensures Contents() == old(Contents()).(pods := WithListed(old(cached), listed))
      ensures old(pods).Keys <= pods.Keys
    {
      activePods := {};
      for i := 0 to |listed|
        invariant Valid() && EntriesKept() && old(pods).Keys <= pods.Keys
        invariant cached == WithListed(old(cached), listed[..i])
        invariant activePods == ActiveNames(listed[..i])
      {
        assert listed[..i + 1] == listed[..i] + [listed[i]];
        if IsPodReady(listed[i]) {
          activePods := activePods + {listed[i].id.name};
          var _ := PodUpdateOrAddIfNotExist(listed[i]);
        }
      }
      assert listed[..|listed|] == listed;
    }

    /** The loop over the map that deletes what is not active. */
    method RemoveInactive(activePods: set<string>)
      requires Valid()
      modifies this`pods, this`cached, created
      ensures Valid() && EntriesKept() && created == old(created)
      ensures Contents() == old(Contents()).(pods := map k | k in old(cached) && old(cached)[k].id.name in activePods :: old(cached)[k])
    {
      var todo := pods.Keys;
      while todo != {}
        invariant Valid() && EntriesKept() && created == old(created) && todo <= pods.Keys
        invariant forall k :: k in cached ==> k in old(cached) && cached[k] == old(cached)[k]
        invariant forall k :: k in old(cached) && k !in cached ==> old(cached)[k].id.name !in activePods
        invariant forall k :: k in cached && k !in todo ==> cached[k].id.name in activePods
        decreases todo
      {
        var k :| k in todo;
        todo := todo - {k};
        if pods[k].pod.id.name !in activePods {
          PodDelete(pods[k].pod.id);
        }
      }
    }

    method PodResyncAll(listed: seq<Pod>)
      requires Valid()
      modifies this`pods, this`created, this`cached, created
      ensures Valid() && EntriesKept()
      ensures Contents() == old(Contents()).(pods := Resynced(old(cached), listed))
    {
      var activePods := AddListed(listed);
      RemoveInactive(activePods);
    }

    method Clear()
      requires Valid()
      modifies this`pool, this`pods, this`cached, created
      ensures Valid() && EntriesKept() && created == old(created)
      ensures Contents() == Store(None, map[])
    {
      pool := None;
      var todo := pods.Keys;
      while todo != {}
        invariant pool == None && todo <= pods.Keys && pods == old(pods) && cached == old(cached) && created == old(created)
        invariant forall pm :: pm in created ==> pm.pod == old(pm.pod) && pm.starts == old(pm.starts)
        invariant forall k :: k in pods ==> if k in todo then pods[k].Running() else pods[k].Stopped()
        invariant forall pm :: pm in created && !(pm.pod.id in pods && pods[pm.pod.id] == pm) ==> pm.Stopped()
        decreases todo
      {
        var k :| k in todo;
        todo := todo - {k};
        pods[k].StopRefreshLoop();
      }
      pods, cached := map[], map[];
    }

    /** `listed` is the result of `List`, or nothing if it failed. */
    method PoolSet(newPool: Option<Pool>, listed: Option<seq<Pod>>) returns (ok: bool)
      requires Valid()
      modifies this`pool, this`pods, this`created, this`cached, created
      ensures Valid() && EntriesKept()
      ensures Contents() == PodDatastore.PoolSet(old(Contents()), newPool, listed) && pool == newPool
      ensures ok <==> newPool.None? || !NeedsResync(old(pool), newPool.value) || listed.Some?
    {
      if newPool.None? {
        Clear();
        return true;
      }
      var oldPool := pool;
      pool := newPool;
      if oldPool.None? || oldPool.value.selector != newPool.value.selector {
        if listed.None? {
          return false;
        }
        PodResyncAll(listed.value);
      }
      return true;
    }

    /** The pod reconciler's handling of one request. */
    method Reconcile(id: NamespacedName, found: Option<Pod>)
      requires Valid()
      modifies this`pods, this`created, this`cached, created
      ensures Valid() && EntriesKept()
      ensures Contents() == PodDatastore.Reconcile(old(Contents()), id, found)
    {
      if pool.None? {
        return;
      }
      if found.None? {
        PodDelete(id);
        return;
      }
      if !IsPodReady(found.value) || !PoolLabelsMatch(pool, found.value.labels) {
        PodDelete(found.value.id);
      } else {
        var _ := PodUpdateOrAddIfNotExist(found.value);
      }
    }
  }
}
