/** The page-wide instance registry `DataManager` (the same statics live inside the
    legacy element class of lib/main.ts): instance id -> responsive data, element ->
    instance id, the orphan-sweep timer and the page-unload hook. The host's
    `setInterval`/`clearInterval` and `addEventListener` are recorded as counters of
    live timers and listeners, and `document.querySelector` as predicates. */
module DataManagement {
  import opened Optional
  import opened Variants
  import opened Publication
  import opened Sequences

  /** The entries of `m` whose key passes `keep`, values untouched. */
  function Filter<V>(m: map<string, V>, keep: string -> bool): (r: map<string, V>)
    ensures forall k :: k in r <==> k in m && keep(k)
    ensures forall k :: k in r ==> r[k] == m[k]
  {
    map k | k in m && keep(k) :: m[k]
  }

  /** A second sweep with the same host answers removes nothing more. */
  lemma FilterIdempotent<V>(m: map<string, V>, keep: string -> bool)
    ensures Filter(Filter(m, keep), keep) == Filter(m, keep)
  {
  }

  /** What `getInstancesInfo` reports. */
  datatype InstancesInfo = InstancesInfo(totalInstances: nat, instanceIds: seq<string>, hasCleanupTimer: bool)

  class DataManager<E(==), D> {
    const variant: Variant
    const store: ScopeDataStore<D>

    /** The WeakMap from element to instance id. */
    var instances: map<E, string>
    var responsiveDataMap: map<string, D>
    /** Whether `cleanupTimer` holds a live interval handle. */
    var cleanupTimer: bool
    var unloadListenerAdded: bool

    /** Host side: intervals this registry has started and not cleared, and
        `beforeunload` listeners it has added. */
    var liveIntervals: nat
    var unloadListeners: nat

    /** The flags mirror the host exactly: one timer at most, one listener at most. */
    ghost predicate Valid()
      reads this
    {
      && liveIntervals == (if cleanupTimer then 1 else 0)
      && unloadListeners == (if unloadListenerAdded then 1 else 0)
    }

    constructor(variant: Variant, store: ScopeDataStore<D>)
      ensures Valid()
      ensures this.variant == variant && this.store == store
      ensures instances == map[] && responsiveDataMap == map[]
      ensures !cleanupTimer && !unloadListenerAdded
    {
      this.variant := variant;
      this.store := store;
      instances := map[];
      responsiveDataMap := map[];
      cleanupTimer := false;
      unloadListenerAdded := false;
      liveIntervals := 0;
      unloadListeners := 0;
    }

    function GetResponsiveData(instanceId: string): (r: Option<D>)
      reads this
      ensures r.Some? <==> instanceId in responsiveDataMap
      ensures r.Some? ==> r.value == responsiveDataMap[instanceId]
    {
      if instanceId in responsiveDataMap then Some(responsiveDataMap[instanceId]) else None
    }

    /** Creates the sweep timer only when none is set and adds the unload listener
        only while the flag is down; calling it again changes nothing. */
    method InitializeGlobalResources()
      requires Valid()
      modifies this
      ensures Valid()
      ensures cleanupTimer && unloadListenerAdded
      ensures liveIntervals == 1 && unloadListeners == 1
      ensures old(cleanupTimer) && old(unloadListenerAdded) ==> liveIntervals == old(liveIntervals) && unloadListeners == old(unloadListeners)
      ensures instances == old(instances) && responsiveDataMap == old(responsiveDataMap)
    {
      if !cleanupTimer {
        cleanupTimer := true;
        liveIntervals := liveIntervals + 1;
      }
      if !unloadListenerAdded {
        unloadListeners := unloadListeners + 1;
        unloadListenerAdded := true;
      }
    }

    /** Deletes exactly the ids whose element the host query no longer finds; in
        the modular build also sweeps the publication table the same way. */
    method CleanupOrphanedData(instanceFound: string -> bool, keyFound: string -> bool)
      modifies this, store
      ensures responsiveDataMap == Filter(old(responsiveDataMap), instanceFound)
      ensures variant == Modular ==> store.table == Sweep(old(store.table), keyFound)
      ensures variant == Legacy ==> store.table == old(store.table)
      ensures instances == old(instances)
      ensures cleanupTimer == old(cleanupTimer) && unloadListenerAdded == old(unloadListenerAdded)
      ensures liveIntervals == old(liveIntervals) && unloadListeners == old(unloadListeners)
    {
      var existingIds := responsiveDataMap.Keys;
      while existingIds != {}
        invariant existingIds <= old(responsiveDataMap).Keys
        invariant forall id :: id in responsiveDataMap <==> id in old(responsiveDataMap) && (id in existingIds || instanceFound(id))
        invariant forall id :: id in responsiveDataMap ==> responsiveDataMap[id] == old(responsiveDataMap)[id]
        invariant instances == old(instances) && store.table == old(store.table)
        invariant cleanupTimer == old(cleanupTimer) && unloadListenerAdded == old(unloadListenerAdded)
        invariant liveIntervals == old(liveIntervals) && unloadListeners == old(unloadListeners)
        decreases existingIds
      {
        var instanceId :| instanceId in existingIds;
        if !instanceFound(instanceId) {
          responsiveDataMap := responsiveDataMap - {instanceId};
        }
        existingIds := existingIds - {instanceId};
      }
      if variant == Modular && store.table.Some? {
        var dataKeys := store.table.value.Keys;
        while dataKeys != {}
          invariant store.table.Some?
          invariant dataKeys <= old(store.table).value.Keys
          invariant forall k :: k in store.table.value <==> k in old(store.table).value && (k in dataKeys || keyFound(k))
          invariant forall k :: k in store.table.value ==> store.table.value[k] == old(store.table).value[k]
          invariant responsiveDataMap == Filter(old(responsiveDataMap), instanceFound)
          invariant instances == old(instances)
          invariant cleanupTimer == old(cleanupTimer) && unloadListenerAdded == old(unloadListenerAdded)
          invariant liveIntervals == old(liveIntervals) && unloadListeners == old(unloadListeners)
          decreases dataKeys
        {
          var dataKey :| dataKey in dataKeys;
          if !keyFound(dataKey) {
            store.table := Some(store.table.value - {dataKey});
          }
          dataKeys := dataKeys - {dataKey};
        }
        ghost var swept := map k | k in old(store.table).value && keyFound(k) :: old(store.table).value[k];
        assert store.table.value == swept;
        if store.table.value.Keys == {} {
          store.table := None;
        }
      }
    }

    /** `triggerCleanup`: an on-demand sweep. */
    method TriggerCleanup(instanceFound: string -> bool, keyFound: string -> bool)
      modifies this, store
      ensures responsiveDataMap == Filter(old(responsiveDataMap), instanceFound)
      ensures variant == Modular ==> store.table == Sweep(old(store.table), keyFound)
      ensures variant == Legacy ==> store.table == old(store.table)
      ensures instances == old(instances)
      ensures cleanupTimer == old(cleanupTimer) && unloadListenerAdded == old(unloadListenerAdded)
      ensures liveIntervals == old(liveIntervals) && unloadListeners == old(unloadListeners)
    {
      CleanupOrphanedData(instanceFound, keyFound);
    }

    /** The `beforeunload` handler: stops the timer, empties the map and (modular
        build) removes the publication table. The element table and the listener
        flag are left as they are. */
    method HandlePageUnload()
      requires Valid()
      modifies this, store
      ensures Valid()
      ensures !cleanupTimer && liveIntervals == 0
      ensures responsiveDataMap == map[]
      ensures variant == Modular ==> store.table == None
      ensures variant == Legacy ==> store.table == old(store.table)
      ensures instances == old(instances)
      ensures unloadListenerAdded == old(unloadListenerAdded) && unloadListeners == old(unloadListeners)
    {
      if cleanupTimer {
        liveIntervals := liveIntervals - 1;
        cleanupTimer := false;
      }
      responsiveDataMap := map[];
      if variant == Modular && store.table.Some? {
        store.table := None;
      }
    }

    /** Reports the current ids, their number, and whether the timer is set. */
    method GetInstancesInfo() returns (info: InstancesInfo)
      ensures info.totalInstances == |responsiveDataMap| == |info.instanceIds|
      ensures forall id :: id in info.instanceIds <==> id in responsiveDataMap
      ensures Distinct(info.instanceIds)
      ensures info.hasCleanupTimer == cleanupTimer
    {
      var ids: seq<string> := [];
      var rest := responsiveDataMap.Keys;
      while rest != {}
        invariant rest <= responsiveDataMap.Keys
        invariant forall id :: id in ids ==> id in responsiveDataMap && id !in rest
        invariant forall id :: id in responsiveDataMap ==> id in ids || id in rest
        invariant Distinct(ids)
        invariant |ids| + |rest| == |responsiveDataMap|
        decreases rest
      {
        var id :| id in rest;
        ids := ids + [id];
        rest := rest - {id};
      }
      info := InstancesInfo(|ids|, ids, cleanupTimer);
    }

    /** Full reset: timer stopped, map emptied, element table replaced by an empty
        one, and (modular build) the publication table removed. */
    method DestroyAllInstances()
      requires Valid()
      modifies this, store
      ensures Valid()
      ensures !cleanupTimer && liveIntervals == 0
      ensures responsiveDataMap == map[] && instances == map[]
      ensures variant == Modular ==> store.table == None
      ensures variant == Legacy ==> store.table == old(store.table)
      ensures unloadListenerAdded == old(unloadListenerAdded) && unloadListeners == old(unloadListeners)
    {
      if cleanupTimer {
        liveIntervals := liveIntervals - 1;
        cleanupTimer := false;
      }
      responsiveDataMap := map[];
      instances := map[];
      if variant == Modular && store.table.Some? {
        store.table := None;
      }
    }

    method SetInstance(element: E, instanceId: string)
      modifies this
      ensures instances == old(instances)[element := instanceId]
      ensures responsiveDataMap == old(responsiveDataMap)
      ensures cleanupTimer == old(cleanupTimer) && unloadListenerAdded == old(unloadListenerAdded)
      ensures liveIntervals == old(liveIntervals) && unloadListeners == old(unloadListeners)
    {
      instances := instances[element := instanceId];
    }

    function GetInstance(element: E): (r: Option<string>)
      reads this
      ensures r.Some? <==> element in instances
      ensures r.Some? ==> r.value == instances[element]
    {
      if element in instances then Some(instances[element]) else None
    }

    method DeleteInstance(element: E)
      modifies this
      ensures instances == old(instances) - {element}
      ensures responsiveDataMap == old(responsiveDataMap)
      ensures cleanupTimer == old(cleanupTimer) && unloadListenerAdded == old(unloadListenerAdded)
      ensures liveIntervals == old(liveIntervals) && unloadListeners == old(unloadListeners)
    {
      instances := instances - {element};
    }

    /** A later lookup of `instanceId` yields `data`; every other id reads as before. */
    method SetResponsiveData(instanceId: string, data: D)
      modifies this
      ensures GetResponsiveData(instanceId) == Some(data)
      ensures forall id :: id != instanceId ==> GetResponsiveData(id) == old(GetResponsiveData(id))
      ensures responsiveDataMap == old(responsiveDataMap)[instanceId := data]
      ensures instances == old(instances)
      ensures cleanupTimer == old(cleanupTimer) && unloadListenerAdded == old(unloadListenerAdded)
      ensures liveIntervals == old(liveIntervals) && unloadListeners == old(unloadListeners)
    {
      responsiveDataMap := responsiveDataMap[instanceId := data];
    }

    /** Deleting an id that is not there is not an error and changes nothing. */
    method DeleteResponsiveData(instanceId: string)
      modifies this
      ensures GetResponsiveData(instanceId) == None
      ensures forall id :: id != instanceId ==> GetResponsiveData(id) == old(GetResponsiveData(id))
      ensures responsiveDataMap == old(responsiveDataMap) - {instanceId}
      ensures instances == old(instances)
      ensures cleanupTimer == old(cleanupTimer) && unloadListenerAdded == old(unloadListenerAdded)
      ensures liveIntervals == old(liveIntervals) && unloadListeners == old(unloadListeners)
    {
      responsiveDataMap := responsiveDataMap - {instanceId};
    }
  }
}
