/** The cache methods of WorkflowExecutor, each one operation of the workflow cache. */
module WorkflowExecutor {
  import opened WorkflowCache

  class Executor {
    var order: seq<nat>
    var instances: map<nat, Instance>
    var entries: map<nat, Entry>
    var registry: Option<Registry>
    ghost var log: seq<Event>

    ghost function Contents(): Cache
      reads this
    {
      Cache(Store(order, instances, entries), registry, log)
    }

    constructor (publishing: bool)
      ensures Contents() == Empty(publishing) && Valid(Contents())
    {
      order, instances, entries, log := [], map[], map[], [];
      registry := if publishing then Some(Registry([], 0)) else None;
      new;
      EmptyIsValid(publishing);
    }

    /** _publish_model_cache and update_model_cache: copies of the entries, in order, and their number. */
    method PublishModelCache()
      requires Matched(Contents().store)
      modifies this`registry
      ensures Contents() == Publish(old(Contents()))
      ensures registry.Some? <==> old(registry).Some?
      ensures registry.Some? ==>
                && registry.value.total == |registry.value.entries| == |order|
                && forall i :: 0 <= i < |order| ==> order[i] in entries && registry.value.entries[i] == entries[order[i]]
    {
      if registry.None? { return; }
      var copies: seq<Entry> := [];
      for i := 0 to |order|
        invariant registry == old(registry)
        invariant copies == Listing(Contents().store)[..i]
      {
        copies := copies + [entries[order[i]]];
      }
      assert copies == Listing(Contents().store);
      registry := Some(Registry(copies, |copies|));
    }

    method RecordCacheUse(key: nat, ghost instance: Instance, now: int, models: Option<seq<nat>>)
      requires Matched(Contents().store)
      modifies this`entries, this`registry, this`log
      ensures Contents() == RecordUse(old(Contents()), Hook(key, instance), now, models)
      ensures key !in old(entries) ==> entries == old(entries)
      ensures key in old(entries) ==>
                && entries.Keys == old(entries).Keys && (forall k :: k in entries && k != key ==> entries[k] == old(entries)[k])
                && entries[key].hits == old(entries)[key].hits + 1 && entries[key].lastUsedAt == now
                && entries[key].loadedAt == old(entries)[key].loadedAt
                && entries[key].models == if models.Some? then models.value else old(entries)[key].models
    {
      log := log + [Used(key, instance, now, models)];
      if key !in entries { return; }
      var entry := entries[key].(hits := entries[key].hits + 1, lastUsedAt := now);
      if models.Some? { entry := entry.(models := models.value); }
      assert entry == Bump(entries[key], now, models);
      UpdateKeepsMatched(Contents().store, key, entry);
      entries := entries[key := entry];
      PublishModelCache();
    }

    /** _get_or_create_cached_workflow: the key and instance to use, or None for a workflow that is not cacheable. */
    method GetOrCreate(key: nat, created: Instance, cacheable: bool, now: int, models: seq<nat>) returns (cached: Option<Hook>)
      requires Matched(Contents().store)
      modifies this
      ensures Contents() == if cacheable then Load(old(Contents()), key, created, now, models) else old(Contents())
      ensures cached == if key in instances then Some(Hook(key, instances[key])) else None
      ensures key in old(instances) || !cacheable ==> instances == old(instances) && entries == old(entries) && order == old(order)
      ensures key !in old(instances) && cacheable ==>
                && order == old(order) + [key] && instances == old(instances)[key := created]
                && entries == old(entries)[key := Entry(key, now, now, 0, models)]
    {
      if key in instances { return Some(Hook(key, instances[key])); }
      if !cacheable { return None; }
      LoadKeepsMatched(Contents().store, key, created, Entry(key, now, now, 0, models));
      log := log + [Loaded(key, created, now, models)];
      order := order + [key];
      instances := instances[key := created];
      entries := entries[key := Entry(key, now, now, 0, models)];
      PublishModelCache();
      return Some(Hook(key, created));
    }

    /** _resolve_execute_phase_hook for a workflow served from the cache. */
    method ResolveHook(key: nat, created: Instance, cacheable: bool, now: int, models: seq<nat>) returns (hook: Option<Hook>)
      requires Valid(Contents())
      modifies this
      ensures Valid(Contents())
      ensures Contents() == Step(old(Contents()), Resolve(key, created, cacheable, now, models))
      ensures hook.Some? <==> cacheable || key in old(instances)
      ensures hook.Some? ==> key in instances && hook.value == Hook(key, instances[key])
      ensures key in old(instances) ==> hook == Some(Hook(key, old(instances)[key]))
    {
      StepKeepsValid(Contents(), Resolve(key, created, cacheable, now, models));
      hook := GetOrCreate(key, created, cacheable, now, models);
    }

    /** invoke_cached: the call, which returns or raises, and then the use is recorded in both cases. */
    method InvokeCached<R>(hook: Hook, call: Instance -> Option<R>, now: int) returns (result: Option<R>)
      requires Valid(Contents())
      modifies this`entries, this`registry, this`log
      ensures result == call(hook.instance)
      ensures Valid(Contents()) && Contents() == Step(old(Contents()), Invoke(hook, now))
      ensures hook.key in old(entries) ==> hook.key in entries && entries[hook.key].hits == old(entries)[hook.key].hits + 1
      ensures hook.key !in old(entries) ==> entries == old(entries) && registry == old(registry)
    {
      StepKeepsValid(Contents(), Invoke(hook, now));
      result := call(hook.instance);
      RecordCacheUse(hook.key, hook.instance, now, None);
    }

    /** Warm-up of the enabled workflow: an exception closes the cache. */
    method WarmEnabled(key: nat, created: Instance, cacheable: bool, raises: bool, now: int, models: seq<nat>, warmed: Option<seq<nat>>)
      returns (ok: bool)
      requires Valid(Contents())
      modifies this
      ensures Valid(Contents())
      ensures Contents() == Step(old(Contents()), Warm(key, created, cacheable, raises, now, models, warmed))
      ensures ok <==> (cacheable || key in old(instances)) && !raises
      ensures ok ==> key in entries && entries[key].hits == (if key in old(entries) then old(entries)[key].hits else 0) + 1
      ensures raises && (cacheable || key in old(instances)) ==> order == [] && instances == map[] && entries == map[]
      ensures !cacheable && key !in old(instances) ==> entries == old(entries) && instances == old(instances)
    {
      StepKeepsValid(Contents(), Warm(key, created, cacheable, raises, now, models, warmed));
      LoadKeepsValid(Contents(), key, created, now, models);
      var cached := GetOrCreate(key, created, cacheable, now, models);
      if cached.None? { return false; }
      if raises {
        var _ := CloseCache();
        return false;
      }
      RecordCacheUse(key, cached.value.instance, now, warmed);
      return true;
    }

    /** close: empties both dictionaries and hands back every instance for cleanup. */
    method CloseCache() returns (workflows: seq<Instance>)
      requires Matched(Contents().store)
      modifies this
      ensures Contents() == Clear(old(Contents()))
      ensures order == [] && instances == map[] && entries == map[]
      ensures |workflows| == |old(order)|
      ensures forall i :: 0 <= i < |workflows| ==> workflows[i] == old(instances)[old(order)[i]]
    {
      var hadEntries := |order| > 0;
      var keys, loaded := order, instances;
      workflows := seq(|keys|, i requires 0 <= i < |keys| => loaded[keys[i]]);
      order, instances, entries := [], map[], map[];
      log := log + [Closed];
      if hadEntries {
        PublishModelCache();
        assert registry.Some? ==> registry.value.entries == [];
      }
    }
  }
}
