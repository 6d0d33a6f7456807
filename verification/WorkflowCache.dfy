/**
  The workflow cache of one execute worker (scripts/inference_worker.py): the shared instances, the
  entry kept for each, and the copy of the entries published in the worker registry. Every operation
  holds the cache lock, so a run is a sequence of operations.
*/
module WorkflowCache {

  datatype Option<+T> = None | Some(value: T)

  /** A loaded workflow object. */
  type Instance = nat

  datatype Entry = Entry(key: nat, loadedAt: int, lastUsedAt: int, hits: nat, models: seq<nat>)

  /** The two dictionaries; order is the insertion order of their keys. */
  datatype Store = Store(order: seq<nat>, instances: map<nat, Instance>, entries: map<nat, Entry>)

  /** model_cache in the published metadata. */
  datatype Registry = Registry(entries: seq<Entry>, total: nat)

  /** What happened, and when: loads, completed uses by way of an instance, closes. */
  datatype Event =
    | Loaded(key: nat, instance: Instance, at: int, models: seq<nat>)
    | Used(key: nat, instance: Instance, at: int, named: Option<seq<nat>>)
    | Closed

  datatype Cache = Cache(store: Store, registry: Option<Registry>, log: seq<Event>)

  /** A resolved execute hook remembers the key and the instance it was resolved for. */
  datatype Hook = Hook(key: nat, instance: Instance)

  datatype Op =
    | Resolve(key: nat, created: Instance, cacheable: bool, now: int, models: seq<nat>)
    | Invoke(hook: Hook, now: int)
    | Warm(key: nat, created: Instance, cacheable: bool, raises: bool, now: int, models: seq<nat>, warmed: Option<seq<nat>>)
    | Close

  // ---------------------------------------------------------------------------------------
  // Operations on values

  function Empty(publishing: bool): Cache {
    Cache(Store([], map[], map[]), if publishing then Some(Registry([], 0)) else None, [])
  }

  /** The list of entries in insertion order. */
  function Listing(store: Store): seq<Entry>
    requires forall k :: k in store.order ==> k in store.entries
  {
    seq(|store.order|, i requires 0 <= i < |store.order| => store.entries[store.order[i]])
  }

  ghost predicate Matched(store: Store) {
    && (forall k :: k in store.order <==> k in store.entries)
    && store.instances.Keys == store.entries.Keys
    && (forall i, j :: 0 <= i < j < |store.order| ==> store.order[i] != store.order[j])
    && (forall k :: k in store.entries ==> store.entries[k].key == k)
  }

  function Publish(c: Cache): Cache
    requires Matched(c.store)
  {
    if c.registry.None? then c else c.(registry := Some(Registry(Listing(c.store), |c.store.order|)))
  }

  /** _get_or_create_cached_workflow for a cacheable workflow. */
  function Load(c: Cache, key: nat, created: Instance, now: int, models: seq<nat>): Cache
    requires Matched(c.store)
  {
    if key in c.store.instances then c
    else
      var store := Store(
        c.store.order + [key],
        c.store.instances[key := created],
        c.store.entries[key := Entry(key, now, now, 0, models)]);
      LoadKeepsMatched(c.store, key, created, Entry(key, now, now, 0, models));
      Publish(c.(store := store, log := c.log + [Loaded(key, created, now, models)]))
  }

  lemma LoadKeepsMatched(store: Store, key: nat, created: Instance, entry: Entry)
    requires Matched(store) && key !in store.instances && entry.key == key
    ensures Matched(Store(store.order + [key], store.instances[key := created], store.entries[key := entry]))
  {
  }

  function Bump(e: Entry, now: int, models: Option<seq<nat>>): Entry {
    e.(hits := e.hits + 1, lastUsedAt := now, models := if models.Some? then models.value else e.models)
  }

  /** _record_cache_use after a completed use by way of an instance. */
  function RecordUse(c: Cache, hook: Hook, now: int, models: Option<seq<nat>>): Cache
    requires Matched(c.store)
  {
    var log := c.log + [Used(hook.key, hook.instance, now, models)];
    if hook.key !in c.store.entries then c.(log := log)
    else
      var entries := c.store.entries[hook.key := Bump(c.store.entries[hook.key], now, models)];
      Publish(Cache(c.store.(entries := entries), c.registry, log))
  }

  function Clear(c: Cache): Cache {
    Cache(
      Store([], map[], map[]),
      if |c.store.order| == 0 || c.registry.None? then c.registry else Some(Registry([], 0)),
      c.log + [Closed])
  }

  function Step(c: Cache, op: Op): Cache
    requires Matched(c.store)
  {
    match op
    case Resolve(key, created, cacheable, now, models) => if cacheable then Load(c, key, created, now, models) else c
    case Invoke(hook, now) => RecordUse(c, hook, now, None)
    case Warm(key, created, cacheable, raises, now, models, warmed) =>
      if !cacheable && key !in c.store.instances then c
      else
        var c' := Load(c, key, created, now, models);
        if raises then Clear(c') else RecordUse(c', Hook(key, c'.store.instances[key]), now, warmed)
    case Close => Clear(c)
  }

  // ---------------------------------------------------------------------------------------
  // What the log says

  /** Completed uses of a key since it was last loaded. */
  function UsesSinceLoad(log: seq<Event>, key: nat): nat {
    if |log| == 0 then 0
    else
      match log[|log| - 1]
      case Loaded(k, _, _, _) => if k == key then 0 else UsesSinceLoad(log[..|log| - 1], key)
      case Used(k, _, _, _) => UsesSinceLoad(log[..|log| - 1], key) + if k == key then 1 else 0
      case Closed => UsesSinceLoad(log[..|log| - 1], key)
  }

  /** Those of them that went by way of one given instance. */
  function UsesOf(log: seq<Event>, key: nat, instance: Instance): nat {
    if |log| == 0 then 0
    else
      match log[|log| - 1]
      case Loaded(k, _, _, _) => if k == key then 0 else UsesOf(log[..|log| - 1], key, instance)
      case Used(k, i, _, _) => UsesOf(log[..|log| - 1], key, instance) + if k == key && i == instance then 1 else 0
      case Closed => UsesOf(log[..|log| - 1], key, instance)
  }

  /** When a key was last loaded. */
  function LoadedAt(log: seq<Event>, key: nat): int {
    if |log| == 0 then 0
    else if log[|log| - 1].Loaded? && log[|log| - 1].key == key then log[|log| - 1].at
    else LoadedAt(log[..|log| - 1], key)
  }

  /** When a key was last loaded or used. */
  function TouchedAt(log: seq<Event>, key: nat): int {
    if |log| == 0 then 0
    else if !log[|log| - 1].Closed? && log[|log| - 1].key == key then log[|log| - 1].at
    else TouchedAt(log[..|log| - 1], key)
  }

  /** The models last named for a key, when it was loaded or by a use since. */
  function NamedModels(log: seq<Event>, key: nat): seq<nat> {
    if |log| == 0 then []
    else
      match log[|log| - 1]
      case Loaded(k, _, _, models) => if k == key then models else NamedModels(log[..|log| - 1], key)
      case Used(k, _, _, named) => if k == key && named.Some? then named.value else NamedModels(log[..|log| - 1], key)
      case Closed => NamedModels(log[..|log| - 1], key)
  }

  /** The instance a key holds: the one last loaded, unless the cache was closed since. */
  function Held(log: seq<Event>, key: nat): Option<Instance> {
    if |log| == 0 then None
    else
      match log[|log| - 1]
      case Loaded(k, i, _, _) => if k == key then Some(i) else Held(log[..|log| - 1], key)
      case Used(_, _, _, _) => Held(log[..|log| - 1], key)
      case Closed => None
  }

  // ---------------------------------------------------------------------------------------
  // Invariant

  /** What an entry shows is what happened: completed uses since load, when it was loaded and last used, and the models named last. */
  ghost predicate Shows(e: Entry, log: seq<Event>, k: nat) {
    && e.key == k && e.hits == UsesSinceLoad(log, k)
    && e.loadedAt == LoadedAt(log, k) && e.lastUsedAt == TouchedAt(log, k) && e.models == NamedModels(log, k)
  }

  /** The instance map is what the log says, and so is every entry. */
  ghost predicate Tracks(c: Cache, k: nat) {
    && (k in c.store.instances <==> Held(c.log, k).Some?)
    && (k in c.store.instances ==> Held(c.log, k) == Some(c.store.instances[k]))
    && (k in c.store.entries ==> Shows(c.store.entries[k], c.log, k))
  }

  /** The registry shows exactly the entries. */
  ghost predicate InSync(c: Cache)
    requires Matched(c.store)
  {
    c.registry.Some? ==> c.registry.value == Registry(Listing(c.store), |c.store.entries|)
  }

  ghost predicate Valid(c: Cache) {
    Matched(c.store) && InSync(c) && forall k {:trigger Tracks(c, k)} :: Tracks(c, k)
  }

  lemma {:induction false} OrderSize(order: seq<nat>, keys: set<nat>)
    requires forall k :: k in order <==> k in keys
    requires forall i, j :: 0 <= i < j < |order| ==> order[i] != order[j]
    ensures |order| == |keys|
    decreases |order|
  {
    if |order| > 0 {
      var last := order[|order| - 1];
      OrderSize(order[..|order| - 1], keys - {last});
    } else {
      assert keys == {};
    }
  }

  lemma PublishKeepsValid(c: Cache)
    requires Matched(c.store) && forall k {:trigger Tracks(c, k)} :: Tracks(c, k)
    ensures Valid(Publish(c))
  {
    OrderSize(c.store.order, c.store.entries.Keys);
    forall k ensures Tracks(Publish(c), k) {
      assert Tracks(c, k);
    }
  }

  lemma LogSnoc(log: seq<Event>, e: Event)
    ensures (log + [e])[..|log|] == log && (log + [e])[|log|] == e
  {
  }

  lemma LoadKeepsValid(c: Cache, key: nat, created: Instance, now: int, models: seq<nat>)
    requires Valid(c)
    ensures Valid(Load(c, key, created, now, models)) && key in Load(c, key, created, now, models).store.instances
  {
    if key !in c.store.instances {
      var entry := Entry(key, now, now, 0, models);
      LoadKeepsMatched(c.store, key, created, entry);
      var loaded := c.(
        store := Store(c.store.order + [key], c.store.instances[key := created], c.store.entries[key := entry]),
        log := c.log + [Loaded(key, created, now, models)]);
      LogSnoc(c.log, Loaded(key, created, now, models));
      forall k ensures Tracks(loaded, k) {
        assert Tracks(c, k);
      }
      PublishKeepsValid(loaded);
    }
  }

  lemma UseKeepsTracks(c: Cache, hook: Hook, entries: map<nat, Entry>, now: int, models: Option<seq<nat>>, k: nat)
    requires Tracks(c, k) && c.store.instances.Keys == c.store.entries.Keys == entries.Keys
    requires k in entries ==> entries[k] == if k == hook.key then Bump(c.store.entries[k], now, models) else c.store.entries[k]
    ensures Tracks(Cache(c.store.(entries := entries), c.registry, c.log + [Used(hook.key, hook.instance, now, models)]), k)
  {
    LogSnoc(c.log, Used(hook.key, hook.instance, now, models));
  }

  lemma UpdateKeepsMatched(store: Store, key: nat, e: Entry)
    requires Matched(store) && key in store.entries && e.key == key
    ensures Matched(store.(entries := store.entries[key := e]))
  {
  }

  lemma BumpKeepsTracks(c: Cache, hook: Hook, entries: map<nat, Entry>, now: int, models: Option<seq<nat>>)
    requires Valid(c) && hook.key in c.store.entries
    requires entries == c.store.entries[hook.key := Bump(c.store.entries[hook.key], now, models)]
    ensures var d := Cache(c.store.(entries := entries), c.registry, c.log + [Used(hook.key, hook.instance, now, models)]);
            forall k {:trigger Tracks(d, k)} :: Tracks(d, k)
  {
    forall k ensures Tracks(Cache(c.store.(entries := entries), c.registry, c.log + [Used(hook.key, hook.instance, now, models)]), k) {
      assert Tracks(c, k);
      UseKeepsTracks(c, hook, entries, now, models, k);
    }
  }

  lemma RecordUseKeepsValid(c: Cache, hook: Hook, now: int, models: Option<seq<nat>>)
    requires Valid(c)
    ensures Valid(RecordUse(c, hook, now, models))
  {
    var log := c.log + [Used(hook.key, hook.instance, now, models)];
    if hook.key !in c.store.entries {
      forall k ensures Tracks(c.(log := log), k) {
        assert Tracks(c, k);
        UseKeepsTracks(c, hook, c.store.entries, now, models, k);
      }
    } else {
      var e := Bump(c.store.entries[hook.key], now, models);
      var entries := c.store.entries[hook.key := e];
      UpdateKeepsMatched(c.store, hook.key, e);
      BumpKeepsTracks(c, hook, entries, now, models);
      PublishKeepsValid(Cache(c.store.(entries := entries), c.registry, log));
    }
  }

  lemma ClearKeepsValid(c: Cache)
    requires Valid(c)
    ensures Valid(Clear(c))
  {
    LogSnoc(c.log, Closed);
    OrderSize(c.store.order, c.store.entries.Keys);
    var empty: seq<nat> := [];
    assert Listing(Clear(c).store) == [];
    if |c.store.order| == 0 { assert Listing(c.store) == []; }
    forall k ensures Tracks(Clear(c), k) {
    }
  }

  lemma StepKeepsValid(c: Cache, op: Op)
    requires Valid(c)
    ensures Valid(Step(c, op))
  {
    match op
    case Resolve(key, created, cacheable, now, models) => LoadKeepsValid(c, key, created, now, models);
    case Invoke(hook, now) => RecordUseKeepsValid(c, hook, now, None);
    case Warm(key, created, cacheable, raises, now, models, warmed) =>
      if cacheable || key in c.store.instances {
        LoadKeepsValid(c, key, created, now, models);
        var c' := Load(c, key, created, now, models);
        if raises { ClearKeepsValid(c'); }
        else { RecordUseKeepsValid(c', Hook(key, c'.store.instances[key]), now, warmed); }
      }
    case Close => ClearKeepsValid(c);
  }

  // ---------------------------------------------------------------------------------------
  // Runs

  ghost function After(c: Cache, ops: seq<Op>): Cache
    requires Valid(c)
    decreases |ops|
  {
    if |ops| == 0 then c else (StepKeepsValid(c, ops[0]); After(Step(c, ops[0]), ops[1..]))
  }

  lemma {:induction false} RunKeepsValid(c: Cache, ops: seq<Op>)
    requires Valid(c)
    ensures Valid(After(c, ops))
    decreases |ops|
  {
    if |ops| > 0 {
      StepKeepsValid(c, ops[0]);
      RunKeepsValid(Step(c, ops[0]), ops[1..]);
    }
  }

  lemma EmptyIsValid(publishing: bool)
    ensures Valid(Empty(publishing))
  {
    assert Listing(Empty(publishing).store) == [];
  }

  /**
    What an operation amounts to after a history: loading a key that is not held, a completed use, a
    close. A warm-up loads, and then counts as a use, or closes the cache when it raises.
  */
  ghost function Events(log: seq<Event>, op: Op): seq<Event> {
    match op
    case Resolve(key, created, cacheable, now, models) =>
      if cacheable && Held(log, key).None? then [Loaded(key, created, now, models)] else []
    case Invoke(hook, now) => [Used(hook.key, hook.instance, now, None)]
    case Warm(key, created, cacheable, raises, now, models, warmed) =>
      if Held(log, key).Some? then [if raises then Closed else Used(key, Held(log, key).value, now, warmed)]
      else if cacheable then [Loaded(key, created, now, models), if raises then Closed else Used(key, created, now, warmed)]
      else []
    case Close => [Closed]
  }

  /** The history after a sequence of operations. */
  ghost function History(log: seq<Event>, ops: seq<Op>): seq<Event>
    decreases |ops|
  {
    if |ops| == 0 then log else History(log + Events(log, ops[0]), ops[1..])
  }

  lemma WarmLogs(c: Cache, op: Op)
    requires Valid(c) && op.Warm?
    ensures Step(c, op).log == c.log + Events(c.log, op)
  {
    assert Tracks(c, op.key);
    if Held(c.log, op.key).None? && op.cacheable {
      var first, second := Loaded(op.key, op.created, op.now, op.models),
          if op.raises then Closed else Used(op.key, op.created, op.now, op.warmed);
      assert c.log + [first] + [second] == c.log + [first, second];
    }
  }

  lemma StepLogs(c: Cache, op: Op)
    requires Valid(c)
    ensures Step(c, op).log == c.log + Events(c.log, op)
  {
    match op
    case Resolve(key, _, _, _, _) => assert Tracks(c, key);
    case Warm(_, _, _, _, _, _, _) => WarmLogs(c, op);
    case _ =>
  }

  lemma {:induction false} RunLogs(c: Cache, ops: seq<Op>)
    requires Valid(c)
    ensures After(c, ops).log == History(c.log, ops)
    decreases |ops|
  {
    if |ops| > 0 {
      StepKeepsValid(c, ops[0]);
      StepLogs(c, ops[0]);
      RunLogs(Step(c, ops[0]), ops[1..]);
    }
  }

  /** The published registry: the entries in insertion order, each once, and their number. */
  ghost predicate Published(c: Cache) {
    && c.registry.Some? && c.registry.value.total == |c.registry.value.entries| == |c.store.entries| == |c.store.order|
    && (forall i :: 0 <= i < |c.store.order| ==>
          c.store.order[i] in c.store.entries && c.registry.value.entries[i] == c.store.entries[c.store.order[i]])
    && (forall i, j :: 0 <= i < j < |c.store.order| ==> c.store.order[i] != c.store.order[j])
  }

  lemma RegistryIsPublished(c: Cache)
    requires Valid(c) && c.registry.Some?
    ensures Published(c)
  {
    OrderSize(c.store.order, c.store.entries.Keys);
  }

  /**
    Main result: after any sequence of operations a key is cached exactly when its history says so,
    with the instance loaded last; its entry shows what happened to it; and the registry shows the entries.
  */
  lemma CacheAgrees(publishing: bool, ops: seq<Op>)
    ensures Valid(Empty(publishing))
    ensures var c, log := After(Empty(publishing), ops), History([], ops);
            && c.store.instances.Keys == c.store.entries.Keys
            && (publishing ==> Published(c))
            && (forall k :: k in c.store.instances <==> Held(log, k).Some?)
            && (forall k :: k in c.store.instances ==> Held(log, k) == Some(c.store.instances[k]))
            && (forall k :: k in c.store.entries ==> Shows(c.store.entries[k], log, k))
  {
    EmptyIsValid(publishing);
    RunKeepsValid(Empty(publishing), ops);
    RunLogs(Empty(publishing), ops);
    KeepsPublishing(Empty(publishing), ops);
    var c := After(Empty(publishing), ops);
    forall k ensures k in c.store.instances <==> Held(c.log, k).Some? { assert Tracks(c, k); }
    forall k | k in c.store.instances ensures Held(c.log, k) == Some(c.store.instances[k]) && Shows(c.store.entries[k], c.log, k) {
      assert Tracks(c, k);
    }
    if publishing { RegistryIsPublished(c); }
  }

  lemma StepKeepsPublishing(c: Cache, op: Op)
    requires Valid(c)
    ensures Step(c, op).registry.Some? <==> c.registry.Some?
  {
  }

  lemma {:induction false} KeepsPublishing(c: Cache, ops: seq<Op>)
    requires Valid(c)
    ensures After(c, ops).registry.Some? <==> c.registry.Some?
    decreases |ops|
  {
    if |ops| > 0 {
      StepKeepsValid(c, ops[0]);
      StepKeepsPublishing(c, ops[0]);
      KeepsPublishing(Step(c, ops[0]), ops[1..]);
    }
  }

  /** After a close, a run of hook uses and closes alone leaves the cache and the registry empty. */
  lemma {:induction false} NoResurrection(c: Cache, ops: seq<Op>)
    requires Valid(c) && c.store.entries == map[]
    requires forall i :: 0 <= i < |ops| ==> ops[i].Invoke? || ops[i].Close?
    ensures var d := After(c, ops);
            d.store == c.store && d.registry == c.registry && (d.registry.Some? ==> d.registry.value == Registry([], 0))
    decreases |ops|
  {
    OrderSize(c.store.order, c.store.entries.Keys);
    if |ops| == 0 {
      assert Listing(c.store) == [];
    } else {
      StepKeepsValid(c, ops[0]);
      assert c.store.instances == map[];
      assert Step(c, ops[0]).store == c.store;
      NoResurrection(Step(c, ops[0]), ops[1..]);
    }
  }

  lemma CloseEmpties(c: Cache)
    requires Valid(c)
    ensures Step(c, Close).store.entries == map[] && Step(c, Close).store.instances == map[]
  {
  }

  // ---------------------------------------------------------------------------------------
  // Hits of the instance that is loaded

  /** A hook of another instance was used since the key was last loaded. */
  predicate StaleUse(log: seq<Event>, key: nat, instance: Instance) {
    if |log| == 0 then false
    else
      match log[|log| - 1]
      case Loaded(k, _, _, _) => k != key && StaleUse(log[..|log| - 1], key, instance)
      case Used(k, i, _, _) => (k == key && i != instance) || StaleUse(log[..|log| - 1], key, instance)
      case Closed => StaleUse(log[..|log| - 1], key, instance)
  }

  lemma {:induction false} OwnUses(log: seq<Event>, key: nat, instance: Instance)
    ensures UsesOf(log, key, instance) <= UsesSinceLoad(log, key)
    ensures UsesOf(log, key, instance) == UsesSinceLoad(log, key) <==> !StaleUse(log, key, instance)
  {
    if |log| > 0 { OwnUses(log[..|log| - 1], key, instance); }
  }

  /** The hit count of a key is the number of uses of its instance exactly when no stale hook was used since it was loaded. */
  lemma HitsAreOwnUses(c: Cache, k: nat)
    requires Valid(c) && k in c.store.entries
    ensures c.store.entries[k].hits == UsesOf(c.log, k, c.store.instances[k]) <==> !StaleUse(c.log, k, c.store.instances[k])
  {
    assert Tracks(c, k);
    OwnUses(c.log, k, c.store.instances[k]);
  }

  /** A use by way of another instance raises the hit count and not the uses of the loaded instance. */
  lemma StaleUseCounts(c: Cache, k: nat, stale: Instance, now: int)
    requires Valid(c) && k in c.store.entries && k in c.store.instances && stale != c.store.instances[k]
    ensures var d := Step(c, Invoke(Hook(k, stale), now));
            && d.store.instances == c.store.instances
            && k in d.store.entries
            && d.store.entries[k].hits == c.store.entries[k].hits + 1
            && UsesOf(d.log, k, c.store.instances[k]) == UsesOf(c.log, k, c.store.instances[k])
  {
    LogSnoc(c.log, Used(k, stale, now, None));
  }

  lemma ReloadStartsAtZero(c: Cache, k: nat, created: Instance, now: int)
    requires Valid(c) && k !in c.store.instances
    ensures var d := Step(c, Resolve(k, created, true, now, []));
            && k in d.store.instances && d.store.instances[k] == created
            && k in d.store.entries && d.store.entries[k].hits == 0
            && UsesOf(d.log, k, created) == 0
  {
    LogSnoc(c.log, Loaded(k, created, now, []));
  }

  /** A hook kept across a close and a reload counts on the new entry, whatever happened before. */
  lemma StaleHookCounts(c: Cache, k: nat, stale: Instance, created: Instance, now: int)
    requires Valid(c) && stale != created
    ensures var d := After(c, [Close] + ([Resolve(k, created, true, now, [])] + ([Invoke(Hook(k, stale), now)] + [])));
            && k in d.store.entries
            && k in d.store.instances
            && d.store.instances[k] == created
            && d.store.entries[k].hits == 1
            && UsesOf(d.log, k, created) == 0
  {
    var resolve, invoke := Resolve(k, created, true, now, []), Invoke(Hook(k, stale), now);
    Prepend(c, Close, [resolve] + ([invoke] + []));
    CloseEmpties(c);
    var c1 := Step(c, Close);
    Prepend(c1, resolve, [invoke] + []);
    ReloadStartsAtZero(c1, k, created, now);
    var c2 := Step(c1, resolve);
    Prepend(c2, invoke, []);
    StaleUseCounts(c2, k, stale, now);
  }

  lemma Prepend(c: Cache, op: Op, ops: seq<Op>)
    requires Valid(c)
    ensures Valid(Step(c, op)) && After(c, [op] + ops) == After(Step(c, op), ops)
  {
    StepKeepsValid(c, op);
    assert ([op] + ops)[0] == op && ([op] + ops)[1..] == ops;
  }
}
