/**
  The Lua script behind QueueManager.forward_many (crates/scicomp-rq/src/lua.rs), run by Redis as
  one uninterrupted unit. Redis does not undo the effects of a script that raises, so the script is
  all-or-nothing only when none of its own writes can raise; this module says exactly when that is.
*/
module ForwardMany {

  /** Key names are only ever compared, so a key is a number here. */
  type Key = nat
  type SourceId = nat

  datatype Output = Output(stream: Key, runKey: Key, payload: string, stage: string)

  datatype Entry = Entry(id: nat, output: Output)

  datatype Option<+T> = None | Some(value: T)

  /** A value in the Redis keyspace. */
  datatype KeyValue =
    | Stream(entries: seq<Entry>)
    | Hash(stage: string)
    | Other

  type Keyspace = map<Key, KeyValue>

  datatype Reply =
    | Ids(ids: seq<nat>)
    | ConfigError
    | SourceNotPending(source: SourceId)
    | DestNotStream(key: Key)
    | Aborted(at: nat)

  // ---------------------------------------------------------------------------------------
  // The two writes of the script

  predicate StreamOrNone(keys: Keyspace, k: Key) {
    k in keys ==> keys[k].Stream?
  }

  predicate HashOrNone(keys: Keyspace, k: Key) {
    k in keys ==> keys[k].Hash?
  }

  function XAdd(keys: Keyspace, o: Output, id: nat): Keyspace
    requires StreamOrNone(keys, o.stream)
  {
    var old_ := if o.stream in keys then keys[o.stream].entries else [];
    keys[o.stream := Stream(old_ + [Entry(id, o)])]
  }

  function HSet(keys: Keyspace, o: Output): Keyspace
    requires HashOrNone(keys, o.runKey)
  {
    keys[o.runKey := Hash(o.stage)]
  }

  /** Both writes of one output can be made in this keyspace. */
  predicate Writable(keys: Keyspace, o: Output) {
    StreamOrNone(keys, o.stream) && HashOrNone(keys, o.runKey) && o.stream != o.runKey
  }

  function Written(keys: Keyspace, o: Output, id: nat): Keyspace
    requires Writable(keys, o)
  {
    HSet(XAdd(keys, o, id), o)
  }

  // ---------------------------------------------------------------------------------------
  // The condition a caller can check

  predicate DestinationsOk(keys: Keyspace, outs: seq<Output>) {
    forall i :: 0 <= i < |outs| ==> StreamOrNone(keys, outs[i].stream)
  }

  /** No run key holds something that is not a hash, and no run key is also a destination. */
  predicate RunKeysOk(keys: Keyspace, outs: seq<Output>) {
    && (forall i :: 0 <= i < |outs| ==> HashOrNone(keys, outs[i].runKey))
    && (forall i, j :: 0 <= i < |outs| && 0 <= j < |outs| ==> outs[i].runKey != outs[j].stream)
  }

  /** The keyspace after the first n outputs, leaving out those that cannot be written. */
  ghost function AfterWrites(keys: Keyspace, outs: seq<Output>, n: nat, id: nat): Keyspace
    requires n <= |outs|
  {
    if n == 0 then keys
    else
      var before := AfterWrites(keys, outs, n - 1, id);
      if Writable(before, outs[n - 1]) then Written(before, outs[n - 1], id + n - 1) else before
  }

  /** Each of the first n outputs can be written when its turn comes. */
  ghost predicate InTurn(keys: Keyspace, outs: seq<Output>, n: nat, id: nat)
    requires n <= |outs|
  {
    n > 0 ==> InTurn(keys, outs, n - 1, id) && Writable(AfterWrites(keys, outs, n - 1, id), outs[n - 1])
  }

  /** What a script that aborts at output n leaves: the outputs before it, and its own stream entry if only its hash was refused. */
  ghost function AfterAbort(keys: Keyspace, outs: seq<Output>, n: nat, id: nat): Keyspace
    requires n < |outs|
  {
    var before := AfterWrites(keys, outs, n, id);
    if StreamOrNone(before, outs[n].stream) then XAdd(before, outs[n], id + n) else before
  }

  /** What the first n outputs send to stream k, oldest first. */
  ghost function SentTo(k: Key, outs: seq<Output>, n: nat, id: nat): seq<Entry>
    requires n <= |outs|
  {
    if n == 0 then []
    else SentTo(k, outs, n - 1, id) + (if outs[n - 1].stream == k then [Entry(id + n - 1, outs[n - 1])] else [])
  }

  ghost function StreamAt(keys: Keyspace, k: Key): seq<Entry> {
    if k in keys && keys[k].Stream? then keys[k].entries else []
  }

  /** Every stream grows by exactly the outputs sent to it, in order. */
  lemma {:induction false} WritesAppend(keys: Keyspace, outs: seq<Output>, n: nat, id: nat, k: Key)
    requires n <= |outs| && InTurn(keys, outs, n, id)
    ensures StreamAt(AfterWrites(keys, outs, n, id), k) == StreamAt(keys, k) + SentTo(k, outs, n, id)
    decreases n
  {
    if n > 0 {
      WritesAppend(keys, outs, n - 1, id, k);
      var before := AfterWrites(keys, outs, n - 1, id);
      OneWriteAppends(before, outs[n - 1], id + n - 1, k);
      Regroup(StreamAt(before, k), StreamAt(keys, k), SentTo(k, outs, n - 1, id),
              if outs[n - 1].stream == k then [Entry(id + n - 1, outs[n - 1])] else []);
    }
  }

  lemma Regroup<T>(x: seq<T>, a: seq<T>, b: seq<T>, c: seq<T>)
    requires x == a + b
    ensures x + c == a + (b + c)
  {
  }

  lemma OneWriteAppends(keys: Keyspace, o: Output, id: nat, k: Key)
    requires Writable(keys, o)
    ensures StreamAt(Written(keys, o, id), k) == StreamAt(keys, k) + if o.stream == k then [Entry(id, o)] else []
  {
  }

  /** How many outputs a script that aborts at output n has appended to their streams. */
  ghost function LeftCount(keys: Keyspace, outs: seq<Output>, n: nat, id: nat): nat
    requires n < |outs|
  {
    if StreamOrNone(AfterWrites(keys, outs, n, id), outs[n].stream) then n + 1 else n
  }

  /** An aborted script leaves at least one output appended, and every stream has grown by exactly the first ones sent to it. */
  lemma AbortAppends(keys: Keyspace, outs: seq<Output>, n: nat, id: nat, k: Key)
    requires n < |outs| && InTurn(keys, outs, n, id) && DestinationsOk(keys, outs)
    ensures 0 < LeftCount(keys, outs, n, id) <= |outs|
    ensures StreamAt(AfterAbort(keys, outs, n, id), k) == StreamAt(keys, k) + SentTo(k, outs, LeftCount(keys, outs, n, id), id)
  {
    WritesAppend(keys, outs, n, id, k);
    var before := AfterWrites(keys, outs, n, id);
    Regroup(StreamAt(before, k), StreamAt(keys, k), SentTo(k, outs, n, id),
            if outs[n].stream == k then [Entry(id + n, outs[n])] else []);
  }

  /** Every written run hash ends with the stage of its last output. */
  lemma {:induction false} WritesStages(keys: Keyspace, outs: seq<Output>, n: nat, id: nat, i: nat)
    requires n <= |outs| && InTurn(keys, outs, n, id)
    requires i < n && forall j :: i < j < n ==> outs[j].runKey != outs[i].runKey
    ensures var t := AfterWrites(keys, outs, n, id);
            outs[i].runKey in t && t[outs[i].runKey] == Hash(outs[i].stage)
    decreases n
  {
    if i < n - 1 {
      WritesStages(keys, outs, n - 1, id, i);
    }
  }

  /** Keys the outputs do not name stay as they are. */
  lemma {:induction false} WritesNothingElse(keys: Keyspace, outs: seq<Output>, n: nat, id: nat, k: Key)
    requires n <= |outs|
    requires forall i :: 0 <= i < n ==> outs[i].stream != k && outs[i].runKey != k
    ensures var t := AfterWrites(keys, outs, n, id);
            (k in t <==> k in keys) && (k in keys ==> t[k] == keys[k])
    decreases n
  {
    if n > 0 {
      WritesNothingElse(keys, outs, n - 1, id, k);
    }
  }

  /** n consecutive entry ids. */
  ghost function NewIds(first: nat, n: nat): seq<nat> {
    if n == 0 then [] else NewIds(first, n - 1) + [first + n - 1]
  }

  ghost predicate SameKind(v: KeyValue, w: KeyValue) {
    v.Stream? == w.Stream? && v.Hash? == w.Hash?
  }

  /** Every key of the first keyspace is in the second, with a value of the same kind. */
  ghost predicate KindsKept(first: Keyspace, second: Keyspace) {
    forall k :: k in first ==> k in second && SameKind(second[k], first[k])
  }

  /** The output's stream is a stream and its run key a hash. */
  ghost predicate Placed(keys: Keyspace, o: Output) {
    o.stream in keys && keys[o.stream].Stream? && o.runKey in keys && keys[o.runKey].Hash?
  }

  lemma WriteKeepsKinds(first: Keyspace, keys: Keyspace, o: Output, id: nat)
    requires KindsKept(first, keys) && Writable(keys, o)
    ensures KindsKept(first, Written(keys, o, id))
  {
  }

  /** Outputs that could all be placed had free run keys from the start. */
  lemma AllPlaced(first: Keyspace, keys: Keyspace, outs: seq<Output>)
    requires KindsKept(first, keys) && forall j :: 0 <= j < |outs| ==> Placed(keys, outs[j])
    ensures RunKeysOk(first, outs)
  {
    forall i, j | 0 <= i < |outs| && 0 <= j < |outs| ensures outs[i].runKey != outs[j].stream {
      assert Placed(keys, outs[i]) && Placed(keys, outs[j]);
    }
    forall i | 0 <= i < |outs| ensures HashOrNone(first, outs[i].runKey) {
      assert Placed(keys, outs[i]);
    }
  }

  /** Good destinations and free run keys. */
  predicate Accepts(keys: Keyspace, outs: seq<Output>) {
    DestinationsOk(keys, outs) && RunKeysOk(keys, outs)
  }

  lemma WriteKeepsAccepting(keys: Keyspace, outs: seq<Output>, i: nat, id: nat)
    requires i < |outs| && Accepts(keys, outs)
    ensures Writable(keys, outs[i]) && Accepts(Written(keys, outs[i], id), outs)
  {
  }

  /** Outputs with good destinations and free run keys can all be written in turn. */
  lemma {:induction false} AcceptsInTurn(keys: Keyspace, outs: seq<Output>, n: nat, id: nat)
    requires n <= |outs| && Accepts(keys, outs)
    ensures InTurn(keys, outs, n, id) && Accepts(AfterWrites(keys, outs, n, id), outs)
    decreases n
  {
    if n > 0 {
      AcceptsInTurn(keys, outs, n - 1, id);
      WriteKeepsAccepting(AfterWrites(keys, outs, n - 1, id), outs, n - 1, id + n - 1);
    }
  }

  /** An output that cannot be written when its turn comes has a bad run key, or a run key that is a destination. */
  lemma NotWritable(keys: Keyspace, outs: seq<Output>, i: nat, id: nat)
    requires i < |outs| && DestinationsOk(keys, outs) && !Writable(AfterWrites(keys, outs, i, id), outs[i])
    ensures !RunKeysOk(keys, outs)
  {
    if RunKeysOk(keys, outs) { AcceptsInTurn(keys, outs, i + 1, id); }
  }

  lemma {:induction false} WritesKeepKinds(keys: Keyspace, outs: seq<Output>, n: nat, id: nat)
    requires n <= |outs| && InTurn(keys, outs, n, id)
    ensures KindsKept(keys, AfterWrites(keys, outs, n, id))
    decreases n
  {
    if n > 0 {
      WritesKeepKinds(keys, outs, n - 1, id);
      WriteKeepsKinds(keys, AfterWrites(keys, outs, n - 1, id), outs[n - 1], id + n - 1);
    }
  }

  lemma {:induction false} WritesPlace(keys: Keyspace, outs: seq<Output>, n: nat, id: nat, j: nat)
    requires j < n <= |outs| && InTurn(keys, outs, n, id)
    ensures Placed(AfterWrites(keys, outs, n, id), outs[j])
    decreases n
  {
    if j < n - 1 {
      WritesPlace(keys, outs, n - 1, id, j);
      WriteKeepsPlaced(AfterWrites(keys, outs, n - 1, id), outs[n - 1], id + n - 1, outs[j]);
    }
  }

  /** Outputs that can all be written in turn have free run keys. */
  lemma AllWritable(keys: Keyspace, outs: seq<Output>, id: nat)
    requires InTurn(keys, outs, |outs|, id)
    ensures RunKeysOk(keys, outs)
  {
    WritesKeepKinds(keys, outs, |outs|, id);
    forall j | 0 <= j < |outs| ensures Placed(AfterWrites(keys, outs, |outs|, id), outs[j]) {
      WritesPlace(keys, outs, |outs|, id, j);
    }
    AllPlaced(keys, AfterWrites(keys, outs, |outs|, id), outs);
  }

  lemma WriteKeepsPlaced(keys: Keyspace, o: Output, id: nat, other: Output)
    requires Placed(keys, other) && Writable(keys, o)
    ensures Placed(Written(keys, o, id), other)
  {
  }

  predicate Distinct(ids: seq<SourceId>) {
    forall i, j :: 0 <= i < j < |ids| ==> ids[i] != ids[j]
  }

  /** forward_many has something to send from at least one source, and no source twice. */
  predicate WellFormed(sources: seq<SourceId>, outs: seq<Output>) {
    sources != [] && Distinct(sources) && outs != []
  }

  predicate AllPending(pending: set<SourceId>, sources: seq<SourceId>) {
    forall i :: 0 <= i < |sources| ==> sources[i] in pending
  }

  class Redis {
    var keys: Keyspace
    var pending: set<SourceId>
    var nextId: nat

    constructor (keys: Keyspace, pending: set<SourceId>)
      ensures this.keys == keys && this.pending == pending && nextId == 0
    {
      this.keys := keys;
      this.pending := pending;
      nextId := 0;
    }

    /** XACK: drops the given ids from the pending list and counts those that were in it. */
    method XAck(sources: seq<SourceId>) returns (acked: nat)
      modifies this`pending
      ensures pending == old(pending) - (set s | s in sources)
      ensures Distinct(sources) && AllPending(old(pending), sources) ==> acked == |sources|
    {
      acked := 0;
      for i := 0 to |sources|
        invariant pending == old(pending) - (set s | s in sources[..i])
        invariant Distinct(sources) && AllPending(old(pending), sources) ==> acked == i
      {
        if sources[i] in pending {
          acked := acked + 1;
          pending := pending - {sources[i]};
        }
        assert sources[..i + 1] == sources[..i] + [sources[i]];
      }
      assert sources[..|sources|] == sources;
    }

    /** The XADD and the HSET of one output; Redis refuses a write to a key of the wrong kind. */
    method WriteOutput(o: Output) returns (written: bool)
      modifies this`keys, this`nextId
      ensures written <==> Writable(old(keys), o)
      ensures written ==> keys == Written(old(keys), o, old(nextId))
      ensures !written ==> keys == if StreamOrNone(old(keys), o.stream) then XAdd(old(keys), o, old(nextId)) else old(keys)
      ensures nextId == old(nextId) + if StreamOrNone(old(keys), o.stream) then 1 else 0
    {
      if !StreamOrNone(keys, o.stream) { return false; }
      keys := XAdd(keys, o, nextId);
      nextId := nextId + 1;
      if !HashOrNone(keys, o.runKey) { return false; }
      keys := HSet(keys, o);
      return true;
    }

    /** The writes of every output, abandoned at the first one Redis refuses. */
    method WriteOutputs(outs: seq<Output>) returns (refused: Option<nat>, ids: seq<nat>)
      requires outs != [] && DestinationsOk(keys, outs)
      modifies this`keys, this`nextId
      ensures refused.None? <==> RunKeysOk(old(keys), outs)
      ensures refused.None? ==> keys == AfterWrites(old(keys), outs, |outs|, old(nextId))
      ensures refused.None? ==> ids == NewIds(old(nextId), |outs|)
      ensures refused.Some? ==>
                && refused.value < |outs|
                && InTurn(old(keys), outs, refused.value, old(nextId))
                && !Writable(AfterWrites(old(keys), outs, refused.value, old(nextId)), outs[refused.value])
                && keys == AfterAbort(old(keys), outs, refused.value, old(nextId))
      ensures nextId > old(nextId)
    {
      ids := [];
      for i := 0 to |outs|
        invariant nextId == old(nextId) + i
        invariant ids == NewIds(old(nextId), i)
        invariant keys == AfterWrites(old(keys), outs, i, old(nextId)) && InTurn(old(keys), outs, i, old(nextId))
      {
        ids := ids + [nextId];
        var one := WriteOutput(outs[i]);
        if !one {
          NotWritable(old(keys), outs, i, old(nextId));
          return Some(i), ids;
        }
      }
      AllWritable(old(keys), outs, old(nextId));
      return None, ids;
    }

    /**
      LUA_FORWARD_MANY with the argument checks of forward_many_from. The rollback after a short
      XACK count is unreachable: distinct sources that were all pending are all acknowledged.
    */
    method ForwardMany(sources: seq<SourceId>, outs: seq<Output>) returns (reply: Reply)
      modifies this
      ensures reply.ConfigError? <==>
              sources == [] || outs == [] || exists i, j :: 0 <= i < j < |sources| && sources[i] == sources[j]
      ensures reply.SourceNotPending? <==> WellFormed(sources, outs) && !AllPending(old(pending), sources)
      ensures reply.SourceNotPending? ==> reply.source in sources && reply.source !in old(pending)
      ensures reply.DestNotStream? <==> WellFormed(sources, outs) && AllPending(old(pending), sources)
                                        && !DestinationsOk(old(keys), outs)
      ensures reply.Ids? <==> WellFormed(sources, outs) && AllPending(old(pending), sources)
                              && DestinationsOk(old(keys), outs) && RunKeysOk(old(keys), outs)
      // success is everything
      ensures reply.Ids? ==>
                && keys == AfterWrites(old(keys), outs, |outs|, old(nextId))
                && pending == old(pending) - (set s | s in sources)
                && reply.ids == NewIds(old(nextId), |outs|)
      // refusal is nothing
      ensures !reply.Ids? && !reply.Aborted? ==>
                keys == old(keys) && pending == old(pending) && nextId == old(nextId)
      // an aborted script leaves the outputs before the refused write, and every source pending
      ensures reply.Aborted? <==> WellFormed(sources, outs) && AllPending(old(pending), sources)
                                  && DestinationsOk(old(keys), outs) && !RunKeysOk(old(keys), outs)
      ensures reply.Aborted? ==>
                && pending == old(pending) && nextId > old(nextId)
                && reply.at < |outs|
                && InTurn(old(keys), outs, reply.at, old(nextId))
                && !Writable(AfterWrites(old(keys), outs, reply.at, old(nextId)), outs[reply.at])
                && keys == AfterAbort(old(keys), outs, reply.at, old(nextId))
    {
      if !WellFormed(sources, outs) {
        return ConfigError;
      }
      for i := 0 to |sources|
        invariant forall j :: 0 <= j < i ==> sources[j] in pending
      {
        if sources[i] !in pending {
          return SourceNotPending(sources[i]);
        }
      }
      for i := 0 to |outs|
        invariant forall j :: 0 <= j < i ==> StreamOrNone(keys, outs[j].stream)
      {
        if !StreamOrNone(keys, outs[i].stream) {
          return DestNotStream(outs[i].stream);
        }
      }
      var refused, ids := WriteOutputs(outs);
      if refused.Some? {
        return Aborted(refused.value);
      }
      var acked := XAck(sources);
      assert acked == |sources|;
      return Ids(ids);
    }
  }
}
