/**
  The stage context of an execute job (scripts/inference_worker.py): the pipeline it carries, the
  stage it is in, and the publish stage inserted after the execute stage when outputs are published.
*/
module PublishStage {

  datatype Option<+T> = None | Some(value: T)

  datatype StageId = StageId(text: string)

  const PUBLISH := StageId("publish")

  datatype Phase = Prepare | Prefetch | Schedule | Execute | Postprocess | Collect | Publish | Results | OtherPhase(name: string)

  /** A stage of the pipeline; next is None when it is missing or empty. */
  datatype Stage = Stage(id: StageId, phase: Phase, next: Option<StageId>)

  // ---------------------------------------------------------------------------------------
  // Lookup by id

  /** The position of the first stage with an id, or the length of the pipeline. */
  function Find(pipeline: seq<Stage>, id: StageId): (k: nat)
    ensures k <= |pipeline|
    ensures k < |pipeline| ==> pipeline[k].id == id
    ensures forall i :: 0 <= i < k ==> pipeline[i].id != id
  {
    if |pipeline| == 0 || pipeline[0].id == id then 0 else 1 + Find(pipeline[1..], id)
  }

  predicate Has(pipeline: seq<Stage>, id: StageId) {
    Find(pipeline, id) < |pipeline|
  }

  function Get(pipeline: seq<Stage>, id: StageId): Stage
    requires Has(pipeline, id)
  {
    pipeline[Find(pipeline, id)]
  }

  lemma FindUnique(pipeline: seq<Stage>, k: nat)
    requires k < |pipeline| && forall i :: 0 <= i < k ==> pipeline[i].id != pipeline[k].id
    ensures Find(pipeline, pipeline[k].id) == k
  {
  }

  /** The successor of a stage, when the pipeline has it. */
  function Next(pipeline: seq<Stage>, id: StageId): Option<StageId> {
    if Has(pipeline, id) && Get(pipeline, id).next.Some? && Has(pipeline, Get(pipeline, id).next.value)
    then Get(pipeline, id).next else None
  }

  // ---------------------------------------------------------------------------------------
  // _ensure_publish_stage_after_execute

  predicate HasPublishPhase(pipeline: seq<Stage>) {
    exists i :: 0 <= i < |pipeline| && pipeline[i].phase == Publish
  }

  /** The guards under which the stage is inserted. */
  predicate Inserts(pipeline: seq<Stage>, current: StageId) {
    Has(pipeline, current) && Get(pipeline, current).phase == Execute && !HasPublishPhase(pipeline)
  }

  /** The pipeline with a publish stage between the execute stage and its successor. */
  function WithPublish(pipeline: seq<Stage>, current: StageId): seq<Stage> {
    if !Inserts(pipeline, current) then pipeline
    else
      var k := Find(pipeline, current);
      pipeline[..k] + [pipeline[k].(next := Some(PUBLISH)), Stage(PUBLISH, Publish, pipeline[k].next)] + pipeline[k + 1..]
  }

  class StageContext {
    var pipeline: seq<Stage>
    var current: StageId

    constructor (pipeline: seq<Stage>, current: StageId)
      ensures this.pipeline == pipeline && this.current == current
    {
      this.pipeline, this.current := pipeline, current;
    }

    method EnsurePublishStage()
      modifies this`pipeline
      ensures pipeline == WithPublish(old(pipeline), current)
    {
      var k := 0;
      while k < |pipeline| && pipeline[k].id != current
        invariant k <= |pipeline| && forall i :: 0 <= i < k ==> pipeline[i].id != current
        invariant pipeline == old(pipeline)
      {
        k := k + 1;
      }
      if k == |pipeline| { return; }
      FindUnique(pipeline, k);
      if pipeline[k].phase != Execute { return; }
      for i := 0 to |pipeline|
        invariant forall j :: 0 <= j < i ==> pipeline[j].phase != Publish
        invariant pipeline == old(pipeline)
      {
        if pipeline[i].phase == Publish { return; }
      }
      var stage := Stage(PUBLISH, Publish, pipeline[k].next);
      pipeline := pipeline[..k + 1] + [stage] + pipeline[k + 1..];
      pipeline := pipeline[k := pipeline[k].(next := Some(PUBLISH))];
    }
  }

  /** Inserting again changes nothing. */
  lemma InsertionIsIdempotent(pipeline: seq<Stage>, current: StageId)
    ensures WithPublish(WithPublish(pipeline, current), current) == WithPublish(pipeline, current)
  {
    if Inserts(pipeline, current) {
      var q := WithPublish(pipeline, current);
      assert q[Find(pipeline, current) + 1].phase == Publish;
    }
  }

  // ---------------------------------------------------------------------------------------
  // Chains

  /** A nonempty list of stages, each the successor of the one before, whose last has no successor. */
  predicate IsChain(pipeline: seq<Stage>, chain: seq<StageId>) {
    && |chain| > 0
    && Has(pipeline, chain[0])
    && (forall i :: 0 <= i < |chain| - 1 ==> Next(pipeline, chain[i]) == Some(chain[i + 1]))
    && Next(pipeline, chain[|chain| - 1]) == None
  }

  lemma ChainTail(pipeline: seq<Stage>, chain: seq<StageId>)
    requires IsChain(pipeline, chain) && |chain| > 1
    ensures IsChain(pipeline, chain[1..])
  {
    assert Next(pipeline, chain[0]) == Some(chain[0 + 1]);
  }

  lemma ChainCons(pipeline: seq<Stage>, id: StageId, chain: seq<StageId>)
    requires IsChain(pipeline, chain) && Next(pipeline, id) == Some(chain[0])
    ensures IsChain(pipeline, [id] + chain)
  {
    var longer := [id] + chain;
    forall i | 0 <= i < |longer| - 1 ensures Next(pipeline, longer[i]) == Some(longer[i + 1]) {
      if i > 0 { assert Next(pipeline, chain[i - 1]) == Some(chain[i - 1 + 1]); }
    }
  }

  /** A stage starts at most one chain. */
  lemma {:induction false} ChainIsUnique(pipeline: seq<Stage>, a: seq<StageId>, b: seq<StageId>)
    requires IsChain(pipeline, a) && IsChain(pipeline, b) && a[0] == b[0]
    ensures a == b
  {
    assert |a| > 1 ==> Next(pipeline, a[0]) == Some(a[0 + 1]);
    assert |b| > 1 ==> Next(pipeline, b[0]) == Some(b[0 + 1]);
    if |a| > 1 {
      ChainTail(pipeline, a);
      ChainTail(pipeline, b);
      ChainIsUnique(pipeline, a[1..], b[1..]);
      assert a == [a[0]] + a[1..] && b == [b[0]] + b[1..];
    }
  }

  lemma {:induction false} ChainSuffix(pipeline: seq<Stage>, chain: seq<StageId>, i: nat)
    requires IsChain(pipeline, chain) && i < |chain|
    ensures IsChain(pipeline, chain[i..])
  {
    if i > 0 {
      ChainTail(pipeline, chain);
      ChainSuffix(pipeline, chain[1..], i - 1);
      assert chain[1..][i - 1..] == chain[i..];
    } else {
      assert chain[0..] == chain;
    }
  }

  /** A chain does not come back to its first stage. */
  lemma NoReturn(pipeline: seq<Stage>, chain: seq<StageId>)
    requires IsChain(pipeline, chain)
    ensures chain[0] !in chain[1..]
  {
    forall i | 1 <= i < |chain| ensures chain[i] != chain[0] {
      ChainSuffix(pipeline, chain, i);
      if chain[i] == chain[0] { ChainIsUnique(pipeline, chain[i..], chain); }
    }
  }

  // ---------------------------------------------------------------------------------------
  // Insertion and chains

  /** The stage is inserted and no stage was named publish before. */
  predicate Fresh(pipeline: seq<Stage>, current: StageId) {
    Inserts(pipeline, current) && !Has(pipeline, PUBLISH)
  }

  /** publish after every occurrence of the execute stage. */
  function Weave(chain: seq<StageId>, current: StageId): seq<StageId> {
    if |chain| == 0 then []
    else (if chain[0] == current then [current, PUBLISH] else [chain[0]]) + Weave(chain[1..], current)
  }

  /** The new pipeline, position by position. */
  lemma InsertedIndex(pipeline: seq<Stage>, current: StageId, i: nat)
    requires Inserts(pipeline, current) && i <= |pipeline|
    ensures var k, q := Find(pipeline, current), WithPublish(pipeline, current);
            && |q| == |pipeline| + 1
            && q[i] == if i < k then pipeline[i]
                       else if i == k then pipeline[k].(next := Some(PUBLISH))
                       else if i == k + 1 then Stage(PUBLISH, Publish, pipeline[k].next)
                       else pipeline[i - 1]
  {
  }

  lemma FindIs(pipeline: seq<Stage>, id: StageId, k: nat)
    requires k <= |pipeline| && (k < |pipeline| ==> pipeline[k].id == id)
    requires forall i :: 0 <= i < k ==> pipeline[i].id != id
    ensures Find(pipeline, id) == k
  {
  }

  lemma FindAtMost(pipeline: seq<Stage>, id: StageId, k: nat)
    requires k < |pipeline| && pipeline[k].id == id
    ensures Find(pipeline, id) <= k
  {
  }

  lemma NotBefore(pipeline: seq<Stage>, id: StageId, i: nat)
    requires i < Find(pipeline, id)
    ensures pipeline[i].id != id
  {
  }

  /** Where an id is found after the insertion. */
  lemma FindInserted(pipeline: seq<Stage>, current: StageId, id: StageId)
    requires Fresh(pipeline, current)
    ensures Find(WithPublish(pipeline, current), id) == InsertedPosition(pipeline, current, id)
  {
    var q, f, g := WithPublish(pipeline, current), Find(pipeline, id), InsertedPosition(pipeline, current, id);
    if g <= |pipeline| { InsertedIndex(pipeline, current, g); } else { InsertedIndex(pipeline, current, 0); }
    forall i | 0 <= i < g ensures q[i].id != id {
      InsertedIndex(pipeline, current, i);
      NotBefore(pipeline, PUBLISH, if i <= Find(pipeline, current) then i else i - 1);
    }
    FindIs(q, id, g);
  }

  function InsertedPosition(pipeline: seq<Stage>, current: StageId, id: StageId): nat {
    var k, f := Find(pipeline, current), Find(pipeline, id);
    if id == PUBLISH then k + 1 else if f <= k then f else f + 1
  }

  /** The stage an id stands for after the insertion. */
  function Inserted(pipeline: seq<Stage>, current: StageId, id: StageId): Stage
    requires Has(pipeline, current) && (id == PUBLISH || Has(pipeline, id))
  {
    if id == PUBLISH then Stage(PUBLISH, Publish, Get(pipeline, current).next)
    else if id == current then Get(pipeline, id).(next := Some(PUBLISH))
    else Get(pipeline, id)
  }

  lemma GetInserted(pipeline: seq<Stage>, current: StageId, id: StageId)
    requires Fresh(pipeline, current)
    ensures var q := WithPublish(pipeline, current);
            && (Has(q, id) <==> id == PUBLISH || Has(pipeline, id))
            && (Has(q, id) ==> Get(q, id) == Inserted(pipeline, current, id))
  {
    FindInserted(pipeline, current, id);
    var g := InsertedPosition(pipeline, current, id);
    if g <= |pipeline| { InsertedIndex(pipeline, current, g); } else { InsertedIndex(pipeline, current, 0); }
    assert id != current && Has(pipeline, id) ==> Find(pipeline, id) != Find(pipeline, current);
  }

  /** Successors after the insertion; a successor that dangled under the name publish now resolves. */
  lemma NextInserted(pipeline: seq<Stage>, current: StageId, id: StageId)
    requires Fresh(pipeline, current) && (Has(pipeline, id) || id == PUBLISH)
    ensures var q := WithPublish(pipeline, current);
            var before := if id == PUBLISH then current else id;
            Next(q, id) ==
              if id == current || Get(pipeline, before).next == Some(PUBLISH) then Some(PUBLISH) else Next(pipeline, before)
  {
    GetInserted(pipeline, current, id);
    GetInserted(pipeline, current, PUBLISH);
    var before := if id == PUBLISH then current else id;
    if Get(pipeline, before).next.Some? { GetInserted(pipeline, current, Get(pipeline, before).next.value); }
  }

  lemma NextIsOld(pipeline: seq<Stage>, id: StageId)
    requires !Has(pipeline, PUBLISH)
    ensures Next(pipeline, id) != Some(PUBLISH)
    ensures Next(pipeline, id).Some? ==> Has(pipeline, Next(pipeline, id).value)
  {
  }

  /** The chain ends in a stage that names a successor called publish, which does not exist. */
  predicate Dangles(pipeline: seq<Stage>, chain: seq<StageId>)
    requires IsChain(pipeline, chain)
  {
    Has(pipeline, chain[|chain| - 1]) && Get(pipeline, chain[|chain| - 1]).next == Some(PUBLISH)
  }

  /**
    Every chain keeps its stages and their order, with publish right after the execute stage, exactly
    when it does not end in a dangling successor called publish.
  */
  lemma {:induction false} ChainIsWoven(pipeline: seq<Stage>, current: StageId, chain: seq<StageId>)
    requires Fresh(pipeline, current) && IsChain(pipeline, chain)
    ensures IsChain(WithPublish(pipeline, current), Weave(chain, current)) <==> !Dangles(pipeline, chain)
  {
    var q := WithPublish(pipeline, current);
    var head, rest := chain[0], chain[1..];
    NextInserted(pipeline, current, head);
    NextInserted(pipeline, current, PUBLISH);
    GetInserted(pipeline, current, head);
    GetInserted(pipeline, current, PUBLISH);
    if |chain| == 1 {
      assert Weave(rest, current) == [];
      LastWoven(pipeline, current, head);
    } else {
      ChainTail(pipeline, chain);
      ChainIsWoven(pipeline, current, rest);
      assert Next(pipeline, chain[0]) == Some(chain[0 + 1]);
      StepWoven(pipeline, current, head, rest);
    }
  }

  lemma LastWoven(pipeline: seq<Stage>, current: StageId, head: StageId)
    requires Fresh(pipeline, current) && Has(pipeline, head) && Next(pipeline, head) == None
    ensures IsChain(WithPublish(pipeline, current), if head == current then [current, PUBLISH] else [head]) <==>
            Get(pipeline, head).next != Some(PUBLISH)
  {
    var q := WithPublish(pipeline, current);
    NextInserted(pipeline, current, head);
    NextInserted(pipeline, current, PUBLISH);
    GetInserted(pipeline, current, head);
    var woven := if head == current then [current, PUBLISH] else [head];
    assert woven[0] == head;
  }

  lemma WeaveHead(chain: seq<StageId>, current: StageId)
    requires |chain| > 0
    ensures |Weave(chain, current)| > 0 && Weave(chain, current)[0] == chain[0]
  {
  }

  lemma StepWoven(pipeline: seq<Stage>, current: StageId, head: StageId, rest: seq<StageId>)
    requires Fresh(pipeline, current) && IsChain(pipeline, rest)
    requires Has(pipeline, head) && Next(pipeline, head) == Some(rest[0])
    ensures var q := WithPublish(pipeline, current);
            IsChain(q, Weave(rest, current)) <==>
            IsChain(q, (if head == current then [current, PUBLISH] else [head]) + Weave(rest, current))
  {
    var q, tail := WithPublish(pipeline, current), Weave(rest, current);
    WeaveHead(rest, current);
    StepInserted(pipeline, current, head);
    LeadIff(q, current, head, tail);
  }

  lemma LeadIff(q: seq<Stage>, current: StageId, head: StageId, tail: seq<StageId>)
    requires |tail| > 0
    requires if head == current then Next(q, current) == Some(PUBLISH) && Next(q, PUBLISH) == Some(tail[0])
             else Next(q, head) == Some(tail[0])
    ensures IsChain(q, tail) <==> IsChain(q, (if head == current then [current, PUBLISH] else [head]) + tail)
  {
    if head == current {
      var longer := [PUBLISH] + tail;
      assert [current, PUBLISH] + tail == [current] + longer;
      ConsIff(q, PUBLISH, tail);
      ConsIff(q, current, longer);
    } else {
      ConsIff(q, head, tail);
    }
  }

  lemma StepInserted(pipeline: seq<Stage>, current: StageId, head: StageId)
    requires Fresh(pipeline, current) && Has(pipeline, head) && Next(pipeline, head).Some?
    ensures var q := WithPublish(pipeline, current);
            if head == current then Next(q, current) == Some(PUBLISH) && Next(q, PUBLISH) == Next(pipeline, head)
            else Next(q, head) == Next(pipeline, head)
  {
    NextIsOld(pipeline, head);
    NextInserted(pipeline, current, head);
    NextInserted(pipeline, current, PUBLISH);
  }

  lemma ConsIff(pipeline: seq<Stage>, id: StageId, chain: seq<StageId>)
    requires |chain| > 0 && Next(pipeline, id) == Some(chain[0])
    ensures IsChain(pipeline, [id] + chain) <==> IsChain(pipeline, chain)
  {
    if IsChain(pipeline, chain) { ChainCons(pipeline, id, chain); }
    if IsChain(pipeline, [id] + chain) {
      ChainTail(pipeline, [id] + chain);
      assert ([id] + chain)[1..] == chain;
    }
  }

  lemma {:induction false} WeaveElsewhere(chain: seq<StageId>, current: StageId)
    requires current !in chain
    ensures Weave(chain, current) == chain
  {
    if |chain| > 0 { WeaveElsewhere(chain[1..], current); }
  }

  /** The chain of the execute stage becomes execute, publish, old tail. */
  lemma ExecuteChain(pipeline: seq<Stage>, current: StageId, tail: seq<StageId>)
    requires Fresh(pipeline, current) && IsChain(pipeline, [current] + tail)
    ensures IsChain(WithPublish(pipeline, current), [current, PUBLISH] + tail) <==> !Dangles(pipeline, [current] + tail)
  {
    var chain := [current] + tail;
    assert chain[1..] == tail;
    NoReturn(pipeline, chain);
    WeaveElsewhere(tail, current);
    ChainIsWoven(pipeline, current, chain);
  }

  /** No stage names a successor called publish. */
  predicate NoDangling(pipeline: seq<Stage>) {
    forall i :: 0 <= i < |pipeline| ==> pipeline[i].next != Some(PUBLISH)
  }

  lemma WeaveCons(head: StageId, rest: seq<StageId>, current: StageId)
    ensures Weave([head] + rest, current) == (if head == current then [current, PUBLISH] else [head]) + Weave(rest, current)
  {
    assert ([head] + rest)[1..] == rest;
  }

  /** How many stages of the new chain one old stage accounts for. */
  function Stride(head: StageId, current: StageId): nat {
    if head == current then 2 else 1
  }

  /** A chain of the new pipeline goes from an old stage to its old successor, by way of publish after execute. */
  lemma WovenStep(pipeline: seq<Stage>, current: StageId, woven: seq<StageId>)
    requires Fresh(pipeline, current) && NoDangling(pipeline)
    requires IsChain(WithPublish(pipeline, current), woven) && woven[0] != PUBLISH
    ensures var head := woven[0]; var n := Stride(head, current);
            && Has(pipeline, head)
            && |woven| >= n
            && woven[..n] == (if head == current then [current, PUBLISH] else [head])
            && Next(pipeline, head) == if |woven| == n then None else Some(woven[n])
  {
    var q, head := WithPublish(pipeline, current), woven[0];
    GetInserted(pipeline, current, head);
    NextInserted(pipeline, current, head);
    NextInserted(pipeline, current, PUBLISH);
    assert Get(pipeline, head).next != Some(PUBLISH);
    assert |woven| > 1 ==> Next(q, woven[0]) == Some(woven[0 + 1]);
    assert |woven| > 2 ==> Next(q, woven[1]) == Some(woven[1 + 1]);
  }

  lemma WovenCons(pipeline: seq<Stage>, current: StageId, head: StageId, rest: seq<StageId>, woven: seq<StageId>)
    requires IsChain(pipeline, rest) && |woven| > Stride(head, current)
    requires var n := Stride(head, current);
             && woven[..n] == (if head == current then [current, PUBLISH] else [head])
             && woven[n..] == Weave(rest, current)
             && Next(pipeline, head) == Some(woven[n])
    ensures IsChain(pipeline, [head] + rest) && woven == Weave([head] + rest, current)
  {
    var n := Stride(head, current);
    WeaveHead(rest, current);
    assert woven[n..][0] == woven[n];
    ChainCons(pipeline, head, rest);
    WeaveCons(head, rest, current);
    assert woven == woven[..n] + woven[n..];
  }

  /** Every chain of the new pipeline from an old stage is an old chain, woven. */
  lemma {:induction false} OnlyWovenChains(pipeline: seq<Stage>, current: StageId, woven: seq<StageId>)
    returns (chain: seq<StageId>)
    requires Fresh(pipeline, current) && NoDangling(pipeline)
    requires IsChain(WithPublish(pipeline, current), woven) && woven[0] != PUBLISH
    ensures IsChain(pipeline, chain) && woven == Weave(chain, current)
    decreases |woven|
  {
    var head := woven[0];
    var n := Stride(head, current);
    WovenStep(pipeline, current, woven);
    if |woven| == n {
      chain := [head];
      WeaveCons(head, [], current);
      assert [head] + [] == [head] && woven == woven[..n] + [];
    } else {
      NextIsOld(pipeline, head);
      ChainSuffix(WithPublish(pipeline, current), woven, n);
      assert woven[n..][0] == woven[n];
      var rest := OnlyWovenChains(pipeline, current, woven[n..]);
      chain := [head] + rest;
      WovenCons(pipeline, current, head, rest, woven);
    }
  }

  /** The execute stage leads to the inserted stage exactly when no stage up to it is named publish. */
  lemma LeadsToPublish(pipeline: seq<Stage>, current: StageId)
    requires Inserts(pipeline, current)
    ensures var q := WithPublish(pipeline, current);
            (Has(q, PUBLISH) && Get(q, PUBLISH).phase == Publish) <==>
            forall i :: 0 <= i <= Find(pipeline, current) ==> pipeline[i].id != PUBLISH
  {
    var k, q := Find(pipeline, current), WithPublish(pipeline, current);
    InsertedIndex(pipeline, current, k + 1);
    forall i | 0 <= i <= k ensures q[i].id == pipeline[i].id && q[i].phase == pipeline[i].phase {
      InsertedIndex(pipeline, current, i);
    }
    FindAtMost(q, PUBLISH, k + 1);
  }

  /** A stage already called publish, before the execute stage, takes the name. */
  lemma NameTaken(execute: StageId)
    requires execute != PUBLISH
    ensures var pipeline := [Stage(PUBLISH, Postprocess, None), Stage(execute, Execute, None)];
            var q := WithPublish(pipeline, execute);
            Inserts(pipeline, execute) && Has(q, PUBLISH) && Get(q, PUBLISH).phase == Postprocess
  {
    var pipeline := [Stage(PUBLISH, Postprocess, None), Stage(execute, Execute, None)];
    FindUnique(pipeline, 1);
    var q := WithPublish(pipeline, execute);
    assert q[0] == pipeline[0];
    FindUnique(q, 0);
  }

  /** An execute stage whose successor publish did not exist becomes a stage from which no chain ends. */
  lemma DanglingLoops(execute: StageId, chain: seq<StageId>)
    requires execute != PUBLISH
    ensures var pipeline := [Stage(execute, Execute, Some(PUBLISH))];
            Fresh(pipeline, execute) && !(IsChain(WithPublish(pipeline, execute), chain) && chain[0] == execute)
  {
    var pipeline := [Stage(execute, Execute, Some(PUBLISH))];
    FindUnique(pipeline, 0);
    assert Find(pipeline, PUBLISH) == 1;
    NextInserted(pipeline, execute, execute);
    NextInserted(pipeline, execute, PUBLISH);
    var q := WithPublish(pipeline, execute);
    if IsChain(q, chain) && chain[0] == execute { NeverLeaves(q, execute, chain, |chain| - 1); }
  }

  lemma {:induction false} NeverLeaves(q: seq<Stage>, execute: StageId, chain: seq<StageId>, i: nat)
    requires Next(q, execute) == Some(PUBLISH) && Next(q, PUBLISH) == Some(PUBLISH)
    requires forall j :: 0 <= j < |chain| - 1 ==> Next(q, chain[j]) == Some(chain[j + 1])
    requires i < |chain| && chain[0] == execute
    ensures Next(q, chain[i]) == Some(PUBLISH)
  {
    if i > 0 {
      NeverLeaves(q, execute, chain, i - 1);
      assert Next(q, chain[i - 1]) == Some(chain[i - 1 + 1]);
    }
  }
}
