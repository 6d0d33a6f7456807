/** _validate_pipeline: the three passes over the stages of a plugin pipeline. */
module PipelineCheck {
  import opened Pipeline

  datatype Verdict =
    | Accepted(stages: seq<Stage>)
    | Rejected(fault: Fault, at: nat)

  // ---------------------------------------------------------------------------------------
  // First pass: each stage on its own

  /** The first complaint about stage i, its id compared with the stages before it. */
  function StageFault(raw: seq<RawStage>, i: nat): Option<Fault>
    requires i < |raw|
    requires AllShaped(raw[..i])
  {
    if raw[i].NotObject? then Some(NotAnObject)
    else if !Filled(raw[i].id) then Some(EmptyId)
    else if Has(CleanAll(raw[..i]), IdOf(raw[i].id)) then Some(DuplicateId)
    else if !Supported(raw[i].phase, raw[i].handler) then Some(Unsupported)
    else if raw[i].phase == Results && !raw[i].next.Absent? then Some(ResultsNotTerminal)
    else if raw[i].phase != Results && !Filled(raw[i].next) then Some(NoNext)
    else None
  }

  /** Stage i really has the fault; every stage before it is well shaped. */
  ghost predicate RealFault(raw: seq<RawStage>, i: nat, fault: Fault)
    requires i < |raw|
    requires AllShaped(raw[..i])
  {
    match fault
    case NotAnObject => raw[i].NotObject?
    case EmptyId => raw[i].Object? && !(raw[i].id.Text? && Strip(raw[i].id.s) != "")
    case DuplicateId =>
      raw[i].Object? && raw[i].id.Text? && exists j :: 0 <= j < i && CleanAll(raw[..i])[j].id.text == Strip(raw[i].id.s)
    case Unsupported => raw[i].Object? && !Supported(raw[i].phase, raw[i].handler)
    case ResultsNotTerminal => raw[i].Object? && raw[i].phase == Results && raw[i].next != Absent
    case NoNext => raw[i].Object? && raw[i].phase != Results && !(raw[i].next.Text? && Strip(raw[i].next.s) != "")
    case _ => false
  }

  lemma FaultIsReal(raw: seq<RawStage>, i: nat)
    requires i < |raw| && AllShaped(raw[..i]) && StageFault(raw, i).Some?
    ensures RealFault(raw, i, StageFault(raw, i).value)
  {
    if StageFault(raw, i) == Some(DuplicateId) {
      var j :| 0 <= j < i && CleanAll(raw[..i])[j].id == IdOf(raw[i].id);
      assert CleanAll(raw[..i])[j].id.text == Strip(raw[i].id.s);
    }
  }

  /** The stages before i pass the first pass. */
  ghost predicate Clear(raw: seq<RawStage>, i: nat) {
    i <= |raw| && AllShaped(raw[..i]) && DistinctIds(CleanAll(raw[..i]))
  }

  lemma ClearStep(raw: seq<RawStage>, i: nat)
    requires i < |raw| && Clear(raw, i)
    ensures StageFault(raw, i).None? <==> Clear(raw, i + 1)
    ensures Clear(raw, i + 1) ==> CleanAll(raw[..i + 1]) == CleanAll(raw[..i]) + [Clean(raw[i])]
  {
    var before, upto := raw[..i], raw[..i + 1];
    assert forall j :: 0 <= j < i ==> upto[j] == before[j];
    assert upto[i] == raw[i];
    assert AllShaped(upto) <==> Shaped(raw[i]);
    if Shaped(raw[i]) {
      var olds, news := CleanAll(before), CleanAll(upto);
      assert news == olds + [Clean(raw[i])];
      DistinctSnoc(olds, Clean(raw[i]));
    }
  }

  lemma DistinctSnoc(stages: seq<Stage>, s: Stage)
    requires DistinctIds(stages)
    ensures DistinctIds(stages + [s]) <==> !Has(stages, s.id)
  {
    var longer := stages + [s];
    if Has(stages, s.id) {
      var i :| 0 <= i < |stages| && stages[i].id == s.id;
      assert longer[i].id == longer[|stages|].id;
    }
  }

  method CheckStages(raw: seq<RawStage>) returns (verdict: Verdict)
    ensures verdict.Accepted? <==> AllShaped(raw) && DistinctIds(CleanAll(raw))
    ensures verdict.Accepted? ==> verdict.stages == CleanAll(raw)
    ensures verdict.Rejected? ==>
              verdict.at < |raw| && Clear(raw, verdict.at) && StageFault(raw, verdict.at) == Some(verdict.fault)
  {
    var ids: set<StageId> := {};
    var stages: seq<Stage> := [];
    for i := 0 to |raw|
      invariant Clear(raw, i) && stages == CleanAll(raw[..i])
      invariant forall id :: id in ids <==> Has(stages, id)
    {
      ClearStep(raw, i);
      var r := raw[i];
      if r.NotObject? { NotClear(raw, i); return Rejected(NotAnObject, i); }
      if !Filled(r.id) { NotClear(raw, i); return Rejected(EmptyId, i); }
      var id := IdOf(r.id);
      if id in ids { NotClear(raw, i); return Rejected(DuplicateId, i); }
      ids := ids + {id};
      if !Supported(r.phase, r.handler) { NotClear(raw, i); return Rejected(Unsupported, i); }
      if r.phase == Results {
        if !r.next.Absent? { NotClear(raw, i); return Rejected(ResultsNotTerminal, i); }
      } else if !Filled(r.next) {
        NotClear(raw, i);
        return Rejected(NoNext, i);
      }
      HasSnoc(stages, Clean(r));
      stages := stages + [Clean(r)];
    }
    assert raw[..|raw|] == raw;
    return Accepted(stages);
  }

  lemma HasSnoc(stages: seq<Stage>, s: Stage)
    ensures forall id :: Has(stages + [s], id) <==> Has(stages, id) || id == s.id
  {
    forall id ensures Has(stages + [s], id) <==> Has(stages, id) || id == s.id {
      var longer := stages + [s];
      if Has(stages, id) {
        var i :| 0 <= i < |stages| && stages[i].id == id;
        assert longer[i].id == id;
      }
      assert longer[|stages|] == s;
    }
  }

  /** A list that passes the first pass passes it at every stage. */
  lemma ClearThroughout(raw: seq<RawStage>, i: nat)
    requires i <= |raw| && AllShaped(raw) && DistinctIds(CleanAll(raw))
    ensures Clear(raw, i)
  {
    var all, upto := CleanAll(raw), raw[..i];
    assert forall j :: 0 <= j < i ==> upto[j] == raw[j];
    assert CleanAll(upto) == all[..i];
  }

  /** A fault in one stage spoils the whole list. */
  lemma NotClear(raw: seq<RawStage>, i: nat)
    requires i < |raw| && Clear(raw, i) && StageFault(raw, i).Some?
    ensures !(AllShaped(raw) && DistinctIds(CleanAll(raw)))
  {
    ClearStep(raw, i);
    if AllShaped(raw) && DistinctIds(CleanAll(raw)) { ClearThroughout(raw, i + 1); }
  }

  // ---------------------------------------------------------------------------------------
  // Second pass: known successors

  method CheckSuccessors(stages: seq<Stage>, ids: set<StageId>) returns (bad: Option<nat>)
    requires forall id :: id in ids <==> Has(stages, id)
    requires forall i :: 0 <= i < |stages| ==> (stages[i].phase == Results <==> stages[i].next.None?)
    ensures bad.None? <==> Linked(stages)
    ensures bad.Some? ==> bad.value < |stages| && !LinkedAt(stages, bad.value)
    ensures bad.Some? ==> forall i :: 0 <= i < bad.value ==> LinkedAt(stages, i)
  {
    for i := 0 to |stages|
      invariant forall j :: 0 <= j < i ==> LinkedAt(stages, j)
    {
      if stages[i].phase != Results && stages[i].next.value !in ids {
        assert !LinkedAt(stages, i);
        return Some(i);
      }
      assert LinkedAt(stages, i);
    }
    return None;
  }

  // ---------------------------------------------------------------------------------------
  // Third pass: every chain ends in results

  /** Where each id is. */
  predicate Indexes(byId: map<StageId, nat>, stages: seq<Stage>) {
    && (forall i :: 0 <= i < |stages| ==> stages[i].id in byId && byId[stages[i].id] == i)
    && (forall id :: id in byId ==> byId[id] < |stages| && stages[byId[id]].id == id)
  }

  method BuildIndex(stages: seq<Stage>) returns (byId: map<StageId, nat>)
    requires DistinctIds(stages)
    ensures Indexes(byId, stages)
  {
    byId := map[];
    for i := 0 to |stages|
      invariant Indexes(byId, stages[..i])
    {
      assert forall j :: 0 <= j < i ==> stages[..i][j] == stages[j];
      byId := byId[stages[i].id := i];
      assert forall j :: 0 <= j <= i ==> stages[..i + 1][j] == stages[j];
    }
    assert stages[..|stages|] == stages;
  }

  /** The stages whose ids are in `ids` are those listed. */
  ghost predicate Lists(stages: seq<Stage>, ids: set<StageId>, list: seq<nat>) {
    && (forall i :: 0 <= i < |stages| ==> (stages[i].id in ids <==> i in list))
    && (forall id :: id in ids ==> Has(stages, id))
  }

  ghost predicate NoRepeats(list: seq<nat>) {
    forall i, j :: 0 <= i < j < |list| ==> list[i] != list[j]
  }

  lemma ListsSnoc(stages: seq<Stage>, ids: set<StageId>, list: seq<nat>, i: nat)
    requires DistinctIds(stages) && Lists(stages, ids, list) && i < |stages|
    ensures Lists(stages, ids + {stages[i].id}, list + [i])
  {
    forall j | 0 <= j < |stages| ensures stages[j].id in ids + {stages[i].id} <==> j in list + [i] {
      assert stages[j].id == stages[i].id ==> i == j;
    }
    assert Has(stages, stages[i].id);
  }

  lemma Concat(stages: seq<Stage>, ids: set<StageId>, list: seq<nat>, ids': set<StageId>, list': seq<nat>)
    requires Lists(stages, ids, list) && Lists(stages, ids', list')
    requires NoRepeats(list) && NoRepeats(list') && forall i :: i in list' ==> i !in list
    ensures Lists(stages, ids + ids', list + list') && NoRepeats(list + list')
  {
    var both := list + list';
    forall i, j | 0 <= i < j < |both| ensures both[i] != both[j] {
      if i < |list| <= j {
        assert both[j] == list'[j - |list|];
        assert both[j] in list';
        assert both[i] in list;
      }
    }
  }

  /** The stages not yet on a list, for termination. */
  ghost function Missing(stages: seq<Stage>, done: seq<nat>): set<nat> {
    set i: nat | i < |stages| && i !in done
  }

  lemma MissingShrinks(stages: seq<Stage>, done: seq<nat>, i: nat)
    requires i < |stages| && i !in done
    ensures Missing(stages, done + [i]) < Missing(stages, done)
  {
    assert i in Missing(stages, done);
  }

  lemma TakeStep(stages: seq<Stage>, ids: set<StageId>, done: seq<nat>, path: seq<nat>, here: nat)
    requires DistinctIds(stages) && Lists(stages, ids, path) && here < |stages|
    requires here !in done && here !in path
    requires NoRepeats(path) && forall i :: i in path ==> i !in done && i < |stages|
    ensures Lists(stages, ids + {stages[here].id}, path + [here])
    ensures NoRepeats(path + [here]) && forall i :: i in path + [here] ==> i !in done && i < |stages|
    ensures Missing(stages, done + (path + [here])) < Missing(stages, done + path)
  {
    MissingShrinks(stages, done + path, here);
    assert done + path + [here] == done + (path + [here]);
    ListsSnoc(stages, ids, path, here);
  }

  /** The while loop from one start stage. */
  method WalkChain(stages: seq<Stage>, byId: map<StageId, nat>, start: nat, fullyVisited: set<StageId>, ghost done: seq<nat>)
    returns (cyclic: bool, currentPath: set<StageId>, ghost path: seq<nat>)
    requires DistinctIds(stages) && Linked(stages) && Indexes(byId, stages) && start < |stages|
    requires Lists(stages, fullyVisited, done)
    requires forall i :: i in done ==> EndsInResults(stages, i)
    ensures cyclic ==> !EndsInResults(stages, start)
    ensures !cyclic ==> start in done + path && forall i :: i in path ==> EndsInResults(stages, i)
    ensures Lists(stages, currentPath, path)
    ensures NoRepeats(path) && forall i :: i in path ==> i !in done && i < |stages|
  {
    var current := stages[start].id;
    ghost var here: nat := start;
    currentPath, path := {}, [];
    while current !in fullyVisited
      invariant here < |stages| && stages[here].id == current
      invariant Lists(stages, currentPath, path)
      invariant NoRepeats(path) && forall i :: i in path ==> i !in done && i < |stages|
      invariant path == [] ==> here == start
      invariant path != [] ==> IsPath(stages, path) && path[0] == start && Follows(stages, path[|path| - 1], here)
      decreases Missing(stages, done + path)
    {
      if current in currentPath {
        CycleTraps(stages, path, here);
        TrappedNeverEnds(stages, path, start);
        return true, currentPath, path;
      }
      TakeStep(stages, currentPath, done, path, here);
      if path != [] { ExtendPath(stages, path, here); }
      currentPath := currentPath + {current};
      path := path + [here];
      var stage := stages[byId[current]];
      if stage.phase == Results {
        ResultsEnds(stages, here);
        AllEnd(stages, path);
        return false, currentPath, path;
      }
      assert LinkedAt(stages, here);
      current := stage.next.value;
      here := byId[current];
    }
    if path != [] {
      ExtendPath(stages, path, here);
      AllEnd(stages, path + [here]);
      assert forall k :: 0 <= k < |path| ==> (path + [here])[k] == path[k];
    }
    return false, currentPath, path;
  }

  lemma AllEnd(stages: seq<Stage>, path: seq<nat>)
    requires IsPath(stages, path) && EndsInResults(stages, path[|path| - 1])
    ensures forall k :: 0 <= k < |path| ==> EndsInResults(stages, path[k])
  {
    forall k | 0 <= k < |path| ensures EndsInResults(stages, path[k]) {
      PathEnds(stages, path, k);
    }
  }

  /** Finds a stage whose chain runs into a cycle; `walked` is every step of every walk, in order. */
  method CheckChains(stages: seq<Stage>, byId: map<StageId, nat>) returns (bad: Option<nat>, ghost walked: seq<nat>)
    requires DistinctIds(stages) && Linked(stages) && Indexes(byId, stages)
    ensures bad.None? <==> forall i :: 0 <= i < |stages| ==> EndsInResults(stages, i)
    ensures bad.Some? ==> bad.value < |stages| && !EndsInResults(stages, bad.value)
    ensures NoRepeats(walked) && forall i :: i in walked ==> i < |stages|
    ensures bad.None? ==> forall i :: 0 <= i < |stages| ==> i in walked
  {
    var fullyVisited: set<StageId> := {};
    walked := [];
    for start := 0 to |stages|
      invariant Lists(stages, fullyVisited, walked)
      invariant NoRepeats(walked) && forall i :: i in walked ==> i < |stages| && EndsInResults(stages, i)
      invariant forall i :: 0 <= i < start ==> i in walked
    {
      var cyclic, currentPath;
      ghost var path;
      cyclic, currentPath, path := WalkChain(stages, byId, start, fullyVisited, walked);
      Concat(stages, fullyVisited, walked, currentPath, path);
      walked := walked + path;
      if cyclic { return Some(start), walked; }
      fullyVisited := fullyVisited + currentPath;
    }
    return None, walked;
  }

  // ---------------------------------------------------------------------------------------
  // The three passes together

  /** Accepts exactly the well-formed pipelines, and walks each stage of an accepted one exactly once. */
  method ValidatePipeline(raw: seq<RawStage>) returns (verdict: Verdict, ghost walked: seq<nat>)
    ensures verdict.Accepted? <==> WellFormed(raw)
    ensures verdict.Accepted? ==> verdict.stages == CleanAll(raw)
    ensures NoRepeats(walked) && forall i :: i in walked ==> i < |raw|
    ensures verdict.Accepted? ==> forall i :: 0 <= i < |raw| ==> i in walked
    ensures verdict.Rejected? && verdict.fault.UnknownNext? ==>
              AllShaped(raw) && DistinctIds(CleanAll(raw)) && verdict.at < |raw| && !LinkedAt(CleanAll(raw), verdict.at)
    ensures verdict.Rejected? && verdict.fault.Cycle? ==>
              AllShaped(raw) && Linked(CleanAll(raw)) && verdict.at < |raw| && !EndsInResults(CleanAll(raw), verdict.at)
    ensures verdict.Rejected? && !verdict.fault.UnknownNext? && !verdict.fault.Cycle? ==>
              && verdict.at < |raw| && Clear(raw, verdict.at)
              && StageFault(raw, verdict.at) == Some(verdict.fault) && RealFault(raw, verdict.at, verdict.fault)
  {
    walked := [];
    verdict := CheckStages(raw);
    if verdict.Rejected? { FaultIsReal(raw, verdict.at); }
    if verdict.Rejected? { return; }
    var stages := verdict.stages;
    var byId := BuildIndex(stages);
    forall id ensures id in byId.Keys <==> Has(stages, id) {
    }
    var unknown := CheckSuccessors(stages, byId.Keys);
    if unknown.Some? { return Rejected(UnknownNext, unknown.value), []; }
    var cyclic;
    cyclic, walked := CheckChains(stages, byId);
    if cyclic.Some? { verdict := Rejected(Cycle, cyclic.value); }
  }
}
