/** The stage walk of run_plugin: prepare hooks may redirect it, and a visited set guards it. */
module PipelineRun {
  import opened Pipeline
  import opened PipelineCheck

  /** What a prepare hook says about the next stage; None there means "no next stage". */
  datatype Redirect = Keep | To(next: Option<StageId>)

  /** The redirect of each prepare call, given the stages visited up to and including that call. */
  type Hook = seq<nat> -> Redirect

  datatype Outcome =
    | Finished
    | Stopped
    | Revisits(id: StageId)
    | UnknownStage(id: StageId)
    | BadPhase

  function NextOf(stages: seq<Stage>, hook: Hook, visited: seq<nat>): Option<StageId>
    requires |visited| > 0 && visited[|visited| - 1] < |stages|
  {
    var stage := stages[visited[|visited| - 1]];
    if stage.phase == Prepare && hook(visited).To? then hook(visited).next else stage.next
  }

  /** The walk visits different stages, each the one selected by the stage before. */
  ghost predicate IsWalk(stages: seq<Stage>, hook: Hook, visited: seq<nat>) {
    && |visited| > 0
    && visited[0] == 0
    && (forall k :: 0 <= k < |visited| ==> visited[k] < |stages|)
    && NoRepeats(visited)
    && (forall k :: 0 < k < |visited| ==> Selects(stages, hook, visited, k))
  }

  ghost predicate Selects(stages: seq<Stage>, hook: Hook, visited: seq<nat>, k: nat)
    requires 0 < k < |visited| && forall j :: 0 <= j < |visited| ==> visited[j] < |stages|
  {
    && stages[visited[k - 1]].phase != Results
    && NextOf(stages, hook, visited[..k]) == Some(stages[visited[k]].id)
  }

  /** How a walk that cannot go on ends. */
  ghost predicate EndsAs(stages: seq<Stage>, hook: Hook, visited: seq<nat>, outcome: Outcome)
    requires IsWalk(stages, hook, visited)
  {
    var phase := stages[visited[|visited| - 1]].phase;
    var next := NextOf(stages, hook, visited);
    match outcome
    case Finished => phase == Results
    case BadPhase => phase.OtherPhase?
    case Stopped => phase != Results && !phase.OtherPhase? && next.None?
    case UnknownStage(id) => phase != Results && !phase.OtherPhase? && next == Some(id) && !Has(stages, id)
    case Revisits(id) =>
      phase != Results && !phase.OtherPhase? && next == Some(id) && exists k :: 0 <= k < |visited| && stages[visited[k]].id == id
  }

  /** The k-th stage of the walk is a prepare stage, and its hook chose a next stage other than its own. */
  predicate RedirectsAt(stages: seq<Stage>, hook: Hook, visited: seq<nat>, k: nat)
    requires 0 < k <= |visited| && visited[k - 1] < |stages|
  {
    var stage := stages[visited[k - 1]];
    stage.phase == Prepare && hook(visited[..k]).To? && hook(visited[..k]).next != stage.next
  }

  /** The stage the k-th stage of the walk leads to: the one its prepare hook chose, or else its own next. */
  ghost predicate LeadsTo(stages: seq<Stage>, hook: Hook, visited: seq<nat>, k: nat, next: Option<StageId>)
    requires 0 < k <= |visited| && visited[k - 1] < |stages|
  {
    if RedirectsAt(stages, hook, visited, k) then next == hook(visited[..k]).next else next == stages[visited[k - 1]].next
  }

  /**
    The walk goes where each stage leads, and ends at results, at a stage that leads nowhere, to an
    unknown stage, or back into the walk.
  */
  ghost predicate Obeys(stages: seq<Stage>, hook: Hook, visited: seq<nat>, outcome: Outcome)
    requires |visited| > 0 && forall k :: 0 <= k < |visited| ==> visited[k] < |stages|
  {
    && (forall k :: 0 < k < |visited| ==> LeadsTo(stages, hook, visited, k, Some(stages[visited[k]].id)))
    && (match outcome
        case Finished => stages[visited[|visited| - 1]].phase == Results
        case BadPhase => stages[visited[|visited| - 1]].phase.OtherPhase?
        case Stopped => LeadsTo(stages, hook, visited, |visited|, None)
        case UnknownStage(id) => LeadsTo(stages, hook, visited, |visited|, Some(id)) && !Has(stages, id)
        case Revisits(id) =>
          LeadsTo(stages, hook, visited, |visited|, Some(id)) && exists k :: 0 <= k < |visited| && stages[visited[k]].id == id)
  }

  lemma SelectedIsLedTo(stages: seq<Stage>, hook: Hook, visited: seq<nat>, k: nat)
    requires 0 < k <= |visited| && forall j :: 0 <= j < |visited| ==> visited[j] < |stages|
    ensures LeadsTo(stages, hook, visited, k, NextOf(stages, hook, visited[..k]))
  {
    assert visited[..k][k - 1] == visited[k - 1];
  }

  /** Redirects are obeyed, and nothing but a prepare hook redirects. */
  lemma WalkObeys(stages: seq<Stage>, hook: Hook, visited: seq<nat>, outcome: Outcome)
    requires IsWalk(stages, hook, visited) && EndsAs(stages, hook, visited, outcome)
    ensures Obeys(stages, hook, visited, outcome)
  {
    forall k | 0 < k < |visited| ensures LeadsTo(stages, hook, visited, k, Some(stages[visited[k]].id)) {
      assert Selects(stages, hook, visited, k);
      SelectedIsLedTo(stages, hook, visited, k);
    }
    assert visited[..|visited|] == visited;
    SelectedIsLedTo(stages, hook, visited, |visited|);
  }

  lemma {:induction false} WalkIsBounded(n: nat, list: seq<nat>)
    requires NoRepeats(list) && forall k :: 0 <= k < |list| ==> list[k] < n
    ensures |list| <= n
    decreases n
  {
    assert |list| > 0 ==> list[0] < n;
    if n > 0 && n - 1 in list {
      var k :| 0 <= k < |list| && list[k] == n - 1;
      var rest := list[..k] + list[k + 1..];
      forall i | 0 <= i < |rest| ensures rest[i] < n - 1 {
        assert rest[i] == list[if i < k then i else i + 1];
      }
      WalkIsBounded(n - 1, rest);
    } else if n > 0 {
      WalkIsBounded(n - 1, list);
    }
  }

  lemma ExtendWalk(stages: seq<Stage>, hook: Hook, visited: seq<nat>, j: nat)
    requires IsWalk(stages, hook, visited) && j < |stages| && j !in visited
    requires stages[visited[|visited| - 1]].phase != Results
    requires NextOf(stages, hook, visited) == Some(stages[j].id)
    ensures IsWalk(stages, hook, visited + [j])
  {
    var longer := visited + [j];
    forall k | 0 < k < |longer| ensures Selects(stages, hook, longer, k) {
      if k < |visited| {
        assert Selects(stages, hook, visited, k);
        assert longer[..k] == visited[..k];
      } else {
        assert longer[..k] == visited;
      }
    }
  }

  /** The while loop of run_plugin. */
  method WalkStages(stages: seq<Stage>, byId: map<StageId, nat>, hook: Hook) returns (outcome: Outcome, visited: seq<nat>)
    requires |stages| > 0 && DistinctIds(stages) && Indexes(byId, stages)
    ensures IsWalk(stages, hook, visited) && |visited| <= |stages|
    ensures EndsAs(stages, hook, visited, outcome)
  {
    var seen: set<StageId> := {stages[0].id};
    visited := [0];
    ListsOne(stages);
    while true
      invariant IsWalk(stages, hook, visited) && Lists(stages, seen, visited)
      decreases Missing(stages, visited)
    {
      WalkIsBounded(|stages|, visited);
      var stage := stages[visited[|visited| - 1]];
      if stage.phase == Results { return Finished, visited; }
      if stage.phase.OtherPhase? { return BadPhase, visited; }
      var next := NextOf(stages, hook, visited);
      if next.None? { return Stopped, visited; }
      if next.value !in byId { return UnknownStage(next.value), visited; }
      var j := byId[next.value];
      if stages[j].id in seen {
        var k :| 0 <= k < |visited| && visited[k] == j;
        return Revisits(next.value), visited;
      }
      MissingShrinks(stages, visited, j);
      ExtendWalk(stages, hook, visited, j);
      ListsSnoc(stages, seen, visited, j);
      seen := seen + {stages[j].id};
      visited := visited + [j];
    }
  }

  /** The stages of run_plugin, where each one leads. */
  method RunStages(stages: seq<Stage>, byId: map<StageId, nat>, hook: Hook) returns (outcome: Outcome, visited: seq<nat>)
    requires |stages| > 0 && DistinctIds(stages) && Indexes(byId, stages)
    ensures IsWalk(stages, hook, visited) && |visited| <= |stages|
    ensures EndsAs(stages, hook, visited, outcome) && Obeys(stages, hook, visited, outcome)
  {
    outcome, visited := WalkStages(stages, byId, hook);
    WalkObeys(stages, hook, visited, outcome);
  }

  lemma ListsOne(stages: seq<Stage>)
    requires |stages| > 0 && DistinctIds(stages)
    ensures Lists(stages, {stages[0].id}, [0])
  {
    assert Has(stages, stages[0].id);
  }

  // ---------------------------------------------------------------------------------------
  // Accepted pipelines

  /** What validation guarantees of the stages it returns. */
  ghost predicate Sound(stages: seq<Stage>) {
    && |stages| > 0
    && DistinctIds(stages)
    && Linked(stages)
    && (forall i :: 0 <= i < |stages| ==> !stages[i].phase.OtherPhase? && EndsInResults(stages, i))
  }

  /** Stages with supported handlers, each naming the one after it as next, and results at the end. */
  predicate RawRow(raw: seq<RawStage>) {
    && |raw| > 0
    && (forall i :: 0 <= i < |raw| ==> raw[i].Object? && raw[i].id.Text? && Supported(raw[i].phase, raw[i].handler))
    && (forall i :: 0 <= i < |raw| - 1 ==> raw[i].phase != Results && raw[i].next == raw[i + 1].id)
    && raw[|raw| - 1].phase == Results && raw[|raw| - 1].next.Absent?
  }

  /** Each stage is followed by the next one in the list, and the last one is results. */
  predicate InARow(stages: seq<Stage>) {
    && |stages| > 0
    && (forall i :: 0 <= i < |stages| - 1 ==> stages[i].phase != Results && stages[i].next == Some(stages[i + 1].id))
    && stages[|stages| - 1].phase == Results && stages[|stages| - 1].next.None?
  }

  /** Stages in a row all lead to results. */
  lemma {:induction false} RowEnds(stages: seq<Stage>, i: nat)
    requires InARow(stages) && i < |stages|
    ensures LinkedAt(stages, i) && EndsInResults(stages, i)
    decreases |stages| - i
  {
    if i == |stages| - 1 {
      ResultsEnds(stages, i);
    } else {
      RowEnds(stages, i + 1);
      assert Follows(stages, i, i + 1);
      PathEnds(stages, [i, i + 1], 0);
    }
  }

  lemma RowIsShaped(raw: seq<RawStage>)
    requires RawRow(raw)
    ensures AllShaped(raw) <==> forall i :: 0 <= i < |raw| ==> Strip(raw[i].id.s) != ""
  {
    if (forall i :: 0 <= i < |raw| ==> Strip(raw[i].id.s) != "") {
      forall i | 0 <= i < |raw| ensures Shaped(raw[i]) {
        if i < |raw| - 1 { assert Strip(raw[i + 1].id.s) != ""; }
      }
    } else {
      var i :| 0 <= i < |raw| && Strip(raw[i].id.s) == "";
      assert !Shaped(raw[i]);
    }
  }

  lemma RowIsCleaned(raw: seq<RawStage>)
    requires RawRow(raw) && AllShaped(raw)
    ensures InARow(CleanAll(raw))
  {
    var stages := CleanAll(raw);
    forall i | 0 <= i < |stages| - 1 ensures stages[i].phase != Results && stages[i].next == Some(stages[i + 1].id) {
      assert stages[i] == Clean(raw[i]) && stages[i + 1] == Clean(raw[i + 1]);
    }
  }

  predicate DistinctNames(raw: seq<RawStage>)
    requires RawRow(raw)
  {
    forall i, j :: 0 <= i < j < |raw| ==> Strip(raw[i].id.s) != Strip(raw[j].id.s)
  }

  lemma NamesAreIds(raw: seq<RawStage>)
    requires RawRow(raw) && AllShaped(raw)
    ensures DistinctIds(CleanAll(raw)) <==> DistinctNames(raw)
  {
    var stages := CleanAll(raw);
    forall i | 0 <= i < |raw| ensures stages[i].id == StageId(Strip(raw[i].id.s)) {
      assert stages[i] == Clean(raw[i]);
    }
  }

  /** Such a row is accepted exactly when no id is blank and ids differ by more than the blanks around them. */
  lemma RowIsAccepted(raw: seq<RawStage>)
    requires RawRow(raw)
    ensures WellFormed(raw) <==> (forall i :: 0 <= i < |raw| ==> Strip(raw[i].id.s) != "") && DistinctNames(raw)
  {
    RowIsShaped(raw);
    if AllShaped(raw) {
      var stages := CleanAll(raw);
      RowIsCleaned(raw);
      NamesAreIds(raw);
      forall i | 0 <= i < |stages| ensures LinkedAt(stages, i) && EndsInResults(stages, i) { RowEnds(stages, i); }
    }
  }

  lemma AcceptedIsSound(raw: seq<RawStage>)
    requires |raw| > 0 && WellFormed(raw)
    ensures Sound(CleanAll(raw))
  {
  }

  /** No prepare stage on the walk chose a next stage other than its own. */
  ghost predicate Unredirected(stages: seq<Stage>, hook: Hook, visited: seq<nat>)
    requires forall k :: 0 <= k < |visited| ==> visited[k] < |stages|
  {
    forall k :: 0 < k <= |visited| ==> !RedirectsAt(stages, hook, visited, k)
  }

  lemma NextIsOwn(stages: seq<Stage>, hook: Hook, visited: seq<nat>, k: nat)
    requires IsWalk(stages, hook, visited) && Unredirected(stages, hook, visited) && 0 < k <= |visited|
    ensures NextOf(stages, hook, visited[..k]) == stages[visited[k - 1]].next
  {
    assert visited[..k][k - 1] == visited[k - 1];
    assert !RedirectsAt(stages, hook, visited, k);
  }

  lemma WalkIsPath(stages: seq<Stage>, hook: Hook, visited: seq<nat>)
    requires IsWalk(stages, hook, visited) && Unredirected(stages, hook, visited)
    ensures IsPath(stages, visited)
  {
    forall k | 0 <= k < |visited| - 1 ensures Follows(stages, visited[k], visited[k + 1]) {
      assert Selects(stages, hook, visited, k + 1);
      NextIsOwn(stages, hook, visited, k + 1);
    }
  }

  /** In an accepted pipeline no path leads back into itself. */
  lemma NoWayBack(stages: seq<Stage>, path: seq<nat>, k: nat)
    requires Sound(stages) && IsPath(stages, path) && k < |path|
    ensures !Follows(stages, path[|path| - 1], path[k])
  {
    if Follows(stages, path[|path| - 1], path[k]) {
      CycleTraps(stages, path, path[k]);
      TrappedNeverEnds(stages, path, path[k]);
    }
  }

  /** A walk along the pipeline's own successors that cannot go on has reached results. */
  lemma OwnPathFinishes(stages: seq<Stage>, hook: Hook, visited: seq<nat>, outcome: Outcome)
    requires Sound(stages) && IsWalk(stages, hook, visited) && EndsAs(stages, hook, visited, outcome)
    requires IsPath(stages, visited) && NextOf(stages, hook, visited) == stages[visited[|visited| - 1]].next
    ensures outcome == Finished
  {
    assert LinkedAt(stages, visited[|visited| - 1]);
    if outcome.Revisits? {
      var k :| 0 <= k < |visited| && stages[visited[k]].id == outcome.id;
      NoWayBack(stages, visited, k);
    }
  }

  /** Without redirects, the walk of an accepted pipeline is the chain from its first stage to results. */
  lemma UnredirectedWalk(stages: seq<Stage>, hook: Hook, visited: seq<nat>, outcome: Outcome)
    requires Sound(stages) && IsWalk(stages, hook, visited) && EndsAs(stages, hook, visited, outcome)
    requires Unredirected(stages, hook, visited)
    ensures outcome == Finished && IsChain(stages, visited)
  {
    WalkIsPath(stages, hook, visited);
    NextIsOwn(stages, hook, visited, |visited|);
    assert visited[..|visited|] == visited;
    OwnPathFinishes(stages, hook, visited, outcome);
  }

  /**
    The walk of an accepted pipeline that does not reach results was redirected: some prepare stage
    on it chose another next stage. A walk that stops short or meets an unknown stage does so at a
    prepare stage.
  */
  lemma RedirectedWalk(stages: seq<Stage>, hook: Hook, visited: seq<nat>, outcome: Outcome)
    requires Sound(stages) && IsWalk(stages, hook, visited) && EndsAs(stages, hook, visited, outcome)
    ensures !outcome.Finished? ==>
              exists k :: 0 < k <= |visited| && RedirectsAt(stages, hook, visited, k)
    ensures outcome.Finished? || outcome.Revisits? || stages[visited[|visited| - 1]].phase == Prepare
    ensures !outcome.BadPhase?
  {
    StopsAtPrepare(stages, hook, visited, outcome);
    if Unredirected(stages, hook, visited) { UnredirectedWalk(stages, hook, visited, outcome); }
  }

  lemma StopsAtPrepare(stages: seq<Stage>, hook: Hook, visited: seq<nat>, outcome: Outcome)
    requires Sound(stages) && IsWalk(stages, hook, visited) && EndsAs(stages, hook, visited, outcome)
    ensures outcome.Finished? || outcome.Revisits? || stages[visited[|visited| - 1]].phase == Prepare
    ensures !outcome.BadPhase?
  {
    assert LinkedAt(stages, visited[|visited| - 1]);
  }

  /** run_plugin from the raw stages: validation, then the walk of the accepted pipeline. */
  method RunPipeline(raw: seq<RawStage>, hook: Hook) returns (outcome: Option<Outcome>, visited: seq<nat>)
    ensures outcome.Some? <==> |raw| > 0 && WellFormed(raw)
    ensures outcome.Some? ==>
              && Sound(CleanAll(raw)) && IsWalk(CleanAll(raw), hook, visited)
              && |visited| <= |raw| && EndsAs(CleanAll(raw), hook, visited, outcome.value)
              && Obeys(CleanAll(raw), hook, visited, outcome.value)
    ensures outcome.Some? && Unredirected(CleanAll(raw), hook, visited) ==>
              outcome.value == Finished && IsChain(CleanAll(raw), visited)
  {
    if |raw| == 0 { return None, []; }
    var verdict;
    ghost var walked;
    verdict, walked := ValidatePipeline(raw);
    if verdict.Rejected? { return None, []; }
    AcceptedIsSound(raw);
    var byId := BuildIndex(verdict.stages);
    var end;
    end, visited := RunStages(verdict.stages, byId, hook);
    if Unredirected(verdict.stages, hook, visited) { UnredirectedWalk(verdict.stages, hook, visited, end); }
    return Some(end), visited;
  }
}
