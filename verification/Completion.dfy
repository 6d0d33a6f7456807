/**
  Routing of a completed execute step (scripts/inference_worker.py): where its primary output goes,
  whether its status is persisted, and whether its publication is marked as skipped.
*/
module Completion {
  import opened PublishStage

  datatype Status = Succeeded | Failed | Cancelled

  /** stage_context; phase is None when current_phase is not a string. */
  datatype Context = Context(pipeline: seq<Stage>, current: StageId, phase: Option<Phase>)

  /** The parts of a job payload that routing reads: a workflow id, a stage context, an output_publication object. */
  datatype Payload = Payload(workflow: bool, context: Option<Context>, publication: bool)

  datatype Destination = ToStage(stage: Stage) | ToResults

  /** _next_plugin_stage. */
  function NextStage(p: Payload): Option<Stage> {
    if !p.workflow || p.context.None? then None
    else
      var c := p.context.value;
      if !Has(c.pipeline, c.current) then None
      else if c.phase.Some? && Get(c.pipeline, c.current).phase != c.phase.value then None
      else if Next(c.pipeline, c.current).None? then None
      else Some(Get(c.pipeline, Next(c.pipeline, c.current).value))
  }

  predicate NextPhaseIs(p: Payload, phase: Phase) {
    NextStage(p).Some? && NextStage(p).value.phase == phase
  }

  /** The destination chosen by _build_primary_completion. */
  function Route(p: Payload, status: Status): Destination {
    if NextStage(p).Some?
       && (status == Succeeded || NextPhaseIs(p, Collect) || NextPhaseIs(p, Publish))
       && !NextPhaseIs(p, Results)
    then ToStage(NextStage(p).value) else ToResults
  }

  predicate ToPublish(d: Destination) {
    d.ToStage? && d.stage.phase == Publish
  }

  /** _should_persist_run_status_after_execute. */
  predicate Persists(p: Payload, status: Status) {
    || status != Succeeded
    || NextStage(p).None?
    || NextStage(p).value.phase !in {Postprocess, Publish, Schedule}
  }

  /** _should_mark_publication_skipped_after_execute_failure. */
  predicate MarksSkipped(p: Payload, status: Status) {
    status != Succeeded && p.publication && !NextPhaseIs(p, Publish)
  }

  /** _validate_fanout_handoff does not raise. */
  predicate HandoffOk(p: Payload, status: Status, fanout: bool) {
    status == Succeeded && fanout ==> NextPhaseIs(p, Schedule)
  }

  // ---------------------------------------------------------------------------------------
  // Where a run goes

  /** The id names the stage at position i: it is the first one of that id. */
  predicate Names(pipeline: seq<Stage>, id: StageId, i: nat) {
    i < |pipeline| && pipeline[i].id == id && forall j :: 0 <= j < i ==> pipeline[j].id != id
  }

  /** The current stage is at i, of the phase the context claims, and its successor is at j. */
  predicate Continues(c: Context, i: nat, j: nat) {
    && Names(c.pipeline, c.current, i)
    && (c.phase.Some? ==> c.pipeline[i].phase == c.phase.value)
    && c.pipeline[i].next.Some?
    && Names(c.pipeline, c.pipeline[i].next.value, j)
  }

  /** A successor that takes over a run of this status: any but results after success, and only collect or publish otherwise. */
  predicate TakesOver(next: Stage, status: Status) {
    match next.phase
    case Results => false
    case Collect => true
    case Publish => true
    case _ => status == Succeeded
  }

  /** Where a run of this status goes: to the successor of its stage if that takes it over, and to results otherwise. */
  ghost predicate GoesTo(p: Payload, status: Status, d: Destination) {
    if p.workflow && p.context.Some? && exists i: nat, j: nat :: Continues(p.context.value, i, j) then
      forall i: nat, j: nat :: Continues(p.context.value, i, j) ==>
        var next := p.context.value.pipeline[j];
        d == if TakesOver(next, status) then ToStage(next) else ToResults
    else d == ToResults
  }

  lemma NamesIsFind(pipeline: seq<Stage>, id: StageId, i: nat)
    ensures Names(pipeline, id, i) <==> Has(pipeline, id) && i == Find(pipeline, id)
  {
  }

  lemma ContinuesIsNext(p: Payload, i: nat, j: nat)
    requires p.workflow && p.context.Some? && Continues(p.context.value, i, j)
    ensures NextStage(p) == Some(p.context.value.pipeline[j])
  {
    var c := p.context.value;
    NamesIsFind(c.pipeline, c.current, i);
    NamesIsFind(c.pipeline, c.pipeline[i].next.value, j);
  }

  lemma NextContinues(p: Payload) returns (i: nat, j: nat)
    requires NextStage(p).Some?
    ensures Continues(p.context.value, i, j) && NextStage(p) == Some(p.context.value.pipeline[j])
  {
    var c := p.context.value;
    i := Find(c.pipeline, c.current);
    j := Find(c.pipeline, c.pipeline[i].next.value);
    NamesIsFind(c.pipeline, c.current, i);
    NamesIsFind(c.pipeline, c.pipeline[i].next.value, j);
  }

  /** The destination is exactly the one a run goes to, for every payload and status. */
  lemma RouteIsRight(p: Payload, status: Status, d: Destination)
    ensures GoesTo(p, status, d) <==> d == Route(p, status)
  {
    if NextStage(p).Some? {
      var i, j := NextContinues(p);
      forall i': nat, j': nat | Continues(p.context.value, i', j') ensures Some(p.context.value.pipeline[j']) == NextStage(p) {
        ContinuesIsNext(p, i', j');
      }
    } else if p.workflow && p.context.Some? {
      forall i: nat, j: nat ensures !Continues(p.context.value, i, j) {
        if Continues(p.context.value, i, j) { ContinuesIsNext(p, i, j); }
      }
    }
  }

  /** Along the chain of its pipeline, a run goes to the next stage if that takes it over, and to results otherwise. */
  lemma RouteFollowsChain(c: Context, publication: bool, status: Status, chain: seq<StageId>)
    requires IsChain(c.pipeline, chain) && chain[0] == c.current
    requires c.phase.Some? ==> Get(c.pipeline, c.current).phase == c.phase.value
    ensures |chain| > 1 ==> Has(c.pipeline, chain[1])
    ensures Route(Payload(true, Some(c), publication), status) ==
              if |chain| > 1 && TakesOver(Get(c.pipeline, chain[1]), status) then ToStage(Get(c.pipeline, chain[1]))
              else ToResults
  {
    if |chain| > 1 { assert Next(c.pipeline, chain[0]) == Some(chain[0 + 1]); }
  }

  /** The worker writes the status unless a postprocess, publish or schedule stage takes over a succeeded run. */
  lemma PersistsUnlessInternal(p: Payload, status: Status, d: Destination)
    requires GoesTo(p, status, d)
    ensures Persists(p, status) <==> !(status == Succeeded && d.ToStage? && d.stage.phase in {Postprocess, Publish, Schedule})
  {
    RouteIsRight(p, status, d);
  }

  /** The handoff is refused exactly for a succeeded run with fan-out items that does not go to a schedule stage. */
  lemma HandoffNeedsSchedule(p: Payload, status: Status, fanout: bool, d: Destination)
    requires GoesTo(p, status, d)
    ensures HandoffOk(p, status, fanout) <==> !(status == Succeeded && fanout) || (d.ToStage? && d.stage.phase == Schedule)
  {
    RouteIsRight(p, status, d);
  }

  // ---------------------------------------------------------------------------------------
  // A single job

  /** What is written for a run: its status, and the skipped mark. */
  datatype Persisted = Persisted(runId: nat, status: Status, skipped: bool)

  /** What executing a job came to: a result, or an exception in the worker. */
  datatype Execution = Result(status: Status, fanout: bool) | Raised

  /** process_job raises into its handler. */
  predicate Collapses(p: Payload, e: Execution) {
    e.Raised? || !HandoffOk(p, e.status, e.fanout)
  }

  /** The status process_job reports. */
  function Reported(p: Payload, e: Execution): Status {
    if Collapses(p, e) then Failed else e.status
  }

  /** What process_job persists for the run of a single job. */
  function PersistedFor(runId: nat, p: Payload, e: Execution): Option<Persisted> {
    if Collapses(p, e) || !Persists(p, e.status) then None
    else Some(Persisted(runId, e.status, MarksSkipped(p, e.status)))
  }

  /** A failed or cancelled result is persisted, and marked skipped exactly when it has a publication target and is not routed to publish. */
  lemma SkippedIffNotPublished(p: Payload, status: Status)
    ensures status != Succeeded ==> Persists(p, status)
    ensures MarksSkipped(p, status) <==> status != Succeeded && p.publication && !ToPublish(Route(p, status))
  {
  }

  /** Executing the job raised, or it asks for fan-out and does not go to a schedule stage. */
  ghost predicate Breaks(p: Payload, e: Execution) {
    || e.Raised?
    || (e.status == Succeeded && e.fanout && !exists s :: GoesTo(p, Succeeded, ToStage(s)) && s.phase == Schedule)
  }

  /**
    A single job from its execution to its output: a broken one reports failure and is not persisted;
    any other reports its own status, which is persisted unless an internal stage takes it over.
  */
  lemma JobEnds(runId: nat, p: Payload, e: Execution, d: Destination)
    requires GoesTo(p, Reported(p, e), d)
    ensures Breaks(p, e) ==> Reported(p, e) == Failed && PersistedFor(runId, p, e) == None
    ensures !Breaks(p, e) ==>
              && Reported(p, e) == e.status
              && PersistedFor(runId, p, e) ==
                 if e.status == Succeeded && d.ToStage? && d.stage.phase in {Postprocess, Publish, Schedule} then None
                 else Some(Persisted(runId, e.status, e.status != Succeeded && p.publication && !ToPublish(d)))
  {
    RouteIsRight(p, Reported(p, e), d);
    if e.Result? {
      var own := Route(p, e.status);
      RouteIsRight(p, e.status, own);
      HandoffNeedsSchedule(p, e.status, e.fanout, own);
      PersistsUnlessInternal(p, e.status, own);
      SkippedIffNotPublished(p, e.status);
      forall s ensures GoesTo(p, Succeeded, ToStage(s)) <==> ToStage(s) == Route(p, Succeeded) {
        RouteIsRight(p, Succeeded, ToStage(s));
      }
    }
  }

  ghost predicate MarkedSkipped(runId: nat, p: Payload, e: Execution) {
    PersistedFor(runId, p, e).Some? && PersistedFor(runId, p, e).value.skipped
  }

  /**
    For a whole job with a publication target that does not report success, the mark agrees with the
    routing exactly when the worker's exception handler was not entered or the job goes to publish.
  */
  lemma MarkAgreesIff(runId: nat, p: Payload, e: Execution)
    requires p.publication && Reported(p, e) != Succeeded
    ensures (MarkedSkipped(runId, p, e) <==> !ToPublish(Route(p, Reported(p, e)))) <==>
            !Collapses(p, e) || NextPhaseIs(p, Publish)
  {
    SkippedIffNotPublished(p, Reported(p, e));
  }

  /** Fan-out items in front of a results stage: the run fails, goes to results, and is not marked. */
  lemma CollapseIsUnmarked(runId: nat, execute: StageId, results: StageId) returns (p: Payload)
    requires execute != results
    ensures p.publication && !MarkedSkipped(runId, p, Result(Succeeded, true))
    ensures Reported(p, Result(Succeeded, true)) == Failed && Route(p, Failed) == ToResults
  {
    var pipeline := [Stage(execute, Execute, Some(results)), Stage(results, Results, None)];
    p := Payload(true, Some(Context(pipeline, execute, Some(Execute))), true);
    FindUnique(pipeline, 0);
    FindUnique(pipeline, 1);
  }

  // ---------------------------------------------------------------------------------------
  // With the publish stage inserted

  function Insert(c: Context): Context {
    c.(pipeline := WithPublish(c.pipeline, c.current))
  }

  /** With the stage inserted, every outcome goes to publish exactly when no stage up to execute was named publish. */
  lemma InsertedRoutesToPublish(c: Context, status: Status, publication: bool)
    requires Inserts(c.pipeline, c.current) && (c.phase.Some? ==> c.phase.value == Execute)
    ensures var p := Payload(true, Some(Insert(c)), publication);
            ToPublish(Route(p, status)) <==>
            forall i :: 0 <= i <= Find(c.pipeline, c.current) ==> c.pipeline[i].id.text != "publish"
  {
    LeadsToPublish(c.pipeline, c.current);
    CurrentLeadsToName(c.pipeline, c.current);
    var p := Payload(true, Some(Insert(c)), publication);
    assert NextStage(p) == Some(Get(Insert(c).pipeline, PUBLISH));
  }

  /** After the insertion the execute stage is still found under its id, and its successor is called publish. */
  lemma CurrentLeadsToName(pipeline: seq<Stage>, current: StageId)
    requires Inserts(pipeline, current)
    ensures var q := WithPublish(pipeline, current);
            Has(q, current) && Get(q, current).phase == Execute && Has(q, PUBLISH) && Next(q, current) == Some(PUBLISH)
  {
    var k, q := Find(pipeline, current), WithPublish(pipeline, current);
    InsertedIndex(pipeline, current, k);
    InsertedIndex(pipeline, current, k + 1);
    forall i | 0 <= i < k ensures q[i].id != current {
      InsertedIndex(pipeline, current, i);
      NotBefore(pipeline, current, i);
    }
    FindIs(q, current, k);
    FindAtMost(q, PUBLISH, k + 1);
  }
}
