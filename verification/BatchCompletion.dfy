/**
  A batch message from its items to its outputs (scripts/inference_worker.py): parsing, the run of the
  items by the batch coordinator, the batch status, what process_job persists, and the primary and
  release outputs of complete_job.
*/
module BatchCompletion {
  import opened PublishStage
  import opened Completion
  import Items = BatchItems
  import Executor = BatchExecutor
  import Safety = BatchSafety

  /** A run_id field: missing or empty, blank, or an id once stripped. */
  datatype RunText = Missing | Blank | Id(n: nat)

  /** output_publication: no such key, something that is not an object, or an object. */
  datatype Publication = NoKey | NotTarget | Target

  datatype ItemPayload = ItemPayload(runId: RunText, workflow: bool, context: Option<Context>, publication: Publication)

  /** An element of the items list; payload is None when it is not an object. */
  datatype RawItem = NotObject | RawItem(runId: RunText, payload: Option<ItemPayload>)

  /** The batch message; envPublishes says that the environment configures a publication target. */
  datatype Batch = Batch(runId: RunText, workflow: bool, context: Option<Context>, publication: Publication, envPublishes: bool)

  datatype ItemResult = ItemResult(status: Status, fanout: bool)

  datatype Item = Item(runId: nat, payload: ItemPayload)

  /** One element of batch_results. */
  datatype Entry = Entry(item: Item, result: ItemResult)

  /** How process_job ends for a batch; a fatal exception is raised again. */
  datatype Response = Completed(status: Status, entries: seq<Entry>) | Failure | Propagated

  /** What the preflight and the execution of item number i come to. */
  type Work = nat -> Items.Item<ItemResult>

  datatype Output =
    | Primary(runId: nat, destination: Destination, status: Status)
    | Release(runId: nat, status: Status)

  // ---------------------------------------------------------------------------------------
  // Parsing

  /** The first run id that is not missing. */
  function Pick(a: RunText, b: RunText): RunText {
    if a.Missing? then b else a
  }

  predicate GoodItem(raw: RawItem) {
    raw.RawItem? && raw.payload.Some? && Pick(raw.runId, raw.payload.value.runId).Id?
  }

  function ItemOf(raw: RawItem): Item
    requires GoodItem(raw)
  {
    Item(Pick(raw.runId, raw.payload.value.runId).n, raw.payload.value)
  }

  /** The item is an object with a payload and has run id n: its own, or that of its payload when it has none. */
  predicate Identifies(raw: RawItem, n: nat) {
    && raw.RawItem? && raw.payload.Some?
    && (raw.runId == Id(n) || (raw.runId.Missing? && raw.payload.value.runId == Id(n)))
  }

  lemma ItemHasRunId(raw: RawItem, n: nat)
    ensures Identifies(raw, n) <==> GoodItem(raw) && ItemOf(raw).runId == n
    ensures GoodItem(raw) ==> ItemOf(raw).payload == raw.payload.value
  {
  }

  predicate GoodItems(raws: seq<RawItem>) {
    |raws| > 0 && forall i :: 0 <= i < |raws| ==> GoodItem(raws[i])
  }

  /** The items of a batch, or None when the batch is refused. */
  method ParseItems(raws: seq<RawItem>) returns (items: Option<seq<Item>>)
    ensures items.Some? <==> GoodItems(raws)
    ensures items.Some? ==>
              |items.value| == |raws| && forall i :: 0 <= i < |raws| ==> items.value[i] == ItemOf(raws[i])
  {
    if |raws| == 0 { return None; }
    var parsed: seq<Item> := [];
    for i := 0 to |raws|
      invariant |parsed| == i
      invariant forall j :: 0 <= j < i ==> GoodItem(raws[j]) && parsed[j] == ItemOf(raws[j])
    {
      if raws[i].NotObject? || raws[i].payload.None? { return None; }
      var runId := Pick(raws[i].runId, raws[i].payload.value.runId);
      if !runId.Id? { return None; }
      parsed := parsed + [Item(runId.n, raws[i].payload.value)];
    }
    return Some(parsed);
  }

  // ---------------------------------------------------------------------------------------
  // Batch status

  function Severity(s: Status): nat {
    match s case Succeeded => 0 case Cancelled => 1 case Failed => 2
  }

  /** The join of the item statuses: one of them, at least as severe as all. */
  ghost predicate IsJoin(s: Status, entries: seq<Entry>) {
    && (exists i :: 0 <= i < |entries| && entries[i].result.status == s)
    && (forall i :: 0 <= i < |entries| ==> Severity(entries[i].result.status) <= Severity(s))
  }

  method BatchStatus(entries: seq<Entry>) returns (status: Status)
    ensures |entries| > 0 ==> IsJoin(status, entries)
    ensures |entries| == 0 ==> status == Failed
  {
    if |entries| == 0 { return Failed; }
    if exists i :: 0 <= i < |entries| && entries[i].result.status == Failed { return Failed; }
    if exists i :: 0 <= i < |entries| && entries[i].result.status == Cancelled { return Cancelled; }
    assert entries[0].result.status == Succeeded;
    return Succeeded;
  }

  /** Failed if an item failed, succeeded if all did, and otherwise cancelled. */
  ghost predicate Summarizes(s: Status, entries: seq<Entry>) {
    && (s == Failed <==> exists i :: 0 <= i < |entries| && entries[i].result.status == Failed)
    && (s == Succeeded <==> forall i :: 0 <= i < |entries| ==> entries[i].result.status == Succeeded)
  }

  lemma JoinSummarizes(s: Status, entries: seq<Entry>)
    requires |entries| > 0
    ensures IsJoin(s, entries) <==> Summarizes(s, entries)
  {
    if Summarizes(s, entries) {
      if s == Succeeded { assert entries[0].result.status == s; }
    }
  }

  lemma JoinIsUnique(a: Status, b: Status, entries: seq<Entry>)
    requires IsJoin(a, entries) && IsJoin(b, entries)
    ensures a == b
  {
  }

  // ---------------------------------------------------------------------------------------
  // The payload an item completes with

  /** _batch_item_completion_payload. */
  function CompletionPayload(batch: Batch, item: ItemPayload): Payload {
    var named := if item.publication.NoKey? then batch.publication else item.publication;
    var env := batch.envPublishes && (item.workflow || batch.workflow) && Pick(item.runId, batch.runId).Id?;
    var publication := named.Target? || env;
    var context := if batch.context.Some? then batch.context else item.context;
    Payload(
      item.workflow,
      if publication && context.Some? then Some(Insert(context.value)) else context,
      publication)
  }

  /**
    The outputs of the item are published: it names a target, or it says nothing and the batch names
    one, or the environment has one and the run is one of a workflow and has an id.
  */
  predicate Publishes(batch: Batch, item: ItemPayload) {
    || item.publication == Target
    || (item.publication == NoKey && batch.publication == Target)
    || (&& batch.envPublishes && (item.workflow || batch.workflow)
        && (item.runId.Id? || (item.runId.Missing? && batch.runId.Id?)))
  }

  /** The stage context an item completes in: that of the batch, or else its own. */
  predicate InContext(batch: Batch, item: ItemPayload, c: Context) {
    batch.context == Some(c) || (batch.context.None? && item.context == Some(c))
  }

  /**
    An item whose outputs are published goes to publish, whatever its status, when no stage up to the
    execute stage is named publish; any other item goes where its stage context leads.
  */
  lemma ItemGoesOn(batch: Batch, item: ItemPayload, c: Context, status: Status, d: Destination)
    requires item.workflow && InContext(batch, item, c) && GoesTo(CompletionPayload(batch, item), status, d)
    ensures CompletionPayload(batch, item).publication <==> Publishes(batch, item)
    ensures !Publishes(batch, item) ==> GoesTo(Payload(true, Some(c), false), status, d)
    ensures Publishes(batch, item) && Inserts(c.pipeline, c.current) && (c.phase.Some? ==> c.phase.value == Execute) ==>
              (ToPublish(d) <==> forall i :: 0 <= i <= Find(c.pipeline, c.current) ==> c.pipeline[i].id != PUBLISH)
  {
    var p := CompletionPayload(batch, item);
    RouteIsRight(p, status, d);
    if Publishes(batch, item) {
      if Inserts(c.pipeline, c.current) && (c.phase.Some? ==> c.phase.value == Execute) {
        InsertedRoutesToPublish(c, status, true);
      }
    }
  }

  /** An item that is not of a workflow, or has no stage context, goes to results. */
  lemma LooseItemGoesToResults(batch: Batch, item: ItemPayload, status: Status, d: Destination)
    requires !item.workflow || (batch.context.None? && item.context.None?)
    requires GoesTo(CompletionPayload(batch, item), status, d)
    ensures d == ToResults
  {
  }

  function ItemCompletion(batch: Batch, e: Entry): Payload {
    CompletionPayload(batch, e.item.payload)
  }

  predicate EntryOk(batch: Batch, e: Entry) {
    HandoffOk(ItemCompletion(batch, e), e.result.status, e.result.fanout)
  }

  /** Every fan-out handoff of the batch is valid. */
  predicate AllOk(batch: Batch, entries: seq<Entry>) {
    forall i :: 0 <= i < |entries| ==> EntryOk(batch, entries[i])
  }

  // ---------------------------------------------------------------------------------------
  // process_job

  /** What is persisted for the entries, in order. */
  function PersistAll(batch: Batch, entries: seq<Entry>): seq<Persisted> {
    if |entries| == 0 then []
    else
      var e := entries[|entries| - 1];
      var p := ItemCompletion(batch, e);
      PersistAll(batch, entries[..|entries| - 1]) +
      if Persists(p, e.result.status)
      then [Persisted(e.item.runId, e.result.status, MarksSkipped(p, e.result.status))] else []
  }

  /** The entries are persisted one after the other. */
  lemma {:induction false} PersistInOrder(batch: Batch, x: seq<Entry>, y: seq<Entry>)
    ensures PersistAll(batch, x + y) == PersistAll(batch, x) + PersistAll(batch, y)
    decreases |y|
  {
    if |y| == 0 {
      assert x + y == x;
    } else {
      var n := |y| - 1;
      assert (x + y)[..|x + y| - 1] == x + y[..n];
      PersistInOrder(batch, x, y[..n]);
    }
  }

  /** One entry is persisted unless an internal stage takes it over, and marked skipped when it failed short of its publication. */
  lemma PersistOne(batch: Batch, e: Entry, d: Destination)
    requires GoesTo(ItemCompletion(batch, e), e.result.status, d)
    ensures PersistAll(batch, [e]) ==
              if e.result.status == Succeeded && d.ToStage? && d.stage.phase in {Postprocess, PublishStage.Publish, Schedule} then []
              else [Persisted(e.item.runId, e.result.status,
                              e.result.status != Succeeded && Publishes(batch, e.item.payload) && !ToPublish(d))]
  {
    var p, status := ItemCompletion(batch, e), e.result.status;
    RouteIsRight(p, status, d);
    PersistsUnlessInternal(p, status, d);
    SkippedIffNotPublished(p, status);
    assert [e][..0] == [];
  }

  // ---------------------------------------------------------------------------------------
  // The coordinator's part

  /** handle_exception of _execute_plugin_batch_workflow: an ordinary exception becomes a failed result. */
  function FailedHandler(): Items.Handler<ItemResult> {
    Items.Some((item: Items.Item<ItemResult>, e: nat) => ItemResult(Failed, false))
  }

  function Tasks(work: Work, n: nat): (tasks: seq<Items.Item<ItemResult>>)
    ensures |tasks| == n && forall i :: 0 <= i < n ==> tasks[i] == work(i)
  {
    seq(n, i requires 0 <= i < n => work(i))
  }

  /** The item's preflight or execution raises a fatal exception. */
  predicate AnyFatal(work: Work, n: nat) {
    exists i :: 0 <= i < n && Items.RaisesFatal(work(i))
  }

  /** What an item comes to on its own when it raises no fatal exception: its result, or failure for an exception. */
  function ItemEnd(task: Items.Item<ItemResult>): ItemResult {
    match task.pre
    case Immediate(r) => r
    case RunItem => (match task.run case Value(r) => r case _ => ItemResult(Failed, false))
    case _ => ItemResult(Failed, false)
  }

  lemma ItemIsDecided(task: Items.Item<ItemResult>)
    requires !Items.RaisesFatal(task)
    ensures Items.Decided(task, FailedHandler()) == Items.Some(ItemEnd(task))
  {
  }

  /** The entries of a batch: every item with what it came to. */
  function EntriesOf(raws: seq<RawItem>, work: Work): (entries: seq<Entry>)
    requires GoodItems(raws)
    ensures |entries| == |raws|
    ensures forall i :: 0 <= i < |raws| ==> entries[i] == Entry(ItemOf(raws[i]), ItemEnd(work(i)))
  {
    seq(|raws|, i requires 0 <= i < |raws| => Entry(ItemOf(raws[i]), ItemEnd(work(i))))
  }

  /** An outcome the coordinator can have for these items: closed, or what its mode determines. */
  ghost predicate CoordinatorEnds(outcome: Items.Outcome<ItemResult>, work: Work, n: nat) {
    || outcome == Items.Closed
    || outcome == Items.SequentialOutcome(Tasks(work, n), FailedHandler())
    || outcome == Items.ParallelOutcome(Tasks(work, n), FailedHandler())
  }

  /** Either mode raises a fatal exception exactly when an item does, and otherwise returns one decision per item, in order. */
  lemma CoordinatorReturns(outcome: Items.Outcome<ItemResult>, work: Work, n: nat)
    requires CoordinatorEnds(outcome, work, n) && outcome != Items.Closed
    ensures outcome.RaisedFatal? <==> AnyFatal(work, n)
    ensures outcome.Returned? <==> !AnyFatal(work, n)
    ensures outcome.Returned? ==> |outcome.results| == n
    ensures outcome.Returned? ==>
              forall i :: 0 <= i < n ==> outcome.results[i] == ItemEnd(work(i))
  {
    var tasks := Tasks(work, n);
    Items.ModesRaiseAlike(tasks, FailedHandler());
    if AnyFatal(work, n) {
      var i :| 0 <= i < n && Items.RaisesFatal(work(i));
      assert Items.RaisesFatal(tasks[i]);
    } else {
      Items.ModesAgree(tasks, FailedHandler());
      forall i | 0 <= i < n ensures Items.Decided(tasks[i], FailedHandler()) == Items.Some(ItemEnd(work(i))) {
        ItemIsDecided(work(i));
      }
    }
  }

  /** Every schedule of the parallel coordinator gives a finished call one of these outcomes. */
  lemma ScheduleEnds(limit: nat, acts: seq<Executor.Action<ItemResult>>, c: Executor.CallId, work: Work, n: nat)
    requires Executor.IsRun(Executor.Init(limit), acts)
    requires var calls := Executor.After(Executor.Init(limit), acts).calls;
             c in calls && calls[c].stage.Finished? && calls[c].items == Tasks(work, n) && calls[c].handler == FailedHandler()
    ensures CoordinatorEnds(Executor.After(Executor.Init(limit), acts).calls[c].stage.outcome, work, n)
  {
    Safety.EveryScheduleAgrees(limit, acts, c);
  }

  // ---------------------------------------------------------------------------------------
  // process_job on a batch

  /** The batch runs to its own outputs: well-formed items, an open coordinator, no fatal exception, valid handoffs. */
  ghost predicate Proceeds(batch: Batch, raws: seq<RawItem>, closed: bool, work: Work) {
    && GoodItems(raws) && !closed && !AnyFatal(work, |raws|)
    && forall i :: 0 <= i < |raws| ==> !BadHandoff(batch, raws[i], work(i))
  }

  /** The item succeeds with fan-out items and does not go to a schedule stage. */
  ghost predicate BadHandoff(batch: Batch, raw: RawItem, task: Items.Item<ItemResult>)
    requires GoodItem(raw)
  {
    && ItemEnd(task) == ItemResult(Succeeded, true)
    && !exists s :: GoesTo(CompletionPayload(batch, ItemOf(raw).payload), Succeeded, ToStage(s)) && s.phase == Schedule
  }

  lemma HandoffIsChecked(batch: Batch, raw: RawItem, task: Items.Item<ItemResult>)
    requires GoodItem(raw)
    ensures EntryOk(batch, Entry(ItemOf(raw), ItemEnd(task))) <==> !BadHandoff(batch, raw, task)
  {
    var p, status := CompletionPayload(batch, ItemOf(raw).payload), ItemEnd(task).status;
    RouteIsRight(p, status, Route(p, status));
    HandoffNeedsSchedule(p, status, ItemEnd(task).fanout, Route(p, status));
    forall s ensures GoesTo(p, Succeeded, ToStage(s)) <==> ToStage(s) == Route(p, Succeeded) {
      RouteIsRight(p, Succeeded, ToStage(s));
    }
  }

  lemma HandoffsAreChecked(batch: Batch, raws: seq<RawItem>, work: Work)
    requires GoodItems(raws)
    ensures AllOk(batch, EntriesOf(raws, work)) <==> forall i :: 0 <= i < |raws| ==> !BadHandoff(batch, raws[i], work(i))
  {
    var entries := EntriesOf(raws, work);
    forall i | 0 <= i < |raws| ensures EntryOk(batch, entries[i]) <==> !BadHandoff(batch, raws[i], work(i)) {
      HandoffIsChecked(batch, raws[i], work(i));
    }
  }

  /** A fatal exception of an item leaves process_job. */
  predicate Escapes(raws: seq<RawItem>, closed: bool, work: Work) {
    GoodItems(raws) && !closed && AnyFatal(work, |raws|)
  }

  /** How process_job ends, and what it persists. */
  ghost predicate Responds(response: Response, persisted: seq<Persisted>, batch: Batch, raws: seq<RawItem>, closed: bool, work: Work) {
    && (response.Completed? <==> Proceeds(batch, raws, closed, work))
    && (response.Propagated? <==> Escapes(raws, closed, work))
    && (response.Completed? ==>
          && response.entries == EntriesOf(raws, work)
          && IsJoin(response.status, response.entries)
          && persisted == PersistAll(batch, response.entries))
    && (!response.Completed? ==> persisted == [])
  }

  /** Every handoff is checked before anything is persisted. */
  method CheckHandoffs(batch: Batch, entries: seq<Entry>) returns (ok: bool)
    ensures ok <==> AllOk(batch, entries)
  {
    for i := 0 to |entries|
      invariant forall j :: 0 <= j < i ==> EntryOk(batch, entries[j])
    {
      if !EntryOk(batch, entries[i]) { return false; }
    }
    return true;
  }

  /** What follows the coordinator in process_job, whichever mode it ran in. */
  method ProcessOutcome(batch: Batch, raws: seq<RawItem>, items: seq<Item>, outcome: Items.Outcome<ItemResult>, ghost work: Work)
    returns (response: Response, persisted: seq<Persisted>)
    requires GoodItems(raws) && |items| == |raws| && forall i :: 0 <= i < |raws| ==> items[i] == ItemOf(raws[i])
    requires CoordinatorEnds(outcome, work, |raws|)
    ensures Responds(response, persisted, batch, raws, outcome == Items.Closed, work)
  {
    if outcome != Items.Closed { CoordinatorReturns(outcome, work, |raws|); }
    if outcome.RaisedFatal? { return Propagated, []; }
    if !outcome.Returned? { return Failure, []; }
    var entries := Zip(items, outcome.results);
    assert entries == EntriesOf(raws, work);
    HandoffsAreChecked(batch, raws, work);
    var status := BatchStatus(entries);
    var ok := CheckHandoffs(batch, entries);
    if !ok { return Failure, []; }
    persisted := PersistEntries(batch, entries);
    return Completed(status, entries), persisted;
  }

  /** zip: as many pairs as the shorter list has elements. */
  method Zip(items: seq<Item>, results: seq<ItemResult>) returns (entries: seq<Entry>)
    ensures |entries| == if |items| <= |results| then |items| else |results|
    ensures forall i :: 0 <= i < |entries| ==> entries[i] == Entry(items[i], results[i])
  {
    entries := [];
    while |entries| < |items| && |entries| < |results|
      invariant |entries| <= |items| && |entries| <= |results|
      invariant forall i :: 0 <= i < |entries| ==> entries[i] == Entry(items[i], results[i])
    {
      entries := entries + [Entry(items[|entries|], results[|entries|])];
    }
  }

  /** process_job on a batch, the items run one by one. */
  method ProcessBatch(batch: Batch, raws: seq<RawItem>, closed: bool, work: Work)
    returns (response: Response, persisted: seq<Persisted>)
    ensures Responds(response, persisted, batch, raws, closed, work)
  {
    var items := ParseItems(raws);
    if items.None? { return Failure, []; }
    var outcome := Executor.ExecuteSequential(!closed, Tasks(work, |items.value|), FailedHandler());
    if !closed { CoordinatorIsOpen(outcome, work, |raws|); }
    response, persisted := ProcessOutcome(batch, raws, items.value, outcome, work);
  }

  lemma CoordinatorIsOpen(outcome: Items.Outcome<ItemResult>, work: Work, n: nat)
    requires outcome == Items.SequentialOutcome(Tasks(work, n), FailedHandler())
    ensures outcome != Items.Closed
  {
    Items.ModesRaiseAlike(Tasks(work, n), FailedHandler());
  }

  method PersistEntries(batch: Batch, entries: seq<Entry>) returns (persisted: seq<Persisted>)
    ensures persisted == PersistAll(batch, entries)
  {
    persisted := [];
    for i := 0 to |entries|
      invariant persisted == PersistAll(batch, entries[..i])
    {
      var e, p := entries[i], ItemCompletion(batch, entries[i]);
      assert entries[..i + 1][..i] == entries[..i];
      if Persists(p, e.result.status) {
        persisted := persisted + [Persisted(e.item.runId, e.result.status, MarksSkipped(p, e.result.status))];
      }
    }
    assert entries[..|entries|] == entries;
  }

  // ---------------------------------------------------------------------------------------
  // complete_job

  function PrimaryOf(batch: Batch, e: Entry): Output {
    Primary(e.item.runId, Route(ItemCompletion(batch, e), e.result.status), e.result.status)
  }

  /** The batch message as the payload of a single job. */
  function OwnPayload(batch: Batch): Payload {
    Payload(batch.workflow, batch.context, batch.publication.Target?)
  }

  function FailureOutputs(batch: Batch, jobId: nat): seq<Output> {
    [Primary(jobId, Route(OwnPayload(batch), Failed), Failed), Release(jobId, Failed)]
  }

  /** One primary per entry in order, then the release; none when process_job raised. */
  ghost predicate Sends(response: Response, outputs: seq<Output>, batch: Batch, jobId: nat) {
    match response
    case Completed(status, entries) =>
      && |outputs| == |entries| + 1
      && (forall i :: 0 <= i < |entries| ==> outputs[i] == PrimaryOf(batch, entries[i]))
      && outputs[|entries|] == Release(jobId, status)
    case Failure => outputs == FailureOutputs(batch, jobId)
    case Propagated => outputs == []
  }

  /** The outputs of a job with run id jobId. */
  method CompleteJob(batch: Batch, jobId: nat, response: Response) returns (outputs: seq<Output>)
    ensures Sends(response, outputs, batch, jobId)
    ensures response.Completed? ==>
              forall i :: 0 <= i < |response.entries| ==>
                && outputs[i].Primary? && outputs[i].runId == response.entries[i].item.runId
                && outputs[i].status == response.entries[i].result.status
                && GoesTo(ItemCompletion(batch, response.entries[i]), outputs[i].status, outputs[i].destination)
    ensures response.Failure? ==> FailsWhole(batch, jobId, outputs)
  {
    if response.Propagated? { return []; }
    if response.Failure? {
      RouteIsRight(OwnPayload(batch), Failed, Route(OwnPayload(batch), Failed));
      return FailureOutputs(batch, jobId);
    }
    outputs := [];
    for i := 0 to |response.entries|
      invariant |outputs| == i
      invariant forall j :: 0 <= j < i ==> outputs[j] == PrimaryOf(batch, response.entries[j])
    {
      outputs := outputs + [PrimaryOf(batch, response.entries[i])];
    }
    outputs := outputs + [Release(jobId, response.status)];
    forall i | 0 <= i < |response.entries|
      ensures GoesTo(ItemCompletion(batch, response.entries[i]), outputs[i].status, outputs[i].destination)
    {
      RouteIsRight(ItemCompletion(batch, response.entries[i]), outputs[i].status, outputs[i].destination);
    }
  }

  // ---------------------------------------------------------------------------------------
  // From message to outputs

  /** n primary outputs with the item run ids in input order, and one release. */
  ghost predicate Conserved(raws: seq<RawItem>, outputs: seq<Output>)
    requires GoodItems(raws)
  {
    && |outputs| == |raws| + 1
    && (forall i :: 0 <= i < |raws| ==> outputs[i].Primary? && outputs[i].runId == ItemOf(raws[i]).runId)
    && outputs[|raws|].Release?
  }

  /** The output of one item: its run id, its own status, and the stage its run goes to. */
  ghost predicate ItemOutput(batch: Batch, raw: RawItem, task: Items.Item<ItemResult>, out: Output)
    requires GoodItem(raw)
  {
    && out.Primary? && Identifies(raw, out.runId)
    && out.status == ItemEnd(task).status
    && GoesTo(CompletionPayload(batch, ItemOf(raw).payload), out.status, out.destination)
  }

  /** The outputs of a batch that failed as a whole. */
  ghost predicate FailsWhole(batch: Batch, jobId: nat, outputs: seq<Output>) {
    && |outputs| == 2
    && outputs[0].Primary? && outputs[0].runId == jobId && outputs[0].status == Failed
    && GoesTo(Payload(batch.workflow, batch.context, batch.publication == Target), Failed, outputs[0].destination)
    && outputs[1] == Release(jobId, Failed)
  }

  /** What a batch message emits and persists, for every way its items can end. */
  ghost predicate Emits(outputs: seq<Output>, persisted: seq<Persisted>, batch: Batch, jobId: nat, raws: seq<RawItem>, closed: bool, work: Work) {
    if Proceeds(batch, raws, closed, work) then
      && |outputs| == |raws| + 1
      && (forall i :: 0 <= i < |raws| ==> ItemOutput(batch, raws[i], work(i), outputs[i]))
      && outputs[|raws|].Release? && outputs[|raws|].runId == jobId
      && Summarizes(outputs[|raws|].status, EntriesOf(raws, work))
      && persisted == PersistAll(batch, EntriesOf(raws, work))
    else if Escapes(raws, closed, work) then
      outputs == [] && persisted == []
    else
      FailsWhole(batch, jobId, outputs) && persisted == []
  }

  lemma PrimaryIsItemOutput(batch: Batch, raw: RawItem, task: Items.Item<ItemResult>)
    requires GoodItem(raw)
    ensures ItemOutput(batch, raw, task, PrimaryOf(batch, Entry(ItemOf(raw), ItemEnd(task))))
  {
    var out := PrimaryOf(batch, Entry(ItemOf(raw), ItemEnd(task)));
    ItemHasRunId(raw, out.runId);
    RouteIsRight(CompletionPayload(batch, ItemOf(raw).payload), out.status, out.destination);
  }

  /** The outputs of complete_job are those the batch is to emit. */
  lemma ResponseEmits(response: Response, persisted: seq<Persisted>, outputs: seq<Output>, batch: Batch, jobId: nat,
                      raws: seq<RawItem>, closed: bool, work: Work)
    requires Responds(response, persisted, batch, raws, closed, work) && Sends(response, outputs, batch, jobId)
    ensures Emits(outputs, persisted, batch, jobId, raws, closed, work)
  {
    if response.Completed? {
      forall i | 0 <= i < |raws| ensures ItemOutput(batch, raws[i], work(i), outputs[i]) {
        PrimaryIsItemOutput(batch, raws[i], work(i));
      }
      JoinSummarizes(response.status, response.entries);
    } else if response.Failure? {
      RouteIsRight(OwnPayload(batch), Failed, outputs[0].destination);
    }
  }

  /**
    A well-formed batch keeps its items: the coordinator is open, no item raises a fatal exception and
    every handoff is valid, or it is a failing batch of one item that is named like the job.
  */
  ghost predicate KeepsItems(batch: Batch, jobId: nat, raws: seq<RawItem>, closed: bool, work: Work)
    requires GoodItems(raws)
  {
    || Proceeds(batch, raws, closed, work)
    || (!Escapes(raws, closed, work) && |raws| == 1 && ItemOf(raws[0]).runId == jobId)
  }

  /** The last output, and no other, is a release. */
  predicate OneRelease(outputs: seq<Output>) {
    forall i :: 0 <= i < |outputs| ==> (outputs[i].Release? <==> i == |outputs| - 1)
  }

  /** What the outputs of a batch hold, in every case. */
  lemma BatchIsConserved(outputs: seq<Output>, persisted: seq<Persisted>, batch: Batch, jobId: nat, raws: seq<RawItem>,
                         closed: bool, work: Work)
    requires Emits(outputs, persisted, batch, jobId, raws, closed, work)
    ensures GoodItems(raws) ==> (Conserved(raws, outputs) <==> KeepsItems(batch, jobId, raws, closed, work))
    ensures outputs == [] <==> Escapes(raws, closed, work)
    ensures outputs != [] ==> OneRelease(outputs)
  {
    if Proceeds(batch, raws, closed, work) {
      forall i | 0 <= i < |raws| ensures outputs[i].Primary? && outputs[i].runId == ItemOf(raws[i]).runId {
        assert ItemOutput(batch, raws[i], work(i), outputs[i]);
        ItemHasRunId(raws[i], outputs[i].runId);
      }
    }
  }

  /** A batch message, executed one by one and completed. */
  method RunBatch(batch: Batch, jobId: nat, raws: seq<RawItem>, closed: bool, work: Work)
    returns (outputs: seq<Output>, persisted: seq<Persisted>)
    ensures Emits(outputs, persisted, batch, jobId, raws, closed, work)
    ensures GoodItems(raws) ==> (Conserved(raws, outputs) <==> KeepsItems(batch, jobId, raws, closed, work))
    ensures outputs == [] <==> Escapes(raws, closed, work)
    ensures outputs != [] ==> OneRelease(outputs)
  {
    var response;
    response, persisted := ProcessBatch(batch, raws, closed, work);
    outputs := CompleteJob(batch, jobId, response);
    ResponseEmits(response, persisted, outputs, batch, jobId, raws, closed, work);
    BatchIsConserved(outputs, persisted, batch, jobId, raws, closed, work);
  }

  /** Call c of the coordinator, made for n items of the batch, finished with this outcome after some schedule. */
  ghost predicate EndsCall(outcome: Items.Outcome<ItemResult>, work: Work, n: nat,
                           limit: nat, acts: seq<Executor.Action<ItemResult>>, c: Executor.CallId)
  {
    && Executor.IsRun(Executor.Init(limit), acts)
    && var calls := Executor.After(Executor.Init(limit), acts).calls;
    && c in calls && calls[c].stage == Executor.Finished(outcome)
    && calls[c].items == Tasks(work, n) && calls[c].handler == FailedHandler()
  }

  /** A batch message whose items ran in parallel, under any schedule; for malformed items the coordinator is not called. */
  method RunParallelBatch(batch: Batch, jobId: nat, raws: seq<RawItem>, outcome: Items.Outcome<ItemResult>, ghost work: Work,
                          ghost limit: nat, ghost acts: seq<Executor.Action<ItemResult>>, ghost c: Executor.CallId)
    returns (outputs: seq<Output>, persisted: seq<Persisted>)
    requires GoodItems(raws) ==> EndsCall(outcome, work, |raws|, limit, acts, c)
    ensures Emits(outputs, persisted, batch, jobId, raws, outcome == Items.Closed, work)
    ensures GoodItems(raws) ==>
              (Conserved(raws, outputs) <==> KeepsItems(batch, jobId, raws, outcome == Items.Closed, work))
    ensures outputs == [] <==> Escapes(raws, outcome == Items.Closed, work)
    ensures outputs != [] ==> OneRelease(outputs)
  {
    var items := ParseItems(raws);
    var response := Failure;
    persisted := [];
    if items.Some? {
      ScheduleEnds(limit, acts, c, work, |raws|);
      response, persisted := ProcessOutcome(batch, raws, items.value, outcome, work);
    }
    outputs := CompleteJob(batch, jobId, response);
    ResponseEmits(response, persisted, outputs, batch, jobId, raws, outcome == Items.Closed, work);
    BatchIsConserved(outputs, persisted, batch, jobId, raws, outcome == Items.Closed, work);
  }

  /** An item that did not succeed and has a publication target is persisted, marked skipped exactly when its own output does not go to publish. */
  lemma {:induction false} ItemMarks(batch: Batch, entries: seq<Entry>, i: nat)
    requires i < |entries| && entries[i].result.status != Succeeded && ItemCompletion(batch, entries[i]).publication
    ensures Persisted(entries[i].item.runId, entries[i].result.status, !ToPublish(PrimaryOf(batch, entries[i]).destination))
            in PersistAll(batch, entries)
  {
    if i < |entries| - 1 {
      ItemMarks(batch, entries[..|entries| - 1], i);
    } else {
      SkippedIffNotPublished(ItemCompletion(batch, entries[i]), entries[i].result.status);
    }
  }

  /** One item that asks for fan-out and does not go to a schedule stage replaces the outputs of the whole batch by one failure. */
  lemma OneBadHandoffFailsAll(outputs: seq<Output>, persisted: seq<Persisted>, batch: Batch, jobId: nat, raws: seq<RawItem>,
                              work: Work, i: nat)
    requires GoodItems(raws) && Emits(outputs, persisted, batch, jobId, raws, false, work)
    requires !AnyFatal(work, |raws|) && i < |raws| && BadHandoff(batch, raws[i], work(i))
    ensures FailsWhole(batch, jobId, outputs) && persisted == []
    ensures |raws| > 1 ==> !Conserved(raws, outputs)
  {
  }
}
