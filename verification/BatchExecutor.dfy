/**
  BatchExecutionCoordinator with an executor: any number of concurrent execute and close calls, a
  lifecycle lock, a FIFO task queue and at most `limit` running tasks. The machine makes one step
  per lock operation, per preflight, per task start or end and per collected future.
*/
module BatchExecutor {
  import opened BatchItems

  /** The result, the exception handler or the held exception of item k, once it ended with `end`. */
  method Record<R>(items: seq<Item<R>>, k: nat, handler: Handler<R>, end: Execution<R>, results: array<Option<R>>,
                   fatal: Option<nat>, error: Option<nat>) returns (fatal': Option<nat>, error': Option<nat>)
    requires k < |items| == results.Length
    modifies results
    ensures forall j :: 0 <= j < |items| && j != k ==> results[j] == old(results[j])
    ensures results[k] == match end case Value(r) => Some(r)
                                    case Error(e) => if handler.Some? then Some(handler.value(items[k], e)) else old(results[k])
                                    case Fatal(_) => old(results[k])
    ensures fatal' == if end.Fatal? then OrElse(fatal, Some(k)) else fatal
    ensures error' == if end.Error? && handler.None? then OrElse(error, Some(k)) else error
  {
    fatal', error' := fatal, error;
    match end {
      case Value(r) => results[k] := Some(r);
      case Error(e) =>
        if handler.None? {
          error' := OrElse(error, Some(k));
        } else {
          results[k] := Some(handler.value(items[k], e));
        }
      case Fatal(_) => fatal' := OrElse(fatal, Some(k));
    }
  }

  /** The loop of execute with no executor: items run in the caller's thread, in order. */
  method RunInOrder<R>(items: seq<Item<R>>, handler: Handler<R>, results: array<Option<R>>)
    returns (fatal: Option<nat>, error: Option<nat>)
    requires results.Length == |items| && forall j :: 0 <= j < |items| ==> results[j] == None
    modifies results
    ensures forall j :: 0 <= j < |items| ==> results[j] == Decided(items[j], handler)
    ensures fatal == First(items, RaisesFatal, |items|)
    ensures error == Kept(handler, First(items, RaisesError, |items|))
  {
    fatal, error := None, None;
    for k := 0 to |items|
      invariant forall j :: 0 <= j < k ==> results[j] == Decided(items[j], handler)
      invariant forall j :: k <= j < |items| ==> results[j] == None
      invariant fatal == First(items, RaisesFatal, k)
      invariant error == Kept(handler, First(items, RaisesError, k))
    {
      match items[k].pre {
        case Immediate(r) => fatal, error := Record(items, k, handler, Value(r), results, fatal, error);
        case PreError(e) => fatal, error := Record(items, k, handler, Error(e), results, fatal, error);
        case PreFatal(f) => fatal, error := Record(items, k, handler, Fatal(f), results, fatal, error);
        case RunItem => fatal, error := Record(items, k, handler, items[k].run, results, fatal, error);
      }
    }
  }

  /** execute with no executor. */
  method ExecuteSequential<R>(accepting: bool, items: seq<Item<R>>, handler: Handler<R>) returns (out: Outcome<R>)
    ensures items == [] ==> out == Returned([])
    ensures items != [] && !accepting ==> out == Closed
    ensures items != [] && accepting ==> out == SequentialOutcome(items, handler)
  {
    if items == [] {
      return Returned([]);
    }
    if !accepting {
      return Closed;
    }
    var results := new Option<R>[|items|](_ => None);
    var fatal, error := RunInOrder(items, handler, results);
    DecidedUnlessRaises(items, handler);
    FirstIsFirst(items, RaisesFatal, |items|);
    FirstIsFirst(items, RaisesError, |items|);
    if fatal.Some? {
      return RaisedFatal(FatalOf(items[fatal.value]));
    }
    if error.Some? {
      return RaisedError(ErrorOf(items[error.value]));
    }
    out := Returned(seq(|items|, k requires 0 <= k < |items| && results[k].Some? reads results => results[k].value));
    assert out == Returned(Results(items, handler));
  }

  // ---------------------------------------------------------------------------------------
  // The parallel machine

  type CallId = nat
  datatype Task = Task(call: CallId, index: nat)

  datatype Stage<+R> =
    | Waiting
    | Submitting(next: nat)
    | Collecting(next: nat)
    | Finished(outcome: Outcome<R>)

  /** One execute call and its local variables. */
  datatype Call<!R> = Call(items: seq<Item<R>>, handler: Handler<R>, stage: Stage<R>,
                           results: seq<Option<R>>, submitted: seq<nat>, fatal: Option<nat>, error: Option<nat>)

  /** One close call. */
  datatype Closer = Requested | Draining | ReturnedEarly | Drained

  /** The thread pool: queued, running and finished tasks. */
  datatype Pool = Pool(limit: nat, queue: seq<Task>, running: set<Task>, done: set<Task>)

  datatype State<!R> = State(accepting: bool, lock: Option<CallId>, pool: Pool,
                             calls: map<CallId, Call<R>>, closers: map<nat, Closer>)

  datatype Action<!R> =
    | Invoke(c: CallId, items: seq<Item<R>>, handler: Handler<R>)
    | Acquire(c: CallId)
    | Preflight(c: CallId)
    | Release(c: CallId)
    | StartTask
    | FinishTask(t: Task)
    | Collect(c: CallId)
    | Conclusion(c: CallId)
    | Close(k: nat)
    | CloseLocked(k: nat)
    | CloseJoined(k: nat)

  function Init<R>(limit: nat): State<R> {
    State(true, None, Pool(limit, [], {}, {}), map[], map[])
  }

  predicate Enabled<R(!new)>(s: State<R>, a: Action<R>) {
    match a
    case Invoke(c, _, _) => c !in s.calls
    case Acquire(c) => c in s.calls && s.calls[c].stage.Waiting? && s.lock.None?
    case Preflight(c) => c in s.calls && s.calls[c].stage.Submitting? && s.calls[c].stage.next < |s.calls[c].items|
    case Release(c) => c in s.calls && s.calls[c].stage.Submitting? && s.calls[c].stage.next == |s.calls[c].items|
    case StartTask => s.pool.queue != [] && |s.pool.running| < s.pool.limit
    case FinishTask(t) => t in s.pool.running
    case Collect(c) => c in s.calls && s.calls[c].stage.Collecting? && s.calls[c].stage.next < |s.calls[c].submitted|
                       && Task(c, s.calls[c].submitted[s.calls[c].stage.next]) in s.pool.done
    case Conclusion(c) => c in s.calls && s.calls[c].stage.Collecting? && s.calls[c].stage.next == |s.calls[c].submitted|
    case Close(k) => k !in s.closers
    case CloseLocked(k) => k in s.closers && s.closers[k].Requested? && s.lock.None?
    case CloseJoined(k) => k in s.closers && s.closers[k].Draining? && s.pool.queue == [] && s.pool.running == {}
  }

  /** Recording a failed or finished item in the call's local variables. */
  function WithResult<R>(call: Call<R>, k: nat, r: R): Call<R> {
    if k < |call.results| then call.(results := call.results[k := Some(r)]) else call
  }

  function WithError<R>(call: Call<R>, k: nat, e: nat): Call<R>
    requires k < |call.items|
  {
    if call.handler.None? then call.(error := OrElse(call.error, Some(k)))
    else WithResult(call, k, call.handler.value(call.items[k], e))
  }

  function WithFatal<R>(call: Call<R>, k: nat): Call<R> {
    call.(fatal := OrElse(call.fatal, Some(k)))
  }

  /** The body of the submission loop for item k. */
  function AfterPreflight<R>(call: Call<R>, k: nat): Call<R>
    requires k < |call.items|
  {
    match call.items[k].pre
    case Immediate(r) => WithResult(call, k, r)
    case PreError(e) => WithError(call, k, e)
    case PreFatal(_) => WithFatal(call, k)
    case RunItem => call.(submitted := call.submitted + [k])
  }

  /** The body of the collection loop for item k, whose future is done. */
  function AfterCollect<R>(call: Call<R>, k: nat): Call<R>
    requires k < |call.items|
  {
    match call.items[k].run
    case Value(r) => WithResult(call, k, r)
    case Error(e) => WithError(call, k, e)
    case Fatal(_) => WithFatal(call, k)
  }

  /** The end of execute: the held fatal, then the held error, then the results. */
  function OutcomeOf<R>(call: Call<R>): Outcome<R> {
    if call.fatal.Some? && call.fatal.value < |call.items| && RaisesFatal(call.items[call.fatal.value]) then
      RaisedFatal(FatalOf(call.items[call.fatal.value]))
    else if call.error.Some? && call.error.value < |call.items| && RaisesError(call.items[call.error.value]) then
      RaisedError(ErrorOf(call.items[call.error.value]))
    else
      Returned(Present(call.results))
  }

  function Present<R>(rs: seq<Option<R>>): seq<R> {
    if rs == [] then []
    else Present(rs[..|rs| - 1]) + (if rs[|rs| - 1].Some? then [rs[|rs| - 1].value] else [])
  }

  function Fresh<R>(items: seq<Item<R>>, handler: Handler<R>): Call<R> {
    Call(items, handler, if items == [] then Finished(Returned([])) else Waiting,
         seq(|items|, _ => None), [], None, None)
  }

  function Submit(pool: Pool, t: Task): Pool {
    pool.(queue := pool.queue + [t])
  }

  /** A step of an execute call. */
  predicate OnCall<R(!new)>(a: Action<R>) {
    a.Invoke? || a.Acquire? || a.Preflight? || a.Release? || a.Collect? || a.Conclusion?
  }

  /** The call a step is about, afterwards. */
  function NewCall<R(!new)>(s: State<R>, a: Action<R>): Call<R>
    requires Enabled(s, a) && OnCall(a)
  {
    match a
    case Invoke(_, items, handler) => Fresh(items, handler)
    case Acquire(c) => s.calls[c].(stage := if s.accepting then Submitting(0) else Finished(Closed))
    case Preflight(c) => AfterPreflight(s.calls[c], s.calls[c].stage.next).(stage := Submitting(s.calls[c].stage.next + 1))
    case Release(c) => s.calls[c].(stage := Collecting(0))
    case Collect(c) =>
      var call, j := s.calls[c], s.calls[c].stage.next;
      if call.submitted[j] < |call.items| then AfterCollect(call, call.submitted[j]).(stage := Collecting(j + 1)) else call
    case Conclusion(c) => s.calls[c].(stage := Finished(OutcomeOf(s.calls[c])))
  }

  function StepCalls<R(!new)>(s: State<R>, a: Action<R>): map<CallId, Call<R>>
    requires Enabled(s, a)
  {
    if OnCall(a) then s.calls[a.c := NewCall(s, a)] else s.calls
  }

  function StepPool<R(!new)>(s: State<R>, a: Action<R>): Pool
    requires Enabled(s, a)
  {
    match a
    case Preflight(c) =>
      var call, k := s.calls[c], s.calls[c].stage.next;
      if call.items[k].pre.RunItem? then Submit(s.pool, Task(c, k)) else s.pool
    case StartTask => s.pool.(queue := s.pool.queue[1..], running := s.pool.running + {s.pool.queue[0]})
    case FinishTask(t) => s.pool.(running := s.pool.running - {t}, done := s.pool.done + {t})
    case _ => s.pool
  }

  function StepLock<R(!new)>(s: State<R>, a: Action<R>): Option<CallId>
    requires Enabled(s, a)
  {
    match a
    case Acquire(c) => if s.accepting then Some(c) else s.lock
    case Release(_) => None
    case _ => s.lock
  }

  function StepClosers<R(!new)>(s: State<R>, a: Action<R>): map<nat, Closer>
    requires Enabled(s, a)
  {
    match a
    case Close(k) => s.closers[k := Requested]
    case CloseLocked(k) => s.closers[k := if s.accepting then Draining else ReturnedEarly]
    case CloseJoined(k) => s.closers[k := Drained]
    case _ => s.closers
  }

  function Step<R(!new)>(s: State<R>, a: Action<R>): State<R>
    requires Enabled(s, a)
  {
    State(s.accepting && !a.CloseLocked?, StepLock(s, a), StepPool(s, a), StepCalls(s, a), StepClosers(s, a))
  }

  ghost predicate IsRun<R(!new)>(s: State<R>, acts: seq<Action<R>>)
    decreases |acts|
  {
    acts == [] || (Enabled(s, acts[0]) && IsRun(Step(s, acts[0]), acts[1..]))
  }

  ghost function After<R(!new)>(s: State<R>, acts: seq<Action<R>>): State<R>
    requires IsRun(s, acts)
    decreases |acts|
  {
    if acts == [] then s else After(Step(s, acts[0]), acts[1..])
  }
}
