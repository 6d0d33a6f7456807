/** What every run of the parallel batch executor keeps. */
module BatchSafety {
  import opened BatchItems
  import opened BatchExecutor

  // ---------------------------------------------------------------------------------------
  // One call

  /** The items below n that go to the executor, in input order. */
  function RunIndices<R>(items: seq<Item<R>>, n: nat): seq<nat>
    requires n <= |items|
  {
    if n == 0 then []
    else if items[n - 1].pre.RunItem? then RunIndices(items, n - 1) + [n - 1]
    else RunIndices(items, n - 1)
  }

  /** They are increasing, and all of them. */
  lemma {:induction false} RunIndicesAre<R>(items: seq<Item<R>>, n: nat, ks: seq<nat>)
    requires n <= |items| && ks == RunIndices(items, n)
    ensures forall i :: 0 <= i < |ks| ==> ks[i] < n && items[ks[i]].pre.RunItem?
    ensures forall i, j :: 0 <= i < j < |ks| ==> ks[i] < ks[j]
    ensures forall k :: 0 <= k < n && items[k].pre.RunItem? ==> k in ks
    decreases n
  {
    if n > 0 {
      RunIndicesAre(items, n - 1, RunIndices(items, n - 1));
    }
  }

  /** Items that went to the executor and have an index below this one were collected. */
  function Bound<R>(call: Call<R>, j: nat): nat
    requires j <= |call.submitted|
  {
    if j < |call.submitted| then call.submitted[j] else |call.items|
  }

  /** The results of the items in `settled` are there, and no others. */
  ghost predicate Filled<R>(results: seq<Option<R>>, items: seq<Item<R>>, handler: Handler<R>, settled: (int, Item<R>) -> bool) {
    && |results| == |items|
    && forall k :: 0 <= k < |items| ==>
         results[k] == if settled(k, items[k]) then Decided(items[k], handler) else None
  }

  function Preflighted<R>(i: nat): (int, Item<R>) -> bool {
    (k: int, item: Item<R>) => k < i && !item.pre.RunItem?
  }

  function Collected<R>(b: nat): (int, Item<R>) -> bool {
    (k: int, item: Item<R>) => !item.pre.RunItem? || k < b
  }

  /** After the preflights of the first i items. */
  ghost predicate PreDone<R>(call: Call<R>, i: nat) {
    && i <= |call.items|
    && call.submitted == RunIndices(call.items, i)
    && call.fatal == First(call.items, PreRaisesFatal, i)
    && call.error == Kept(call.handler, First(call.items, PreRaisesError, i))
    && Filled(call.results, call.items, call.handler, Preflighted(i))
  }

  /** After collecting the executed items with an index below b. */
  ghost predicate RunDone<R>(call: Call<R>, b: nat) {
    var n := |call.items|;
    && b <= n
    && call.submitted == RunIndices(call.items, n)
    && call.fatal == OrElse(First(call.items, PreRaisesFatal, n), First(call.items, RunRaisesFatal, b))
    && call.error == Kept(call.handler, OrElse(First(call.items, PreRaisesError, n), First(call.items, RunRaisesError, b)))
    && Filled(call.results, call.items, call.handler, Collected(b))
  }

  ghost predicate CallOk<R>(call: Call<R>) {
    match call.stage
    case Waiting => call.items != [] && PreDone(call, 0)
    case Submitting(i) => call.items != [] && PreDone(call, i)
    case Collecting(j) => j <= |call.submitted| && RunDone(call, Bound(call, j))
    case Finished(outcome) =>
      || (outcome == Closed && call.submitted == [])
      || (outcome == ParallelOutcome(call.items, call.handler) && call.submitted == RunIndices(call.items, |call.items|))
  }

  /** Recording item k, which was the only one missing. */
  lemma FilledOneMore<R>(results: seq<Option<R>>, items: seq<Item<R>>, handler: Handler<R>, k: nat,
                         before: (int, Item<R>) -> bool, after: (int, Item<R>) -> bool)
    requires k < |items| && Filled(results, items, handler, before)
    requires !before(k, items[k])
    requires forall j :: 0 <= j < |items| && j != k ==> before(j, items[j]) == after(j, items[j])
    ensures after(k, items[k]) ==> Filled(results[k := Decided(items[k], handler)], items, handler, after)
    ensures (!after(k, items[k]) || Decided(items[k], handler).None?) ==> Filled(results, items, handler, after)
  {
  }

  lemma PreflightHolds<R>(call: Call<R>, i: nat)
    requires PreDone(call, i) && i < |call.items|
    ensures var next := AfterPreflight(call, i);
            && next.items == call.items && next.handler == call.handler
            && next.submitted == RunIndices(call.items, i + 1)
            && next.fatal == First(call.items, PreRaisesFatal, i + 1)
            && next.error == Kept(call.handler, First(call.items, PreRaisesError, i + 1))
  {
  }

  lemma PreflightFills<R>(call: Call<R>, i: nat)
    requires Filled(call.results, call.items, call.handler, Preflighted(i)) && i < |call.items|
    ensures Filled(AfterPreflight(call, i).results, call.items, call.handler, Preflighted(i + 1))
  {
    FilledOneMore(call.results, call.items, call.handler, i, Preflighted(i), Preflighted(i + 1));
  }

  lemma PreflightKeepsCallOk<R>(call: Call<R>, i: nat)
    requires CallOk(call) && call.stage == Submitting(i) && i < |call.items|
    ensures CallOk(AfterPreflight(call, i).(stage := Submitting(i + 1)))
  {
    PreflightHolds(call, i);
    PreflightFills(call, i);
  }

  /** Between two consecutive executed items there is no other executed item. */
  lemma {:induction false} NoneSkipped<R>(items: seq<Item<R>>, p: Item<R> -> bool, lo: nat, hi: nat)
    requires lo <= hi <= |items| && forall k :: lo <= k < hi ==> !p(items[k])
    ensures First(items, p, hi) == First(items, p, lo)
    decreases hi - lo
  {
    if lo < hi {
      NoneSkipped(items, p, lo, hi - 1);
    }
  }

  /** No executed item lies between executed item number j - 1 and the next one. */
  lemma NoneBefore<R>(items: seq<Item<R>>, j: nat, b: nat)
    requires var ks := RunIndices(items, |items|);
             j <= |ks| && b == if j < |ks| then ks[j] else |items|
    ensures b <= |items|
    ensures var ks := RunIndices(items, |items|);
            forall k :: (if j == 0 then 0 else ks[j - 1] + 1) <= k < b ==> !items[k].pre.RunItem?
  {
    var ks := RunIndices(items, |items|);
    RunIndicesAre(items, |items|, ks);
    var lo := if j == 0 then 0 else ks[j - 1] + 1;
    forall i | 0 <= i < |ks| ensures ks[i] < lo || b <= ks[i] {
      assert i < j ==> ks[i] <= ks[j - 1];
      assert j <= i ==> ks[j] <= ks[i];
    }
  }

  lemma ReleaseKeepsCallOk<R>(call: Call<R>)
    requires CallOk(call) && call.stage == Submitting(|call.items|)
    ensures CallOk(call.(stage := Collecting(0)))
  {
    var b := Bound(call, 0);
    RunIndicesAre(call.items, |call.items|, call.submitted);
    NoneBefore(call.items, 0, b);
    NoneSkipped(call.items, RunRaisesFatal, 0, b);
    NoneSkipped(call.items, RunRaisesError, 0, b);
  }

  lemma CollectHolds<R>(call: Call<R>, k: nat)
    requires k < |call.items| && call.items[k].pre.RunItem?
    requires var n := |call.items|;
             && call.fatal == OrElse(First(call.items, PreRaisesFatal, n), First(call.items, RunRaisesFatal, k))
             && call.error == Kept(call.handler, OrElse(First(call.items, PreRaisesError, n), First(call.items, RunRaisesError, k)))
    ensures var next := AfterCollect(call, k);
            var n := |call.items|;
            && next.items == call.items && next.handler == call.handler && next.submitted == call.submitted
            && next.fatal == OrElse(First(call.items, PreRaisesFatal, n), First(call.items, RunRaisesFatal, k + 1))
            && next.error == Kept(call.handler, OrElse(First(call.items, PreRaisesError, n), First(call.items, RunRaisesError, k + 1)))
  {
  }

  lemma CollectFills<R>(call: Call<R>, k: nat, b: nat)
    requires Filled(call.results, call.items, call.handler, Collected(k)) && k < |call.items| && call.items[k].pre.RunItem?
    requires k < b && forall i :: k < i < b && i < |call.items| ==> !call.items[i].pre.RunItem?
    ensures Filled(AfterCollect(call, k).results, call.items, call.handler, Collected(b))
  {
    FilledOneMore(call.results, call.items, call.handler, k, Collected(k), Collected(b));
  }

  lemma CollectRunDone<R>(call: Call<R>, k: nat, b: nat)
    requires RunDone(call, k) && k < b <= |call.items| && call.items[k].pre.RunItem?
    requires forall i :: k < i < b ==> !call.items[i].pre.RunItem?
    ensures RunDone(AfterCollect(call, k), b)
    ensures AfterCollect(call, k).items == call.items && AfterCollect(call, k).submitted == call.submitted
  {
    CollectHolds(call, k);
    CollectFills(call, k, b);
    NoneSkipped(call.items, RunRaisesFatal, k + 1, b);
    NoneSkipped(call.items, RunRaisesError, k + 1, b);
  }

  /** Collecting future number j moves the bound past its item. */
  lemma CollectKeepsCallOk<R>(call: Call<R>, j: nat)
    requires CallOk(call) && call.stage == Collecting(j) && j < |call.submitted|
    ensures call.submitted[j] < |call.items|
    ensures CallOk(AfterCollect(call, call.submitted[j]).(stage := Collecting(j + 1)))
  {
    RunIndicesAre(call.items, |call.items|, call.submitted);
    NoneBefore(call.items, j + 1, Bound(call, j + 1));
    CollectRunDone(call, call.submitted[j], Bound(call, j + 1));
  }

  lemma {:induction false} PresentAll<R>(rs: seq<Option<R>>, vs: seq<R>)
    requires |rs| == |vs| && forall k :: 0 <= k < |rs| ==> rs[k] == Some(vs[k])
    ensures Present(rs) == vs
    decreases |rs|
  {
    if rs != [] {
      PresentAll(rs[..|rs| - 1], vs[..|vs| - 1]);
    }
  }

  lemma ConclusionIsParallelOutcome<R>(call: Call<R>)
    requires CallOk(call) && call.stage == Collecting(|call.submitted|)
    ensures OutcomeOf(call) == ParallelOutcome(call.items, call.handler)
  {
    DecidedUnlessRaises(call.items, call.handler);
    FirstByPhase(call.items);
    if call.fatal.None? && call.error.None? {
      PresentAll(call.results, Results(call.items, call.handler));
    }
  }

  // ---------------------------------------------------------------------------------------
  // All calls together

  ghost predicate CallsOk<R(!new)>(calls: map<CallId, Call<R>>) {
    forall c :: c in calls ==> CallOk(calls[c])
  }

  /** Calls submit one at a time, and none of them once the coordinator is closed. */
  ghost predicate Gated<R(!new)>(s: State<R>) {
    && (forall c :: c in s.calls && s.calls[c].stage.Submitting? ==> s.lock == Some(c))
    && (!s.accepting ==> s.lock == None)
    && (forall k :: k in s.closers && !s.closers[k].Requested? ==> !s.accepting)
  }

  ghost predicate Knows(pool: Pool, t: Task) {
    t in pool.queue || t in pool.running || t in pool.done
  }

  /** A task is queued, running or done, at most one of these and only once: no item runs twice. */
  ghost predicate RunsOnce(pool: Pool) {
    && |pool.running| <= pool.limit
    && pool.running !! pool.done
    && (forall i :: 0 <= i < |pool.queue| ==> pool.queue[i] !in pool.running && pool.queue[i] !in pool.done)
    && (forall i, j :: 0 <= i < j < |pool.queue| ==> pool.queue[i] != pool.queue[j])
  }

  /** The tasks in the pool are exactly the items the calls submitted. */
  ghost predicate Tracked<R(!new)>(calls: map<CallId, Call<R>>, pool: Pool) {
    && (forall t :: Knows(pool, t) ==> t.call in calls && t.index in calls[t.call].submitted)
    && (forall c, k :: c in calls && k in calls[c].submitted ==> Knows(pool, Task(c, k)))
  }

  /** The futures a call has collected are done; a finished call has left no task behind. */
  ghost predicate Settled<R>(c: CallId, call: Call<R>, done: set<Task>) {
    match call.stage
    case Waiting => call.submitted == []
    case Submitting(_) => true
    case Collecting(j) => j <= |call.submitted| && forall i :: 0 <= i < j ==> Task(c, call.submitted[i]) in done
    case Finished(_) => forall k :: k in call.submitted ==> Task(c, k) in done
  }

  ghost predicate DrainedIsEmpty<R(!new)>(s: State<R>) {
    forall k :: k in s.closers && s.closers[k].Drained? ==> s.pool.queue == [] && s.pool.running == {}
  }

  ghost predicate Inv<R(!new)>(s: State<R>) {
    && CallsOk(s.calls) && Gated(s) && RunsOnce(s.pool) && Tracked(s.calls, s.pool)
    && (forall c :: c in s.calls ==> Settled(c, s.calls[c], s.pool.done))
    && DrainedIsEmpty(s)
  }

  lemma FreshIsOk<R>(items: seq<Item<R>>, handler: Handler<R>)
    ensures CallOk(Fresh(items, handler))
  {
    if items == [] {
      ConclusionIsParallelOutcome(Fresh(items, handler).(stage := Collecting(0)));
    }
  }

  lemma AcquireIsOk<R>(call: Call<R>)
    requires CallOk(call) && call.stage.Waiting?
    ensures CallOk(call.(stage := Submitting(0))) && CallOk(call.(stage := Finished(Closed)))
  {
  }

  lemma SubmittingIsOk<R(!new)>(s: State<R>, a: Action<R>)
    requires Enabled(s, a) && (a.Invoke? || a.Acquire? || a.Preflight? || a.Release?)
    requires a.Invoke? || CallOk(s.calls[a.c])
    ensures CallOk(NewCall(s, a))
  {
    match a
    case Invoke(_, items, handler) => FreshIsOk(items, handler);
    case Acquire(c) => AcquireIsOk(s.calls[c]);
    case Preflight(c) => PreflightKeepsCallOk(s.calls[c], s.calls[c].stage.next);
    case Release(c) => ReleaseKeepsCallOk(s.calls[c]);
  }

  lemma CollectingIsOk<R(!new)>(s: State<R>, a: Action<R>)
    requires Enabled(s, a) && (a.Collect? || a.Conclusion?) && CallOk(s.calls[a.c])
    ensures CallOk(NewCall(s, a))
  {
    var call := s.calls[a.c];
    if a.Collect? { CollectKeepsCallOk(call, call.stage.next); }
    else { ConclusionIsParallelOutcome(call); }
  }

  lemma StepKeepsCallOk<R(!new)>(s: State<R>, a: Action<R>, c: CallId)
    requires Enabled(s, a) && (c in s.calls ==> CallOk(s.calls[c]))
    ensures c in StepCalls(s, a) ==> CallOk(StepCalls(s, a)[c])
  {
    if OnCall(a) && a.c == c {
      if a.Collect? || a.Conclusion? { CollectingIsOk(s, a); } else { SubmittingIsOk(s, a); }
    }
  }

  lemma StepKeepsGated<R(!new)>(s: State<R>, a: Action<R>)
    requires Enabled(s, a) && Gated(s)
    ensures Gated(Step(s, a))
  {
  }

  lemma StepKeepsDrained<R(!new)>(s: State<R>, a: Action<R>)
    requires Enabled(s, a) && Gated(s) && DrainedIsEmpty(s)
    ensures DrainedIsEmpty(Step(s, a))
  {
  }

  lemma StepKeepsSettled<R(!new)>(s: State<R>, a: Action<R>, c: CallId)
    requires Enabled(s, a) && (c in s.calls ==> Settled(c, s.calls[c], s.pool.done))
    ensures var t := Step(s, a); c in t.calls ==> Settled(c, t.calls[c], t.pool.done)
  {
  }

  lemma StartKeepsPool(pool: Pool)
    requires pool.queue != [] && |pool.running| < pool.limit && RunsOnce(pool)
    ensures var next := pool.(queue := pool.queue[1..], running := pool.running + {pool.queue[0]});
            RunsOnce(next) && forall t :: Knows(next, t) <==> Knows(pool, t)
  {
    var next := pool.(queue := pool.queue[1..], running := pool.running + {pool.queue[0]});
    forall t ensures Knows(next, t) <==> Knows(pool, t) {
      assert t in pool.queue <==> t == pool.queue[0] || t in pool.queue[1..];
    }
  }

  lemma FinishKeepsPool(pool: Pool, t: Task)
    requires t in pool.running && RunsOnce(pool)
    ensures var next := pool.(running := pool.running - {t}, done := pool.done + {t});
            RunsOnce(next) && forall u :: Knows(next, u) <==> Knows(pool, u)
  {
  }

  lemma SubmitKeepsPool(pool: Pool, t: Task)
    requires RunsOnce(pool) && !Knows(pool, t)
    ensures RunsOnce(Submit(pool, t))
    ensures forall u :: Knows(Submit(pool, t), u) <==> u == t || Knows(pool, u)
  {
    var next := Submit(pool, t);
    forall i, j | 0 <= i < j < |next.queue| ensures next.queue[i] != next.queue[j] {
      assert pool.queue[i] in pool.queue;
    }
  }

  /** Calls that submitted the same items have the same tasks. */
  lemma TrackedCongruent<R(!new)>(calls: map<CallId, Call<R>>, pool: Pool, calls': map<CallId, Call<R>>, pool': Pool)
    requires Tracked(calls, pool) && calls.Keys <= calls'.Keys
    requires forall c :: c in calls ==> calls'[c].submitted == calls[c].submitted
    requires forall c :: c in calls' && c !in calls ==> calls'[c].submitted == []
    requires forall t :: Knows(pool', t) <==> Knows(pool, t)
    ensures Tracked(calls', pool')
  {
  }

  /** One call submits item k, and the pool takes it. */
  lemma TrackedSubmit<R(!new)>(calls: map<CallId, Call<R>>, pool: Pool, c: CallId, call: Call<R>, k: nat)
    requires Tracked(calls, pool) && c in calls && call.submitted == calls[c].submitted + [k]
    requires forall u :: Knows(Submit(pool, Task(c, k)), u) <==> u == Task(c, k) || Knows(pool, u)
    ensures Tracked(calls[c := call], Submit(pool, Task(c, k)))
  {
  }

  lemma PreflightKeepsTracked<R(!new)>(s: State<R>, c: CallId)
    requires Enabled(s, Preflight(c)) && CallOk(s.calls[c]) && RunsOnce(s.pool) && Tracked(s.calls, s.pool)
    ensures RunsOnce(Step(s, Preflight(c)).pool) && Tracked(Step(s, Preflight(c)).calls, Step(s, Preflight(c)).pool)
  {
    var call, k := s.calls[c], s.calls[c].stage.next;
    assert call.submitted == RunIndices(call.items, k) by {
      assert PreDone(call, k);
    }
    RunIndicesAre(call.items, k, call.submitted);
    if call.items[k].pre.RunItem? {
      assert forall i :: 0 <= i < |call.submitted| ==> call.submitted[i] < k;
      SubmitKeepsPool(s.pool, Task(c, k));
      TrackedSubmit(s.calls, s.pool, c, NewCall(s, Preflight(c)), k);
    } else {
      TrackedCongruent(s.calls, s.pool, StepCalls(s, Preflight(c)), s.pool);
    }
  }

  /** Only a preflight submits. */
  lemma SameSubmissions<R(!new)>(s: State<R>, a: Action<R>)
    requires Enabled(s, a) && !a.Preflight?
    ensures var calls := Step(s, a).calls;
            && s.calls.Keys <= calls.Keys
            && (forall c :: c in s.calls ==> calls[c].submitted == s.calls[c].submitted)
            && (forall c :: c in calls && c !in s.calls ==> calls[c].submitted == [])
  {
  }

  lemma StepKeepsTracked<R(!new)>(s: State<R>, a: Action<R>)
    requires Enabled(s, a) && CallsOk(s.calls) && RunsOnce(s.pool) && Tracked(s.calls, s.pool)
    ensures RunsOnce(Step(s, a).pool) && Tracked(Step(s, a).calls, Step(s, a).pool)
  {
    if a.Preflight? {
      PreflightKeepsTracked(s, a.c);
    } else {
      SameSubmissions(s, a);
      if a.StartTask? {
        StartKeepsPool(s.pool);
      } else if a.FinishTask? {
        FinishKeepsPool(s.pool, a.t);
      }
      TrackedCongruent(s.calls, s.pool, Step(s, a).calls, Step(s, a).pool);
    }
  }

  lemma StepKeepsInv<R(!new)>(s: State<R>, a: Action<R>)
    requires Enabled(s, a) && Inv(s)
    ensures Inv(Step(s, a))
  {
    forall c { StepKeepsCallOk(s, a, c); }
    forall c { StepKeepsSettled(s, a, c); }
    StepKeepsGated(s, a);
    StepKeepsDrained(s, a);
    StepKeepsTracked(s, a);
  }

  lemma {:induction false} RunKeepsInv<R(!new)>(s: State<R>, acts: seq<Action<R>>)
    requires Inv(s) && IsRun(s, acts)
    ensures Inv(After(s, acts))
    decreases |acts|
  {
    if acts != [] {
      StepKeepsInv(s, acts[0]);
      RunKeepsInv(Step(s, acts[0]), acts[1..]);
    }
  }

  // ---------------------------------------------------------------------------------------
  // Main results

  /**
    Schedule independence: whatever the interleaving of calls and tasks, a call that finished with
    anything but the closed error ended as ParallelOutcome says, even when that is a fatal exception;
    by then exactly the items whose preflight asked for it had run, each once. A call refused as
    closed ran nothing.
  */
  lemma EveryScheduleAgrees<R(!new)>(limit: nat, acts: seq<Action<R>>, c: CallId)
    requires IsRun(Init(limit), acts)
    requires c in After(Init(limit), acts).calls && After(Init(limit), acts).calls[c].stage.Finished?
    ensures var s := After(Init(limit), acts);
            var call := s.calls[c];
            && RunsOnce(s.pool)
            && (call.stage.outcome == Closed || call.stage.outcome == ParallelOutcome(call.items, call.handler))
            && (forall k: nat :: RanIfAsked(s.pool, c, call, k))
  {
    RunKeepsInv(Init(limit), acts);
    var s := After(Init(limit), acts);
    forall k: nat ensures RanIfAsked(s.pool, c, s.calls[c], k) {
      FinishedRanAll(s, c, k);
    }
  }

  /** Item k of the call ran exactly if the call was accepted and the item's preflight asked for it; it did not merely start. */
  ghost predicate RanIfAsked<R>(pool: Pool, c: CallId, call: Call<R>, k: nat)
    requires call.stage.Finished?
  {
    var asked := call.stage.outcome != Closed && k < |call.items| && call.items[k].pre.RunItem?;
    (asked ==> Task(c, k) in pool.done) && (Knows(pool, Task(c, k)) ==> asked)
  }

  lemma FinishedRanAll<R(!new)>(s: State<R>, c: CallId, k: nat)
    requires Inv(s) && c in s.calls && s.calls[c].stage.Finished?
    ensures RanIfAsked(s.pool, c, s.calls[c], k)
  {
    var call := s.calls[c];
    assert CallOk(call) && Settled(c, call, s.pool.done);
    AskedIsSubmitted(call, k);
    if Knows(s.pool, Task(c, k)) { assert Task(c, k).index in s.calls[Task(c, k).call].submitted; }
  }

  lemma AskedIsSubmitted<R>(call: Call<R>, k: nat)
    requires CallOk(call) && call.stage.Finished?
    ensures k in call.submitted <==> call.stage.outcome != Closed && k < |call.items| && call.items[k].pre.RunItem?
  {
    var ks := RunIndices(call.items, |call.items|);
    RunIndicesAre(call.items, |call.items|, ks);
    ParallelIsNotClosed(call.items, call.handler);
    if k in ks {
      var i :| 0 <= i < |ks| && ks[i] == k;
      assert ks[i] < |call.items| && call.items[ks[i]].pre.RunItem?;
    }
  }

  lemma ParallelIsNotClosed<R>(items: seq<Item<R>>, handler: Handler<R>)
    ensures ParallelOutcome(items, handler) != Closed
  {
    ModesRaiseAlike(items, handler);
  }

  /** With a handler and no fatal exception that is what the sequential mode returns. */
  lemma ParallelEqualsSequential<R(!new)>(limit: nat, acts: seq<Action<R>>, c: CallId)
    requires IsRun(Init(limit), acts)
    requires c in After(Init(limit), acts).calls && After(Init(limit), acts).calls[c].stage.Finished?
    requires After(Init(limit), acts).calls[c].stage.outcome != Closed
    requires var call := After(Init(limit), acts).calls[c];
             call.handler.Some? && forall k :: 0 <= k < |call.items| ==> !RaisesFatal(call.items[k])
    ensures var call := After(Init(limit), acts).calls[c];
            && call.stage.outcome == SequentialOutcome(call.items, call.handler)
            && call.stage.outcome.Returned? && |call.stage.outcome.results| == |call.items|
            && forall k :: 0 <= k < |call.items| ==> ComesTo(call.items[k], call.handler, call.stage.outcome.results[k])
  {
    EveryScheduleAgrees(limit, acts, c);
    var call := After(Init(limit), acts).calls[c];
    ModesAgree(call.items, call.handler);
  }

  /**
    Close drains: once the close call that stopped submissions has returned, nothing is queued or
    running and every item any call had submitted is done.
  */
  lemma CloseDrains<R(!new)>(limit: nat, acts: seq<Action<R>>, k: nat, c: CallId)
    requires IsRun(Init(limit), acts)
    requires k in After(Init(limit), acts).closers && After(Init(limit), acts).closers[k].Drained?
    ensures var s := After(Init(limit), acts);
            && !s.accepting && s.pool.queue == [] && s.pool.running == {}
            && (c in s.calls ==> forall i :: i in s.calls[c].submitted ==> Task(c, i) in s.pool.done)
  {
    RunKeepsInv(Init(limit), acts);
    var s := After(Init(limit), acts);
    if c in s.calls {
      forall i | i in s.calls[c].submitted ensures Task(c, i) in s.pool.done {
        assert Knows(s.pool, Task(c, i));
      }
    }
  }

  /** A call that has not been accepted. */
  ghost predicate NotAccepted<R(!new)>(s: State<R>, c: CallId) {
    c in s.calls ==> s.calls[c].submitted == []
                     && (s.calls[c].stage.Waiting? || s.calls[c].stage == Finished(Closed) || s.calls[c].items == [])
  }

  lemma StepKeepsNotAccepted<R(!new)>(s: State<R>, a: Action<R>, c: CallId)
    requires Enabled(s, a) && Gated(s) && !s.accepting && NotAccepted(s, c)
    requires c in s.calls ==> CallOk(s.calls[c])
    ensures !Step(s, a).accepting && NotAccepted(Step(s, a), c)
  {
  }

  /** After a close call has stopped submissions no later non-empty execute is accepted. */
  lemma {:induction false} ClosedForever<R(!new)>(s: State<R>, acts: seq<Action<R>>, c: CallId)
    requires Inv(s) && IsRun(s, acts) && !s.accepting && NotAccepted(s, c)
    ensures !After(s, acts).accepting && NotAccepted(After(s, acts), c)
    decreases |acts|
  {
    if acts != [] {
      StepKeepsInv(s, acts[0]);
      StepKeepsNotAccepted(s, acts[0], c);
      ClosedForever(Step(s, acts[0]), acts[1..], c);
    }
  }

  lemma Prepend<R(!new)>(s: State<R>, a: Action<R>, rest: seq<Action<R>>)
    requires Enabled(s, a) && IsRun(Step(s, a), rest)
    ensures IsRun(s, [a] + rest) && After(s, [a] + rest) == After(Step(s, a), rest)
  {
    assert ([a] + rest)[1..] == rest;
  }

  /** Only the close call that stopped submissions waits: a second one returns whatever is still running. */
  lemma SecondCloseReturnsEarly<R(!new)>(s: State<R>, first: nat, second: nat) returns (acts: seq<Action<R>>)
    requires s.accepting && s.lock.None? && first !in s.closers && second !in s.closers && first != second
    ensures IsRun(s, acts)
    ensures var t := After(s, acts);
            second in t.closers && t.closers[second].ReturnedEarly? && t.pool == s.pool && t.calls == s.calls
  {
    var s1 := Step(s, Close(first));
    var s2 := Step(s1, CloseLocked(first));
    var s3 := Step(s2, Close(second));
    acts := [];
    Prepend(s3, CloseLocked(second), acts); acts := [CloseLocked(second)] + acts;
    Prepend(s2, Close(second), acts); acts := [Close(second)] + acts;
    Prepend(s1, CloseLocked(first), acts); acts := [CloseLocked(first)] + acts;
    Prepend(s, Close(first), acts); acts := [Close(first)] + acts;
  }

  /** A coordinator with two threads and one call, of one item that runs. */
  function OneCall(stage: Stage<nat>, submitted: seq<nat>, lock: Option<CallId>, pool: Pool): State<nat> {
    State(true, lock, pool, map[0 := Call([Item(RunItem, Value(0))], None, stage, [None], submitted, None, None)], map[])
  }

  lemma CallIsInvoked()
    ensures var invoke := Invoke(0, [Item(RunItem, Value(0))], None);
            Enabled<nat>(Init(2), invoke) && Step(Init(2), invoke) == OneCall(Waiting, [], None, Pool(2, [], {}, {}))
  {
    var items := [Item(RunItem, Value(0))];
    var call: Call<nat> := Fresh(items, None);
    assert call.results == [None];
    assert call == Call(items, None, Waiting, [None], [], None, None);
    assert StepCalls(Init(2), Invoke(0, items, None)) == OneCall(Waiting, [], None, Pool(2, [], {}, {})).calls;
  }

  lemma CallIsSubmitted()
    ensures var idle, queued := Pool(2, [], {}, {}), Pool(2, [Task(0, 0)], {}, {});
            && Enabled(OneCall(Waiting, [], None, idle), Acquire(0))
            && Step(OneCall(Waiting, [], None, idle), Acquire(0)) == OneCall(Submitting(0), [], Some(0), idle)
            && Enabled(OneCall(Submitting(0), [], Some(0), idle), Preflight(0))
            && Step(OneCall(Submitting(0), [], Some(0), idle), Preflight(0)) == OneCall(Submitting(1), [0], Some(0), queued)
  {
    var idle, queued := Pool(2, [], {}, {}), Pool(2, [Task(0, 0)], {}, {});
    var s, t := OneCall(Waiting, [], None, idle), OneCall(Submitting(0), [], Some(0), idle);
    assert StepCalls(s, Acquire(0)) == t.calls;
    assert NewCall(t, Preflight(0)).submitted == [0];
    assert StepCalls(t, Preflight(0)) == OneCall(Submitting(1), [0], Some(0), queued).calls;
    assert StepPool(t, Preflight(0)) == queued;
  }

  lemma CallIsStarted()
    ensures var queued, running := Pool(2, [Task(0, 0)], {}, {}), Pool(2, [], {Task(0, 0)}, {});
            && Enabled(OneCall(Submitting(1), [0], Some(0), queued), Release(0))
            && Step(OneCall(Submitting(1), [0], Some(0), queued), Release(0)) == OneCall(Collecting(0), [0], None, queued)
            && Enabled(OneCall(Collecting(0), [0], None, queued), StartTask)
            && Step(OneCall(Collecting(0), [0], None, queued), StartTask) == OneCall(Collecting(0), [0], None, running)
  {
    var queued, running := Pool(2, [Task(0, 0)], {}, {}), Pool(2, [], {Task(0, 0)}, {});
    var s, t := OneCall(Submitting(1), [0], Some(0), queued), OneCall(Collecting(0), [0], None, queued);
    assert StepCalls(s, Release(0)) == t.calls;
    assert StepPool(t, StartTask) == running;
  }

  /** A run that leaves one item running and the lock free. */
  lemma OneItemRuns() returns (acts: seq<Action<nat>>)
    ensures IsRun(Init(2), acts)
    ensures var t := After(Init(2), acts);
            t.accepting && t.lock.None? && t.closers == map[] && t.pool.running == {Task(0, 0)}
  {
    var invoke := Invoke(0, [Item(RunItem, Value(0))], None);
    var idle, queued := Pool(2, [], {}, {}), Pool(2, [Task(0, 0)], {}, {});
    CallIsInvoked();
    CallIsSubmitted();
    CallIsStarted();
    acts := [];
    Prepend(OneCall(Collecting(0), [0], None, queued), StartTask, acts); acts := [StartTask] + acts;
    Prepend(OneCall(Submitting(1), [0], Some(0), queued), Release(0), acts); acts := [Release(0)] + acts;
    Prepend(OneCall(Submitting(0), [], Some(0), idle), Preflight(0), acts); acts := [Preflight(0)] + acts;
    Prepend(OneCall(Waiting, [], None, idle), Acquire(0), acts); acts := [Acquire(0)] + acts;
    Prepend(Init(2), invoke, acts); acts := [invoke] + acts;
  }
}
