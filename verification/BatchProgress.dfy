/**
  The coordinator never deadlocks: from every reachable state, whatever is queued, running or waiting
  for the lock, every execute call and every close call can still return. Tasks start in the order in
  which they were submitted.
*/
module BatchProgress {
  import opened BatchItems
  import opened BatchExecutor
  import opened BatchSafety

  // ---------------------------------------------------------------------------------------
  // The lock is held by a submitting call

  ghost predicate LockIsUsed<R(!new)>(s: State<R>) {
    s.lock.Some? ==> s.lock.value in s.calls && s.calls[s.lock.value].stage.Submitting?
  }

  /** The invariant, together with a pool that has threads. */
  ghost predicate Live<R(!new)>(s: State<R>) {
    Inv(s) && LockIsUsed(s) && s.pool.limit > 0
  }

  lemma StepKeepsLive<R(!new)>(s: State<R>, a: Action<R>)
    requires Enabled(s, a) && Live(s)
    ensures Live(Step(s, a))
  {
    StepKeepsInv(s, a);
  }

  lemma {:induction false} RunKeepsLive<R(!new)>(s: State<R>, acts: seq<Action<R>>)
    requires Live(s) && IsRun(s, acts)
    ensures Live(After(s, acts))
    decreases |acts|
  {
    if acts != [] {
      StepKeepsLive(s, acts[0]);
      RunKeepsLive(Step(s, acts[0]), acts[1..]);
    }
  }

  lemma {:induction false} Chain<R(!new)>(s: State<R>, xs: seq<Action<R>>, ys: seq<Action<R>>)
    requires IsRun(s, xs) && IsRun(After(s, xs), ys)
    ensures IsRun(s, xs + ys) && After(s, xs + ys) == After(After(s, xs), ys)
    decreases |xs|
  {
    if xs == [] {
      assert xs + ys == ys;
    } else {
      Chain(Step(s, xs[0]), xs[1..], ys);
      assert (xs + ys)[1..] == xs[1..] + ys;
    }
  }

  // ---------------------------------------------------------------------------------------
  // Every stage can be left

  /** Everything but the call d, the lock and the pool is the same. */
  ghost predicate OnlyCall<R(!new)>(s: State<R>, t: State<R>, d: CallId) {
    && t.accepting == s.accepting && t.closers == s.closers && d in t.calls
    && forall c :: c in s.calls && c != d ==> c in t.calls && t.calls[c] == s.calls[c]
  }

  lemma PreflightAdvances<R(!new)>(s: State<R>, d: CallId)
    requires Enabled(s, Preflight(d))
    ensures var t := Step(s, Preflight(d));
            && t.lock == s.lock && OnlyCall(s, t, d) && t.calls[d].items == s.calls[d].items
            && t.calls[d].stage == Submitting(s.calls[d].stage.next + 1)
  {
  }

  lemma ReleaseFrees<R(!new)>(s: State<R>, d: CallId)
    requires Enabled(s, Release(d))
    ensures var t := Step(s, Release(d));
            t.lock.None? && OnlyCall(s, t, d) && t.calls[d].stage == Collecting(0)
  {
  }

  /** The call that holds the lock can submit its items and release it. */
  lemma {:induction false} CanRelease<R(!new)>(s: State<R>, d: CallId) returns (rest: seq<Action<R>>)
    requires Live(s) && s.lock == Some(d)
    ensures IsRun(s, rest)
    ensures var t := After(s, rest);
            Live(t) && t.lock.None? && OnlyCall(s, t, d) && t.calls[d].stage == Collecting(0)
    decreases |s.calls[d].items| - s.calls[d].stage.next
  {
    assert CallOk(s.calls[d]);
    var last := s.calls[d].stage.next == |s.calls[d].items|;
    var a: Action<R> := if last then Release(d) else Preflight(d);
    StepKeepsLive(s, a);
    if last {
      ReleaseFrees(s, d);
      rest := [];
    } else {
      PreflightAdvances(s, d);
      rest := CanRelease(Step(s, a), d);
    }
    Prepend(s, a, rest);
    rest := [a] + rest;
  }

  /** The lock can be freed, whoever holds it. */
  lemma CanFreeLock<R(!new)>(s: State<R>) returns (rest: seq<Action<R>>)
    requires Live(s)
    ensures IsRun(s, rest)
    ensures var t := After(s, rest);
            && Live(t) && t.lock.None? && t.accepting == s.accepting && t.closers == s.closers
            && forall c :: c in s.calls && !s.calls[c].stage.Submitting? ==> c in t.calls && t.calls[c] == s.calls[c]
  {
    rest := [];
    if s.lock.Some? { rest := CanRelease(s, s.lock.value); }
  }

  /** Everything but the pool is the same. */
  ghost predicate OnlyPool<R(!new)>(s: State<R>, t: State<R>) {
    t.calls == s.calls && t.lock == s.lock && t.accepting == s.accepting && t.closers == s.closers
  }

  ghost predicate Idle(pool: Pool) {
    pool.queue == [] && pool.running == {}
  }

  /** Every queued task can start and every running one can end. */
  lemma {:induction false} CanDrain<R(!new)>(s: State<R>) returns (rest: seq<Action<R>>)
    requires Live(s)
    ensures IsRun(s, rest)
    ensures var t := After(s, rest); Live(t) && Idle(t.pool) && OnlyPool(s, t)
    decreases 2 * |s.pool.queue| + |s.pool.running|
  {
    rest := [];
    if !Idle(s.pool) {
      var a: Action<R> := StartTask;
      if s.pool.running != {} {
        var t :| t in s.pool.running;
        a := FinishTask(t);
      }
      StepKeepsLive(s, a);
      DrainShrinks(s, a);
      rest := CanDrain(Step(s, a));
      Prepend(s, a, rest);
      rest := [a] + rest;
    }
  }

  lemma DrainShrinks<R(!new)>(s: State<R>, a: Action<R>)
    requires Enabled(s, a) && RunsOnce(s.pool) && (a.StartTask? || a.FinishTask?)
    ensures 2 * |Step(s, a).pool.queue| + |Step(s, a).pool.running| < 2 * |s.pool.queue| + |s.pool.running|
  {
  }

  /** With the pool idle a call can collect its futures and return. */
  lemma {:induction false} CanCollect<R(!new)>(s: State<R>, c: CallId) returns (rest: seq<Action<R>>)
    requires Live(s) && Idle(s.pool) && c in s.calls && s.calls[c].stage.Collecting?
    ensures IsRun(s, rest)
    ensures var t := After(s, rest); c in t.calls && t.calls[c].stage.Finished?
    decreases |s.calls[c].submitted| - s.calls[c].stage.next
  {
    var call := s.calls[c];
    assert Settled(c, call, s.pool.done);
    if call.stage.next == |call.submitted| {
      rest := [];
      Prepend(s, Conclusion(c), rest);
      rest := [Conclusion(c)] + rest;
    } else {
      var k := call.submitted[call.stage.next];
      assert Knows(s.pool, Task(c, k));
      StepKeepsLive(s, Collect(c));
      assert CallOk(call);
      RunIndicesAre(call.items, |call.items|, call.submitted);
      CollectAdvances(s, c);
      rest := CanCollect(Step(s, Collect(c)), c);
      Prepend(s, Collect(c), rest);
      rest := [Collect(c)] + rest;
    }
  }

  lemma CollectAdvances<R(!new)>(s: State<R>, c: CallId)
    requires Enabled(s, Collect(c)) && s.calls[c].submitted[s.calls[c].stage.next] < |s.calls[c].items|
    ensures var t := Step(s, Collect(c));
            && t.pool == s.pool && c in t.calls && t.calls[c].submitted == s.calls[c].submitted
            && t.calls[c].stage == Collecting(s.calls[c].stage.next + 1)
  {
  }

  lemma CanReturn<R(!new)>(s: State<R>, c: CallId) returns (rest: seq<Action<R>>)
    requires Live(s) && c in s.calls && s.calls[c].stage.Collecting?
    ensures IsRun(s, rest)
    ensures var t := After(s, rest); c in t.calls && t.calls[c].stage.Finished?
  {
    var first := CanDrain(s);
    var second := CanCollect(After(s, first), c);
    Chain(s, first, second);
    rest := first + second;
  }

  /** A call that waits for the lock with the lock free. */
  lemma CanStart<R(!new)>(s: State<R>, c: CallId) returns (rest: seq<Action<R>>)
    requires Live(s) && s.lock.None? && c in s.calls && s.calls[c].stage.Waiting?
    ensures IsRun(s, rest)
    ensures var t := After(s, rest); c in t.calls && t.calls[c].stage.Finished?
  {
    StepKeepsLive(s, Acquire(c));
    var t := Step(s, Acquire(c));
    if s.accepting {
      var first := CanRelease(t, c);
      var second := CanReturn(After(t, first), c);
      Chain(t, first, second);
      rest := first + second;
    } else {
      rest := [];
    }
    Prepend(s, Acquire(c), rest);
    rest := [Acquire(c)] + rest;
  }

  lemma InitIsLive<R(!new)>(limit: nat)
    requires limit > 0
    ensures Live<R>(Init(limit))
  {
  }

  /** From every reachable state every execute call can return. */
  lemma CallCanReturn<R(!new)>(limit: nat, acts: seq<Action<R>>, c: CallId) returns (rest: seq<Action<R>>)
    requires limit > 0 && IsRun(Init(limit), acts) && c in After(Init(limit), acts).calls
    ensures var s := After(Init(limit), acts);
            IsRun(s, rest) && c in After(s, rest).calls && After(s, rest).calls[c].stage.Finished?
  {
    var s := After(Init(limit), acts);
    InitIsLive<R>(limit);
    RunKeepsLive(Init(limit), acts);
    match s.calls[c].stage {
      case Finished(_) => rest := [];
      case Collecting(_) => rest := CanReturn(s, c);
      case Submitting(_) =>
        var first := CanRelease(s, c);
        var second := CanReturn(After(s, first), c);
        Chain(s, first, second);
        rest := first + second;
      case Waiting =>
        var first := CanFreeLock(s);
        var second := CanStart(After(s, first), c);
        Chain(s, first, second);
        rest := first + second;
    }
  }

  /** From every reachable state every close call can return. */
  lemma CloseCanReturn<R(!new)>(limit: nat, acts: seq<Action<R>>, k: nat) returns (rest: seq<Action<R>>)
    requires limit > 0 && IsRun(Init<R>(limit), acts) && k in After(Init(limit), acts).closers
    ensures var s := After(Init(limit), acts);
            && IsRun(s, rest) && k in After(s, rest).closers
            && (After(s, rest).closers[k].ReturnedEarly? || After(s, rest).closers[k].Drained?)
  {
    var s := After(Init(limit), acts);
    InitIsLive<R>(limit);
    RunKeepsLive(Init(limit), acts);
    match s.closers[k] {
      case Requested =>
        var first := CanFreeLock(s);
        var second := CanClose(After(s, first), k);
        Chain(s, first, second);
        rest := first + second;
      case Draining => rest := CanJoin(s, k);
      case _ => rest := [];
    }
  }

  lemma CanClose<R(!new)>(s: State<R>, k: nat) returns (rest: seq<Action<R>>)
    requires Live(s) && s.lock.None? && k in s.closers && s.closers[k].Requested?
    ensures IsRun(s, rest) && k in After(s, rest).closers
    ensures After(s, rest).closers[k].ReturnedEarly? || After(s, rest).closers[k].Drained?
  {
    StepKeepsLive(s, CloseLocked(k));
    rest := [];
    if s.accepting { rest := CanJoin(Step(s, CloseLocked(k)), k); }
    Prepend(s, CloseLocked(k), rest);
    rest := [CloseLocked(k)] + rest;
  }

  lemma CanJoin<R(!new)>(s: State<R>, k: nat) returns (rest: seq<Action<R>>)
    requires Live(s) && k in s.closers && s.closers[k].Draining?
    ensures IsRun(s, rest) && k in After(s, rest).closers && After(s, rest).closers[k].Drained?
  {
    var first := CanDrain(s);
    var t := After(s, first);
    var last: seq<Action<R>> := [];
    Prepend(t, CloseJoined(k), last);
    last := [CloseJoined(k)] + last;
    Chain(s, first, last);
    rest := first + last;
  }

  // ---------------------------------------------------------------------------------------
  // Tasks start in order

  ghost function SubmittedBy<R(!new)>(s: State<R>, a: Action<R>): seq<Task>
    requires Enabled(s, a)
  {
    if a.Preflight? && s.calls[a.c].items[s.calls[a.c].stage.next].pre.RunItem? then [Task(a.c, s.calls[a.c].stage.next)] else []
  }

  ghost function StartedBy<R(!new)>(s: State<R>, a: Action<R>): seq<Task>
    requires Enabled(s, a)
  {
    if a.StartTask? then [s.pool.queue[0]] else []
  }

  /** The tasks submitted along a run, in order. */
  ghost function Submissions<R(!new)>(s: State<R>, acts: seq<Action<R>>): seq<Task>
    requires IsRun(s, acts)
    decreases |acts|
  {
    if acts == [] then [] else SubmittedBy(s, acts[0]) + Submissions(Step(s, acts[0]), acts[1..])
  }

  /** The tasks started along a run, in order. */
  ghost function Starts<R(!new)>(s: State<R>, acts: seq<Action<R>>): seq<Task>
    requires IsRun(s, acts)
    decreases |acts|
  {
    if acts == [] then [] else StartedBy(s, acts[0]) + Starts(Step(s, acts[0]), acts[1..])
  }

  lemma QueueStep<R(!new)>(s: State<R>, a: Action<R>)
    requires Enabled(s, a)
    ensures s.pool.queue + SubmittedBy(s, a) == StartedBy(s, a) + Step(s, a).pool.queue
  {
  }

  /** Over every run tasks start in the order in which they were submitted, and none is forgotten. */
  lemma {:induction false} TasksStartInOrder<R(!new)>(s: State<R>, acts: seq<Action<R>>)
    requires IsRun(s, acts)
    ensures Starts(s, acts) + After(s, acts).pool.queue == s.pool.queue + Submissions(s, acts)
    decreases |acts|
  {
    if acts != [] {
      var t := Step(s, acts[0]);
      TasksStartInOrder(t, acts[1..]);
      QueueStep(s, acts[0]);
      Regroup(StartedBy(s, acts[0]), Starts(t, acts[1..]), After(s, acts).pool.queue,
              t.pool.queue, Submissions(t, acts[1..]), s.pool.queue, SubmittedBy(s, acts[0]));
    }
  }

  lemma Regroup<T>(x: seq<T>, a: seq<T>, b: seq<T>, c: seq<T>, d: seq<T>, q: seq<T>, n: seq<T>)
    requires a + b == c + d && q + n == x + c
    ensures (x + a) + b == q + (n + d)
  {
    assert (x + a) + b == x + (a + b);
    assert x + (c + d) == (x + c) + d;
    assert (q + n) + d == q + (n + d);
  }
}
