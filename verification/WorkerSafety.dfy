/**
  What every run of the worker protocol keeps. The invariants are preserved by every action of
  every process, so they hold after every run from the initial state, whatever the interleaving.
*/
module WorkerSafety {
  import opened WorkerProtocol

  // ---------------------------------------------------------------------------------------
  // The in-flight guard

  /** The non-empty ids process p is handling right now. */
  ghost function Handled(handlers: map<Attempt, Handler>, p: ProcId): set<MsgId> {
    set a | a in handlers && handlers[a].proc == p && handlers[a].msg != NoId :: handlers[a].msg
  }

  ghost predicate SameJob(g: Handler, h: Handler) {
    g.proc == h.proc && g.msg == h.msg && g.msg != NoId
  }

  /** The in-flight sets are exact, and no process handles one message twice at a time. */
  ghost predicate Guarded(w: Work) {
    && (forall a :: a in w.handlers ==> w.handlers[a].proc in w.procs)
    && (forall p :: p in w.procs ==> w.procs[p].inFlight == Handled(w.handlers, p))
    && (forall a, b :: a in w.handlers && b in w.handlers && SameJob(w.handlers[a], w.handlers[b]) ==> a == b)
  }

  lemma HandledAfterRemoval(handlers: map<Attempt, Handler>, a: Attempt, p: ProcId)
    requires a in handlers
    requires forall b :: b in handlers && SameJob(handlers[a], handlers[b]) ==> a == b
    ensures Handled(handlers - {a}, p) ==
            if p == handlers[a].proc then Handled(handlers, p) - {handlers[a].msg} else Handled(handlers, p)
  {
    var rest := handlers - {a};
    forall m | m in Handled(handlers, p) && !(p == handlers[a].proc && m == handlers[a].msg)
      ensures m in Handled(rest, p)
    {
      var b :| b in handlers && handlers[b].proc == p && handlers[b].msg == m;
      assert b in rest;
    }
  }

  lemma HandledAfterBegin(handlers: map<Attempt, Handler>, a: Attempt, h: Handler, p: ProcId)
    requires a !in handlers
    ensures Handled(handlers[a := h], p) ==
            Handled(handlers, p) + (if p == h.proc && h.msg != NoId then {h.msg} else {})
  {
    var more := handlers[a := h];
    forall m | m in Handled(handlers, p)
      ensures m in Handled(more, p)
    {
      var b :| b in handlers && handlers[b].proc == p && handlers[b].msg == m;
      assert b in more && more[b] == handlers[b];
    }
    assert a in more;
  }

  /** Handlers that agree on the process and the message are the same to the guard. */
  lemma HandledCongruent(g: map<Attempt, Handler>, h: map<Attempt, Handler>, p: ProcId)
    requires forall a :: a in g && g[a].proc == p ==> a in h && h[a].proc == p && h[a].msg == g[a].msg
    requires forall a :: a in h && h[a].proc == p ==> a in g && g[a].proc == p && g[a].msg == h[a].msg
    ensures Handled(g, p) == Handled(h, p)
  {
    forall m | m in Handled(g, p) ensures m in Handled(h, p) {
      var b :| b in g && g[b].proc == p && g[b].msg == m;
      assert b in h;
    }
    forall m | m in Handled(h, p) ensures m in Handled(g, p) {
      var b :| b in h && h[b].proc == p && h[b].msg == m;
      assert b in g;
    }
  }

  lemma FinishKeepsGuarded(w: Work, a: Attempt)
    requires a in w.handlers && Guarded(w)
    ensures Guarded(FinishWork(w, a))
  {
    forall p { HandledAfterRemoval(w.handlers, a, p); }
  }

  lemma BeginKeepsGuarded(w: Work, p: ProcId, i: nat, a: Attempt)
    requires p in w.procs && i < |w.procs[p].inbox| && a !in w.handlers && Guarded(w)
    ensures Guarded(BeginWork(w, p, i, a))
  {
    var m := w.procs[p].inbox[i];
    if !Refused(w.procs[p], m) {
      var h := Handler(p, m, Running);
      forall q { HandledAfterBegin(w.handlers, a, h, q); }
      assert forall b :: b in w.handlers && SameJob(h, w.handlers[b]) ==> m in Handled(w.handlers, p);
    }
  }

  lemma RephaseKeepsGuarded(w: Work, a: Attempt, ph: Phase)
    requires a in w.handlers && Guarded(w)
    ensures Guarded(Rephase(w, a, ph))
  {
    var t := Rephase(w, a, ph).handlers;
    forall p { HandledCongruent(w.handlers, t, p); }
    forall b, c | b in t && c in t && SameJob(t[b], t[c]) ensures b == c {
      assert SameJob(w.handlers[b], w.handlers[c]);
    }
  }

  lemma CrashKeepsGuarded(w: Work, p: ProcId)
    requires Guarded(w)
    ensures Guarded(CrashWork(w, p))
  {
    var t := CrashWork(w, p);
    forall q | q in t.procs ensures t.procs[q].inFlight == Handled(t.handlers, q) {
      HandledCongruent(w.handlers, t.handlers, q);
    }
  }

  lemma StartKeepsGuarded(w: Work, p: ProcId)
    requires Guarded(w) && p !in w.procs
    ensures Guarded(w.(procs := w.procs[p := Process([], {})]))
  {
    assert Handled(w.handlers, p) == {};
  }

  lemma DeliverKeepsGuarded(w: Work, p: ProcId, m: MsgId)
    requires Guarded(w) && p in w.procs
    ensures Guarded(Deliver(w, p, m))
  {
  }

  lemma EmitKeepsGuarded(s: State, a: Attempt)
    requires Enabled(s, Emit(a)) && Guarded(s.work)
    ensures Guarded(StepWork(s, Emit(a)))
  {
    var h := s.work.handlers[a];
    if h.phase.done + 1 == CallCount(h.msg, h.phase.completion) {
      FinishKeepsGuarded(s.work, a);
    } else {
      RephaseKeepsGuarded(s.work, a, Completing(h.phase.completion, h.phase.done + 1));
    }
  }

  lemma StepKeepsGuarded(s: State, act: Action)
    requires Enabled(s, act) && Guarded(s.work) && s.work.handlers.Keys <= s.past.begun.Keys
    ensures Guarded(StepWork(s, act))
  {
    match act
    case Produce(_) =>
    case Start(p) => StartKeepsGuarded(s.work, p);
    case Crash(p) => CrashKeepsGuarded(s.work, p);
    case Read(p, m) => DeliverKeepsGuarded(s.work, p, m);
    case Claim(p, m) => DeliverKeepsGuarded(s.work, p, m);
    case Begin(p, i, a) => BeginKeepsGuarded(s.work, p, i, a);
    case Execute(a, c) => RephaseKeepsGuarded(s.work, a, Completing(c, 0));
    case Abandon(a) => FinishKeepsGuarded(s.work, a);
    case Forward(a) => FinishKeepsGuarded(s.work, a);
    case AbortForward(a, _) => FinishKeepsGuarded(s.work, a);
    case Emit(a) => EmitKeepsGuarded(s, a);
  }

  // ---------------------------------------------------------------------------------------
  // No message is lost, and the history agrees with the live handlers

  /** Every produced message is in exactly one of the three broker states. */
  ghost predicate Partitioned(b: Broker, past: Past) {
    && b.undelivered !! b.pending.Keys
    && b.undelivered !! b.acked
    && b.pending.Keys !! b.acked
    && past.produced == b.undelivered + b.pending.Keys + b.acked
    && past.ackedBy.Keys == b.acked
  }

  /** The history of one attempt agrees with its handler, if it has one. */
  ghost predicate RecordedAt(handlers: map<Attempt, Handler>, past: Past, a: Attempt) {
    && (a in past.plans ==> a in past.begun)
    && (a in past.released ==> a in past.plans)
    && (a in handlers ==> a in past.begun && past.begun[a] == handlers[a].msg)
    && (a in handlers && handlers[a].phase.Running? ==> a !in past.plans)
    && (a in handlers && handlers[a].phase.Completing? ==>
          && a in past.plans && past.plans[a] == handlers[a].phase.completion
          && (a in past.released <==> handlers[a].phase.done > |past.plans[a].primary|))
  }

  ghost predicate Recorded(handlers: map<Attempt, Handler>, past: Past) {
    forall a {:trigger RecordedAt(handlers, past, a)} :: RecordedAt(handlers, past, a)
  }

  /** Whoever acknowledged a message had emitted a release for it. */
  ghost predicate AckedAfterRelease(past: Past) {
    forall m :: m in past.ackedBy ==>
      && past.ackedBy[m] in past.released && past.ackedBy[m] in past.begun
      && past.begun[past.ackedBy[m]] == m
  }

  ghost predicate Core(s: State) {
    && Partitioned(s.broker, s.past)
    && Guarded(s.work)
    && Recorded(s.work.handlers, s.past)
    && AckedAfterRelease(s.past)
  }

  lemma StepKeepsPartitioned(s: State, act: Action)
    requires Enabled(s, act) && Partitioned(s.broker, s.past)
    ensures Partitioned(StepBroker(s, act), StepPast(s, act))
  {
  }

  lemma StepKeepsRecorded(s: State, act: Action, a: Attempt)
    requires Enabled(s, act) && RecordedAt(s.work.handlers, s.past, a)
    ensures RecordedAt(StepWork(s, act).handlers, StepPast(s, act), a)
  {
  }

  lemma StepKeepsAcked(s: State, act: Action)
    requires Enabled(s, act) && Recorded(s.work.handlers, s.past) && AckedAfterRelease(s.past)
    ensures AckedAfterRelease(StepPast(s, act))
  {
    if act.Emit? || act.Forward? || act.AbortForward? || act.Begin? { assert RecordedAt(s.work.handlers, s.past, act.a); }
  }

  lemma StepKeepsCore(s: State, act: Action)
    requires Enabled(s, act) && Core(s)
    ensures Core(Step(s, act))
  {
    forall a | a in s.work.handlers ensures a in s.past.begun {
      assert RecordedAt(s.work.handlers, s.past, a);
    }
    StepKeepsGuarded(s, act);
    StepKeepsPartitioned(s, act);
    forall a ensures RecordedAt(StepWork(s, act).handlers, StepPast(s, act), a) {
      assert RecordedAt(s.work.handlers, s.past, a);
      StepKeepsRecorded(s, act, a);
    }
    StepKeepsAcked(s, act);
  }

  // ---------------------------------------------------------------------------------------
  // Asynchronous completion: exactly once

  /** What m has emitted: what aborted scripts left, then all of the acknowledging attempt's completion, or nothing more. */
  ghost predicate EmittedOnce(log: seq<Record>, past: Past, m: MsgId) {
    if m in past.ackedBy then
      && past.ackedBy[m] in past.plans
      && OfSource(log, m) == LeftoversOf(past.aborts, m) + Records(m, past.ackedBy[m], past.plans[past.ackedBy[m]])
    else
      OfSource(log, m) == LeftoversOf(past.aborts, m)
  }

  /** A leftover is a non-empty beginning of the completion of an attempt on its message. */
  ghost predicate IsBeginning(past: Past, x: Leftover) {
    && x.entries != []
    && x.attempt in past.begun && past.begun[x.attempt] == x.msg
    && x.attempt in past.plans && x.entries <= Records(x.msg, x.attempt, past.plans[x.attempt])
  }

  ghost predicate AsyncSafe(s: State) {
    && s.mode.Async? && Core(s)
    && (forall m :: EmittedOnce(s.broker.log, s.past, m))
    && (forall i :: 0 <= i < |s.past.aborts| ==> IsBeginning(s.past, s.past.aborts[i]))
  }

  lemma ForwardKeepsEmittedOnce(s: State, a: Attempt, m: MsgId)
    requires Enabled(s, Forward(a)) && Core(s) && EmittedOnce(s.broker.log, s.past, m)
    ensures EmittedOnce(StepBroker(s, Forward(a)).log, StepPast(s, Forward(a)), m)
  {
    assert RecordedAt(s.work.handlers, s.past, a);
    var h := s.work.handlers[a];
    if h.msg in s.broker.pending {
      var log := s.broker.log + Records(h.msg, a, h.phase.completion);
      ForwardedView(s.broker.log, h.msg, a, h.phase.completion, m);
      assert StepBroker(s, Forward(a)).log == log;
      assert h.msg !in s.broker.acked && h.msg !in s.past.ackedBy;
    }
  }

  /** Appending a completion adds it to the view of its message and to no other. */
  lemma ForwardedView(log: seq<Record>, src: MsgId, a: Attempt, c: Completion, m: MsgId)
    ensures OfSource(log + Records(src, a, c), m) == OfSource(log, m) + if src == m then Records(src, a, c) else []
  {
    OfSourceConcat(log, Records(src, a, c), m, src);
  }

  lemma LeftoversAppend(aborts: seq<Leftover>, x: Leftover, m: MsgId)
    ensures LeftoversOf(aborts + [x], m) == LeftoversOf(aborts, m) + if x.msg == m then x.entries else []
  {
    assert (aborts + [x])[..|aborts|] == aborts;
  }

  lemma AbortKeepsEmittedOnce(s: State, a: Attempt, k: nat, m: MsgId)
    requires Enabled(s, AbortForward(a, k)) && Core(s) && EmittedOnce(s.broker.log, s.past, m)
    ensures EmittedOnce(StepBroker(s, AbortForward(a, k)).log, StepPast(s, AbortForward(a, k)), m)
  {
    var x := LeftBy(s, a, k);
    LeftoversAppend(s.past.aborts, x, m);
    OfSourceConcat(s.broker.log, x.entries, m, x.msg);
    if x.msg == m {
      assert m !in s.broker.acked && m !in s.past.ackedBy;
    }
  }

  lemma StepKeepsEmittedOnce(s: State, act: Action, m: MsgId)
    requires Enabled(s, act) && s.mode.Async? && Core(s) && EmittedOnce(s.broker.log, s.past, m)
    ensures EmittedOnce(StepBroker(s, act).log, StepPast(s, act), m)
  {
    if act.Execute? { assert RecordedAt(s.work.handlers, s.past, act.a); }
    if act.Forward? { ForwardKeepsEmittedOnce(s, act.a, m); }
    if act.AbortForward? { AbortKeepsEmittedOnce(s, act.a, act.k, m); }
  }

  lemma StepKeepsBeginning(s: State, act: Action, x: Leftover)
    requires Enabled(s, act) && Recorded(s.work.handlers, s.past)
    requires IsBeginning(s.past, x) || (act.AbortForward? && x == LeftBy(s, act.a, act.k))
    ensures IsBeginning(StepPast(s, act), x)
  {
    if act.Execute? || act.AbortForward? { assert RecordedAt(s.work.handlers, s.past, act.a); }
  }

  lemma StepKeepsAsyncSafe(s: State, act: Action)
    requires Enabled(s, act) && AsyncSafe(s)
    ensures AsyncSafe(Step(s, act))
  {
    StepKeepsCore(s, act);
    forall m { StepKeepsEmittedOnce(s, act, m); }
    var aborts := StepPast(s, act).aborts;
    forall i | 0 <= i < |aborts| ensures IsBeginning(StepPast(s, act), aborts[i]) {
      StepKeepsBeginning(s, act, aborts[i]);
    }
  }

  lemma {:induction false} AsyncRunSafe(s: State, acts: seq<Action>)
    requires AsyncSafe(s) && IsRun(s, acts)
    ensures AsyncSafe(After(s, acts))
    decreases |acts|
  {
    if acts != [] {
      StepKeepsAsyncSafe(s, acts[0]);
      AsyncRunSafe(Step(s, acts[0]), acts[1..]);
    }
  }

  /** Releases of a message are all among the entries that came from it. */
  lemma {:induction false} ReleaseCountOfSource(log: seq<Record>, m: MsgId)
    ensures ReleaseCount(log, m) == ReleaseCount(OfSource(log, m), m)
    decreases |log|
  {
    if log != [] {
      var n := |log| - 1;
      ReleaseCountOfSource(log[..n], m);
      ReleaseCountAppend(OfSource(log[..n], m), log[n], m);
      assert OfSource(log[..n], m) + [] == OfSource(log[..n], m);
    }
  }

  lemma {:induction false} NoReleaseAmongPrimaries(rs: seq<Record>, m: MsgId)
    requires forall r :: r in rs ==> !r.isRelease
    ensures ReleaseCount(rs, m) == 0
    decreases |rs|
  {
    if rs != [] {
      assert rs[|rs| - 1] in rs;
      NoReleaseAmongPrimaries(rs[..|rs| - 1], m);
    }
  }

  lemma OneReleasePerCompletion(m: MsgId, a: Attempt, c: Completion)
    ensures ReleaseCount(Records(m, a, c), m) == 1
  {
    var rs := Records(m, a, c);
    NoReleaseAmongPrimaries(rs[..|c.primary|], m);
    ReleaseCountAppend(rs[..|c.primary|], rs[|c.primary|], m);
    assert rs == rs[..|c.primary|] + [rs[|c.primary|]];
  }

  /** No forward_many of m aborted. */
  ghost predicate NoneAborted(past: Past, m: MsgId) {
    forall i :: 0 <= i < |past.aborts| ==> past.aborts[i].msg != m
  }

  lemma {:induction false} NoLeftovers(aborts: seq<Leftover>, m: MsgId)
    requires forall i :: 0 <= i < |aborts| ==> aborts[i].msg != m
    ensures LeftoversOf(aborts, m) == []
    decreases |aborts|
  {
    if aborts != [] { NoLeftovers(aborts[..|aborts| - 1], m); }
  }

  lemma {:induction false} LeftoverStays(aborts: seq<Leftover>, m: MsgId, i: nat)
    requires i < |aborts| && aborts[i].msg == m && aborts[i].entries != []
    ensures |LeftoversOf(aborts, m)| > 0
    decreases |aborts|
  {
    if i < |aborts| - 1 { LeftoverStays(aborts[..|aborts| - 1], m, i); }
  }

  /** Leftovers of m are empty exactly when no forward_many of m aborted. */
  lemma LeftoversIff(s: State, m: MsgId)
    requires AsyncSafe(s)
    ensures LeftoversOf(s.past.aborts, m) == [] <==> NoneAborted(s.past, m)
  {
    if NoneAborted(s.past, m) {
      NoLeftovers(s.past.aborts, m);
    } else {
      var i :| 0 <= i < |s.past.aborts| && s.past.aborts[i].msg == m;
      assert IsBeginning(s.past, s.past.aborts[i]);
      LeftoverStays(s.past.aborts, m, i);
    }
  }

  lemma EmptyFront<T>(front: seq<T>, back: seq<T>)
    ensures front + back == back <==> front == []
  {
    assert |front + back| == |front| + |back|;
  }

  /** An acknowledged message has emitted every output of one attempt, in order, followed by its only release; any other one nothing. */
  ghost predicate AllOrNothing(s: State, m: MsgId) {
    if m in s.broker.acked then
      && m in s.past.ackedBy && s.past.ackedBy[m] in s.past.plans
      && SendsAll(OfSource(s.broker.log, m), m, s.past.ackedBy[m], s.past.plans[s.past.ackedBy[m]])
      && ReleaseCount(s.broker.log, m) == 1
    else
      OfSource(s.broker.log, m) == [] && ReleaseCount(s.broker.log, m) == 0
  }

  lemma AllOrNothingIff(s: State, m: MsgId)
    requires AsyncSafe(s)
    ensures AllOrNothing(s, m) <==> NoneAborted(s.past, m)
  {
    ReleaseCountOfSource(s.broker.log, m);
    assert EmittedOnce(s.broker.log, s.past, m);
    LeftoversIff(s, m);
    if m in s.broker.acked {
      var whole := Records(m, s.past.ackedBy[m], s.past.plans[s.past.ackedBy[m]]);
      RecordsSend(OfSource(s.broker.log, m), m, s.past.ackedBy[m], s.past.plans[s.past.ackedBy[m]]);
      EmptyFront(LeftoversOf(s.past.aborts, m), whole);
      OneReleasePerCompletion(m, s.past.ackedBy[m], s.past.plans[s.past.ackedBy[m]]);
    }
  }

  /**
    Over every interleaving of reads, claims, executions, failures, crashes, completions and aborted
    scripts: no message is lost, and a message is emitted exactly once if acknowledged and not at all
    before, if and only if no forward_many of it aborted.
  */
  lemma AsyncExactlyOnce(acts: seq<Action>, m: MsgId)
    requires IsRun(Init(Async), acts)
    ensures var s := After(Init(Async), acts);
            var b := s.broker;
            && (m in s.past.produced && m !in b.acked ==> (m in b.undelivered) != (m in b.pending))
            && (m in b.acked ==> m in s.past.produced && m !in b.undelivered && m !in b.pending)
            && (AllOrNothing(s, m) <==> NoneAborted(s.past, m))
  {
    AsyncRunSafe(Init(Async), acts);
    AllOrNothingIff(After(Init(Async), acts), m);
  }

  /**
    Whatever aborted: a message has emitted the beginnings its aborted scripts left, in order, and,
    once acknowledged, after them all outputs and the release of the acknowledging attempt.
  */
  lemma AsyncAtLeastOnce(acts: seq<Action>, m: MsgId)
    requires IsRun(Init(Async), acts)
    ensures var s := After(Init(Async), acts);
            var view, left := OfSource(s.broker.log, m), LeftoversOf(s.past.aborts, m);
            && left <= view
            && (m !in s.broker.acked ==> view == left)
            && (m in s.broker.acked ==>
                  && m in s.past.ackedBy && s.past.ackedBy[m] in s.past.plans
                  && SendsAll(view[|left|..], m, s.past.ackedBy[m], s.past.plans[s.past.ackedBy[m]]))
            && forall i :: 0 <= i < |s.past.aborts| ==> LeavesBeginning(s.past, s.past.aborts[i])
  {
    AsyncRunSafe(Init(Async), acts);
    var s := After(Init(Async), acts);
    assert EmittedOnce(s.broker.log, s.past, m);
    var view, left := OfSource(s.broker.log, m), LeftoversOf(s.past.aborts, m);
    if m in s.broker.acked {
      RecordsSend(view[|left|..], m, s.past.ackedBy[m], s.past.plans[s.past.ackedBy[m]]);
    }
    forall i | 0 <= i < |s.past.aborts| ensures LeavesBeginning(s.past, s.past.aborts[i]) {
      var x := s.past.aborts[i];
      assert IsBeginning(s.past, x);
      RecordsSend(x.entries, x.msg, x.attempt, s.past.plans[x.attempt]);
    }
  }

  /** A leftover holds the first outputs, at least one, of an attempt on its message. */
  ghost predicate LeavesBeginning(past: Past, x: Leftover) {
    && x.attempt in past.begun && past.begun[x.attempt] == x.msg && x.attempt in past.plans
    && x.entries != [] && Sends(x.entries, x.msg, x.attempt, past.plans[x.attempt], |x.entries|)
  }

  /** A run without aborted scripts leaves nothing behind. */
  lemma {:induction false} NoAbortNoLeftover(s: State, acts: seq<Action>)
    requires IsRun(s, acts) && forall i :: 0 <= i < |acts| ==> !acts[i].AbortForward?
    ensures After(s, acts).past.aborts == s.past.aborts
    decreases |acts|
  {
    if acts != [] {
      assert !acts[0].AbortForward?;
      NoAbortNoLeftover(Step(s, acts[0]), acts[1..]);
    }
  }

  // ---------------------------------------------------------------------------------------
  // Synchronous completion: at least once

  /** Calls made so far that append an entry. */
  function Appended(c: Completion, done: nat): nat {
    if done <= |c.primary| then done else |c.primary| + 1
  }

  /** Attempt a has emitted a prefix of its own completion, all of it once it has released. */
  ghost predicate EmittedPrefix(log: seq<Record>, handlers: map<Attempt, Handler>, past: Past, a: Attempt) {
    if a !in past.plans || a !in past.begun then OfAttempt(log, a) == []
    else
      var rs := Records(past.begun[a], a, past.plans[a]);
      && OfAttempt(log, a) <= rs
      && (a in past.released ==> OfAttempt(log, a) == rs)
      && (a in handlers && handlers[a].phase.Completing? ==>
            |OfAttempt(log, a)| == Appended(past.plans[a], handlers[a].phase.done))
  }

  ghost predicate SyncSafe(s: State) {
    && s.mode.Sync? && Core(s)
    && (forall a :: EmittedPrefix(s.broker.log, s.work.handlers, s.past, a))
    && (forall m :: ReleaseCount(s.broker.log, m) == |ReleasersOf(s.past, m)|)
  }

  lemma CallKeepsOthers(b: Broker, a: Attempt, h: Handler, other: Attempt)
    requires CanCall(h) && other != a
    ensures OfAttempt(CallBroker(b, a, h).log, other) == OfAttempt(b.log, other)
  {
    if h.phase.done <= |h.phase.completion.primary| {
      var r := Records(h.msg, a, h.phase.completion)[h.phase.done];
      OfAttemptAppend(b.log, r, other);
      assert r.attempt == a;
      assert OfAttempt(b.log, other) + [] == OfAttempt(b.log, other);
    }
  }

  /** A call extends the caller's own emission by exactly the next entry of its completion. */
  lemma CallExtendsPrefix(b: Broker, a: Attempt, h: Handler)
    requires CanCall(h)
    requires OfAttempt(b.log, a) == Records(h.msg, a, h.phase.completion)[..Appended(h.phase.completion, h.phase.done)]
    ensures OfAttempt(CallBroker(b, a, h).log, a) ==
            Records(h.msg, a, h.phase.completion)[..Appended(h.phase.completion, h.phase.done + 1)]
  {
    var k := h.phase.done;
    var rs := Records(h.msg, a, h.phase.completion);
    if k <= |h.phase.completion.primary| {
      OfAttemptAppend(b.log, rs[k], a);
      assert rs[..k] + [rs[k]] == rs[..k + 1];
    }
  }

  lemma EmitKeepsOwnPrefix(s: State, a: Attempt)
    requires Enabled(s, Emit(a)) && RecordedAt(s.work.handlers, s.past, a)
    requires EmittedPrefix(s.broker.log, s.work.handlers, s.past, a)
    ensures EmittedPrefix(StepBroker(s, Emit(a)).log, StepWork(s, Emit(a)).handlers, StepPast(s, Emit(a)), a)
  {
    CallExtendsPrefix(s.broker, a, s.work.handlers[a]);
  }

  lemma EmitKeepsOtherPrefix(s: State, a: Attempt, b: Attempt)
    requires Enabled(s, Emit(a)) && a != b
    requires EmittedPrefix(s.broker.log, s.work.handlers, s.past, b)
    ensures EmittedPrefix(StepBroker(s, Emit(a)).log, StepWork(s, Emit(a)).handlers, StepPast(s, Emit(a)), b)
  {
    CallKeepsOthers(s.broker, a, s.work.handlers[a], b);
  }

  lemma EmitKeepsEmittedPrefix(s: State, a: Attempt, b: Attempt)
    requires Enabled(s, Emit(a)) && Recorded(s.work.handlers, s.past)
    requires EmittedPrefix(s.broker.log, s.work.handlers, s.past, b)
    ensures EmittedPrefix(StepBroker(s, Emit(a)).log, StepWork(s, Emit(a)).handlers, StepPast(s, Emit(a)), b)
  {
    if a == b {
      assert RecordedAt(s.work.handlers, s.past, a);
      EmitKeepsOwnPrefix(s, a);
    } else {
      EmitKeepsOtherPrefix(s, a, b);
    }
  }

  /** A call adds to the count of releases of m exactly when it emits the release of m. */
  lemma CallReleases(b: Broker, a: Attempt, h: Handler, m: MsgId)
    requires CanCall(h)
    ensures ReleaseCount(CallBroker(b, a, h).log, m) ==
              ReleaseCount(b.log, m) + if h.phase.done == |h.phase.completion.primary| && h.msg == m then 1 else 0
  {
    var k := h.phase.done;
    if k <= |h.phase.completion.primary| {
      var r := Records(h.msg, a, h.phase.completion)[k];
      assert r.source == h.msg && (r.isRelease <==> k == |h.phase.completion.primary|);
      ReleaseCountAppend(b.log, r, m);
    }
  }

  lemma CallReleasers(s: State, a: Attempt, h: Handler, m: MsgId)
    requires CanCall(h) && a in s.past.begun && s.past.begun[a] == h.msg
    ensures ReleasersOf(CallPast(s.broker, s.past, a, h), m) ==
              ReleasersOf(s.past, m) + if h.phase.done == |h.phase.completion.primary| && h.msg == m then {a} else {}
  {
  }

  lemma EmitKeepsReleaseCount(s: State, a: Attempt, m: MsgId)
    requires Enabled(s, Emit(a)) && RecordedAt(s.work.handlers, s.past, a)
    requires ReleaseCount(s.broker.log, m) == |ReleasersOf(s.past, m)|
    ensures ReleaseCount(StepBroker(s, Emit(a)).log, m) == |ReleasersOf(StepPast(s, Emit(a)), m)|
  {
    CallReleases(s.broker, a, s.work.handlers[a], m);
    CallReleasers(s, a, s.work.handlers[a], m);
  }

  /** Steps other than a synchronous call emit nothing and never change a plan. */
  lemma SilentStep(s: State, act: Action, a: Attempt)
    requires Enabled(s, act) && s.mode.Sync? && !act.Emit? && Recorded(s.work.handlers, s.past)
    requires EmittedPrefix(s.broker.log, s.work.handlers, s.past, a)
    ensures StepBroker(s, act).log == s.broker.log
    ensures EmittedPrefix(s.broker.log, StepWork(s, act).handlers, StepPast(s, act), a)
  {
    assert RecordedAt(s.work.handlers, s.past, a);
  }

  lemma SilentStepReleasers(s: State, act: Action, m: MsgId)
    requires Enabled(s, act) && s.mode.Sync? && !act.Emit? && Recorded(s.work.handlers, s.past)
    ensures StepBroker(s, act).log == s.broker.log
    ensures ReleasersOf(StepPast(s, act), m) == ReleasersOf(s.past, m)
  {
    if act.Begin? { assert RecordedAt(s.work.handlers, s.past, act.a); }
  }

  lemma StepKeepsSyncSafe(s: State, act: Action)
    requires Enabled(s, act) && SyncSafe(s)
    ensures SyncSafe(Step(s, act))
  {
    StepKeepsCore(s, act);
    if act.Emit? {
      assert RecordedAt(s.work.handlers, s.past, act.a);
      forall b { EmitKeepsEmittedPrefix(s, act.a, b); }
      forall m { EmitKeepsReleaseCount(s, act.a, m); }
    } else {
      forall b { SilentStep(s, act, b); }
      forall m { SilentStepReleasers(s, act, m); }
    }
  }

  lemma {:induction false} SyncRunSafe(s: State, acts: seq<Action>)
    requires SyncSafe(s) && IsRun(s, acts)
    ensures SyncSafe(After(s, acts))
    decreases |acts|
  {
    if acts != [] {
      StepKeepsSyncSafe(s, acts[0]);
      SyncRunSafe(Step(s, acts[0]), acts[1..]);
    }
  }

  lemma SyncInit()
    ensures SyncSafe(Init(Sync))
  {
    assert forall n :: ReleasersOf(Init(Sync).past, n) == {};
  }

  lemma FewerReleasers(past: Past, m: MsgId)
    ensures |ReleasersOf(past, m)| <= |AttemptsOn(past, m)|
  {
    var rest := AttemptsOn(past, m) - ReleasersOf(past, m);
    assert AttemptsOn(past, m) == ReleasersOf(past, m) + rest;
  }

  lemma AckedHasEmitted(s: State, m: MsgId)
    requires SyncSafe(s) && m in s.broker.acked
    ensures m in s.past.produced && m in s.past.ackedBy && s.past.ackedBy[m] in s.past.plans
    ensures OfAttempt(s.broker.log, s.past.ackedBy[m]) == Records(m, s.past.ackedBy[m], s.past.plans[s.past.ackedBy[m]])
  {
    var a := s.past.ackedBy[m];
    assert RecordedAt(s.work.handlers, s.past, a);
    assert EmittedPrefix(s.broker.log, s.work.handlers, s.past, a);
  }

  /**
    At least once, with failures and crashes between any two Redis calls: an acknowledged message
    has had every primary output and the release of one attempt emitted, in order, before the
    acknowledgement; an unacknowledged one is still undelivered or pending; an attempt emits a
    prefix of its completion; and a message never has more releases than handling attempts.
  */
  lemma SyncAtLeastOnce(acts: seq<Action>, m: MsgId, a: Attempt)
    requires IsRun(Init(Sync), acts)
    ensures var s := After(Init(Sync), acts);
            var b := s.broker;
            && (m in s.past.produced && m !in b.acked ==> (m in b.undelivered) != (m in b.pending))
            && (m in b.acked ==>
                  && m in s.past.produced && m in s.past.ackedBy && s.past.ackedBy[m] in s.past.plans
                  && SendsAll(OfAttempt(b.log, s.past.ackedBy[m]), m, s.past.ackedBy[m], s.past.plans[s.past.ackedBy[m]]))
            && (a !in s.past.plans ==> OfAttempt(b.log, a) == [])
            && (a in s.past.plans ==>
                  && a in s.past.begun
                  && Sends(OfAttempt(b.log, a), s.past.begun[a], a, s.past.plans[a], |OfAttempt(b.log, a)|))
            && ReleaseCount(b.log, m) <= |AttemptsOn(s.past, m)|
  {
    SyncInit();
    SyncRunSafe(Init(Sync), acts);
    var s := After(Init(Sync), acts);
    FewerReleasers(s.past, m);
    assert RecordedAt(s.work.handlers, s.past, a);
    assert EmittedPrefix(s.broker.log, s.work.handlers, s.past, a);
    if a in s.past.plans { RecordsSend(OfAttempt(s.broker.log, a), s.past.begun[a], a, s.past.plans[a]); }
    if m in s.broker.acked {
      AckedHasEmitted(s, m);
      var b := s.past.ackedBy[m];
      RecordsSend(OfAttempt(s.broker.log, b), m, b, s.past.plans[b]);
    }
  }

  // ---------------------------------------------------------------------------------------
  // When synchronous completion is exactly once

  /** An entry is in the view of its own attempt. */
  lemma {:induction false} InOwnView(log: seq<Record>, i: nat)
    requires i < |log|
    ensures log[i] in OfAttempt(log, log[i].attempt)
    decreases |log|
  {
    if i < |log| - 1 { InOwnView(log[..|log| - 1], i); }
  }

  lemma RecordsComeFrom(m: MsgId, a: Attempt, c: Completion, r: Record)
    requires r in Records(m, a, c)
    ensures r.source == m && r.attempt == a
  {
  }

  /** Every entry came from an attempt on the message it names. */
  lemma EntryIsOwned(s: State, i: nat)
    requires SyncSafe(s) && i < |s.broker.log|
    ensures var r := s.broker.log[i];
            r.attempt in s.past.begun && s.past.begun[r.attempt] == r.source
  {
    var r := s.broker.log[i];
    InOwnView(s.broker.log, i);
    assert RecordedAt(s.work.handlers, s.past, r.attempt);
    assert EmittedPrefix(s.broker.log, s.work.handlers, s.past, r.attempt);
    RecordsComeFrom(s.past.begun[r.attempt], r.attempt, s.past.plans[r.attempt], r);
  }

  /** Views that agree on which entries they take are equal. */
  lemma {:induction false} ViewsAgree(log: seq<Record>, m: MsgId, a: Attempt)
    requires forall i :: 0 <= i < |log| ==> (log[i].source == m <==> log[i].attempt == a)
    ensures OfSource(log, m) == OfAttempt(log, a)
    decreases |log|
  {
    if log != [] { ViewsAgree(log[..|log| - 1], m, a); }
  }

  lemma {:induction false} InSourceView(log: seq<Record>, m: MsgId, i: nat)
    requires i < |log| && log[i].source == m
    ensures log[i] in OfSource(log, m)
    decreases |log|
  {
    if i < |log| - 1 { InSourceView(log[..|log| - 1], m, i); }
  }

  lemma {:induction false} EmptyView(log: seq<Record>, a: Attempt)
    ensures OfAttempt(log, a) == [] <==> forall i :: 0 <= i < |log| ==> log[i].attempt != a
    decreases |log|
  {
    if log != [] { EmptyView(log[..|log| - 1], a); }
  }

  /** No attempt on m other than a has emitted anything. */
  ghost predicate OnlyOneEmitted(s: State, m: MsgId, a: Attempt) {
    forall b :: b in s.past.begun && s.past.begun[b] == m && b != a ==> OfAttempt(s.broker.log, b) == []
  }

  lemma OneCompletionIff(s: State, m: MsgId)
    requires SyncSafe(s) && m in s.broker.acked
    ensures m in s.past.ackedBy && s.past.ackedBy[m] in s.past.plans
    ensures var a := s.past.ackedBy[m];
            OfSource(s.broker.log, m) == Records(m, a, s.past.plans[a]) <==> OnlyOneEmitted(s, m, a)
  {
    AckedHasEmitted(s, m);
    var log, a := s.broker.log, s.past.ackedBy[m];
    if OnlyOneEmitted(s, m, a) {
      forall i | 0 <= i < |log| ensures log[i].source == m <==> log[i].attempt == a {
        EntryIsOwned(s, i);
        EmptyView(log, log[i].attempt);
      }
      ViewsAgree(log, m, a);
    } else {
      var b :| b in s.past.begun && s.past.begun[b] == m && b != a && OfAttempt(log, b) != [];
      EmptyView(log, b);
      var i :| 0 <= i < |log| && log[i].attempt == b;
      EntryIsOwned(s, i);
      InSourceView(log, m, i);
      if log[i] in Records(m, a, s.past.plans[a]) { RecordsComeFrom(m, a, s.past.plans[a], log[i]); }
    }
  }

  lemma OneAttemptSuffices(s: State, m: MsgId)
    requires SyncSafe(s) && m in s.broker.acked && |AttemptsOn(s.past, m)| == 1
    ensures m in s.past.ackedBy && OnlyOneEmitted(s, m, s.past.ackedBy[m])
  {
    var on, a := AttemptsOn(s.past, m), s.past.ackedBy[m];
    assert a in on && |on - {a}| == 0;
    forall b | b in s.past.begun && s.past.begun[b] == m ensures b == a {
      assert b in on && b !in on - {a};
    }
  }

  /**
    Over every run: an acknowledged message has emitted one completion and nothing else exactly when
    only its acknowledging attempt emitted, and so whenever it was handled only once.
  */
  lemma SyncExactlyOnceIff(acts: seq<Action>, m: MsgId)
    requires IsRun(Init(Sync), acts) && m in After(Init(Sync), acts).broker.acked
    ensures var s := After(Init(Sync), acts);
            && m in s.past.ackedBy && s.past.ackedBy[m] in s.past.plans
            && (SendsAll(OfSource(s.broker.log, m), m, s.past.ackedBy[m], s.past.plans[s.past.ackedBy[m]])
                <==> OnlyOneEmitted(s, m, s.past.ackedBy[m]))
            && (|AttemptsOn(s.past, m)| == 1 ==> OnlyOneEmitted(s, m, s.past.ackedBy[m]))
  {
    SyncInit();
    SyncRunSafe(Init(Sync), acts);
    var s := After(Init(Sync), acts);
    OneCompletionIff(s, m);
    RecordsSend(OfSource(s.broker.log, m), m, s.past.ackedBy[m], s.past.plans[s.past.ackedBy[m]]);
    if |AttemptsOn(s.past, m)| == 1 { OneAttemptSuffices(s, m); }
  }

  /** In both modes the in-flight set of a process is exactly the non-empty ids it is handling, each once. */
  lemma InFlightIsExact(mode: Mode, acts: seq<Action>, p: ProcId)
    requires IsRun(Init(mode), acts)
    ensures var w := After(Init(mode), acts).work;
            && (p in w.procs ==> w.procs[p].inFlight == Handled(w.handlers, p))
            && (forall a, b :: a in w.handlers && b in w.handlers && SameJob(w.handlers[a], w.handlers[b]) ==> a == b)
  {
    if mode.Sync? {
      SyncInit();
      SyncRunSafe(Init(mode), acts);
    } else {
      AsyncRunSafe(Init(mode), acts);
    }
  }
}
