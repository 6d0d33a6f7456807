/**
  What the cancellation probes are for: an abort is noticed. A call that is still under way when the
  worker is shut down or its probe's event is set answers yes, polls are served in the order in which
  they were queued, and from every reachable state a published terminal key can still be found.
*/
module AbortProgress {
  import opened AbortProbe
  import opened AbortSafety

  // ---------------------------------------------------------------------------------------
  // An abort during a call is seen

  /** The call will still read an event that is set. */
  predicate WillSee(s: State, c: nat) {
    && c < |s.callers| && !s.callers[c].Idle? && s.callers[c].p < |s.probes|
    && ((s.env.shutdown && !s.callers[c].SecondNoShutdown?) || s.probes[s.callers[c].p].terminal)
  }

  /** A yes of the call that began with `since` was given after the first n answers. */
  predicate SaidYesSince(answers: seq<Answer>, n: nat, p: nat, since: nat) {
    exists i :: n <= i < |answers| && answers[i] == Answer(p, since, true)
  }

  lemma StepIsSeen(s: State, a: Action, c: nat)
    requires Enabled(s, a) && WillSee(s, c)
    ensures var t, p, since := Step(s, a), s.callers[c].p, s.callers[c].since;
            || (WillSee(t, c) && t.callers[c].p == p && t.callers[c].since == since)
            || SaidYesSince(t.answers, |s.answers|, p, since)
  {
    var t, p, since := Step(s, a), s.callers[c].p, s.callers[c].since;
    StepKeepsAborted(s, a, p);
    if CallerAction(a) && a.c == c && t.callers[c].Idle? {
      assert t.answers[|s.answers|] == Answer(p, since, true);
    }
  }

  lemma {:induction false} RunGrows(s: State, acts: seq<Action>)
    requires IsRun(s, acts)
    ensures s.answers <= After(s, acts).answers
    decreases |acts|
  {
    if |acts| > 0 {
      AnswersGrow(s, acts[0]);
      RunGrows(Step(s, acts[0]), acts[1..]);
    }
  }

  /** Whatever happens meanwhile, a call that will see an abort is still under way or has answered yes. */
  lemma {:induction false} AbortIsSeen(s: State, acts: seq<Action>, c: nat)
    requires IsRun(s, acts) && WillSee(s, c)
    ensures var t, p, since := After(s, acts), s.callers[c].p, s.callers[c].since;
            || (WillSee(t, c) && t.callers[c].p == p && t.callers[c].since == since)
            || SaidYesSince(t.answers, |s.answers|, p, since)
    decreases |acts|
  {
    if |acts| > 0 {
      var t := Step(s, acts[0]);
      StepIsSeen(s, acts[0], c);
      AnswersGrow(s, acts[0]);
      RunGrows(t, acts[1..]);
      if SaidYesSince(t.answers, |s.answers|, s.callers[c].p, s.callers[c].since) {
        var i :| |s.answers| <= i < |t.answers| && t.answers[i] == Answer(s.callers[c].p, s.callers[c].since, true);
        assert After(s, acts).answers[i] == t.answers[i];
      } else {
        AbortIsSeen(t, acts[1..], c);
      }
    }
  }

  // ---------------------------------------------------------------------------------------
  // Polls are served in order

  function QueuedBy(s: State, a: Action): seq<nat>
    requires Enabled(s, a)
  {
    if a.Submit? && |s.pool.queue| < QUEUE_SIZE then [s.callers[a.c].p] else []
  }

  function TakenBy(s: State, a: Action): seq<nat>
    requires Enabled(s, a)
  {
    if a.Take? then [s.pool.queue[0]] else []
  }

  /** The probes whose polls were queued along a run. */
  ghost function Queued(s: State, acts: seq<Action>): seq<nat>
    requires IsRun(s, acts)
    decreases |acts|
  {
    if |acts| == 0 then [] else QueuedBy(s, acts[0]) + Queued(Step(s, acts[0]), acts[1..])
  }

  /** The probes whose polls were taken by a thread along a run. */
  ghost function Taken(s: State, acts: seq<Action>): seq<nat>
    requires IsRun(s, acts)
    decreases |acts|
  {
    if |acts| == 0 then [] else TakenBy(s, acts[0]) + Taken(Step(s, acts[0]), acts[1..])
  }

  lemma QueueStep(s: State, a: Action)
    requires Enabled(s, a)
    ensures s.pool.queue + QueuedBy(s, a) == TakenBy(s, a) + Step(s, a).pool.queue
  {
  }

  /** Over every run polls are taken in the order in which they were queued, and none is dropped. */
  lemma {:induction false} PollsAreServedInOrder(s: State, acts: seq<Action>)
    requires IsRun(s, acts)
    ensures Taken(s, acts) + After(s, acts).pool.queue == s.pool.queue + Queued(s, acts)
    decreases |acts|
  {
    if |acts| > 0 {
      var t := Step(s, acts[0]);
      PollsAreServedInOrder(t, acts[1..]);
      QueueStep(s, acts[0]);
      Regroup(TakenBy(s, acts[0]), Taken(t, acts[1..]), After(s, acts).pool.queue,
              t.pool.queue, Queued(t, acts[1..]), s.pool.queue, QueuedBy(s, acts[0]));
    }
  }

  lemma Regroup<T>(x: seq<T>, a: seq<T>, b: seq<T>, c: seq<T>, d: seq<T>, q: seq<T>, n: seq<T>)
    requires a + b == c + d && q + n == x + c
    ensures (x + a) + b == q + (n + d)
  {
    assert (x + a) + b == x + (a + b);
    assert x + (c + d) == (x + c) + d;
    assert (q + n) + d == q + (n + d);
  }

  // ---------------------------------------------------------------------------------------
  // Everything under way can come to rest

  /** Queued and running polls are polls of probes there are. */
  predicate Wired(s: State) {
    && (forall i :: 0 <= i < |s.pool.queue| ==> s.pool.queue[i] < |s.probes|)
    && (forall w :: 0 <= w < |s.pool.daemons| && !s.pool.daemons[w].Free? ==> s.pool.daemons[w].p < |s.probes|)
  }

  ghost predicate Live(s: State) {
    Safe(s) && Wired(s)
  }

  /** The probes are the same ones, each as pollable as it was. */
  predicate SameProbes(s: State, t: State) {
    |t.probes| == |s.probes| && |t.callers| == |s.callers| && forall p :: 0 <= p < |s.probes| ==> t.probes[p].pollable == s.probes[p].pollable
  }

  lemma StepKeepsProbes(s: State, a: Action)
    requires Enabled(s, a)
    ensures SameProbes(s, Step(s, a))
  {
  }

  lemma StepKeepsWired(s: State, a: Action)
    requires Enabled(s, a) && Wired(s)
    ensures Wired(Step(s, a))
  {
    var t := Step(s, a);
    StepKeepsProbes(s, a);
    forall i | 0 <= i < |t.pool.queue| ensures t.pool.queue[i] < |t.probes| {
      if a.Take? { assert t.pool.queue[i] == s.pool.queue[i + 1]; }
    }
    forall w | 0 <= w < |t.pool.daemons| && !t.pool.daemons[w].Free? ensures t.pool.daemons[w].p < |t.probes| {
      if a.Take? && a.w == w { assert t.pool.daemons[w].p == s.pool.queue[0]; }
    }
  }

  lemma {:induction false} RunIsLive(s: State, acts: seq<Action>)
    requires Live(s) && IsRun(s, acts)
    ensures Live(After(s, acts))
    decreases |acts|
  {
    if |acts| > 0 {
      StepKeepsSafe(s, acts[0]);
      StepKeepsWired(s, acts[0]);
      RunIsLive(Step(s, acts[0]), acts[1..]);
    }
  }

  /** The steps a thread still makes, counting those of the poll it submits. */
  function CallerCost(c: Caller): nat {
    match c
    case Idle => 0
    case SecondNoShutdown(_, _) => 1
    case Second(_, _) => 2
    case Refused(_, _) => 3
    case Claimed(_, _) => 8
    case HasNow(_, _, _) => 9
    case Due(_, _) => 10
    case NoShutdown(_, _) => 11
    case Began(_, _) => 12
  }

  function DaemonCost(d: Daemon): nat {
    match d case Free => 0 case Looked(_) => 1 case Found(_) => 2 case Running(_) => 3
  }

  function CallersCost(cs: seq<Caller>): nat {
    if |cs| == 0 then 0 else CallersCost(cs[..|cs| - 1]) + CallerCost(cs[|cs| - 1])
  }

  function DaemonsCost(ds: seq<Daemon>): nat {
    if |ds| == 0 then 0 else DaemonsCost(ds[..|ds| - 1]) + DaemonCost(ds[|ds| - 1])
  }

  function Cost(s: State): nat {
    CallersCost(s.callers) + 5 * |s.pool.queue| + DaemonsCost(s.pool.daemons)
  }

  lemma {:induction false} CallersCostUpdate(cs: seq<Caller>, i: nat, x: Caller)
    requires i < |cs|
    ensures CallersCost(cs[i := x]) == CallersCost(cs) - CallerCost(cs[i]) + CallerCost(x)
  {
    if i < |cs| - 1 {
      assert cs[i := x][..|cs| - 1] == cs[..|cs| - 1][i := x];
      CallersCostUpdate(cs[..|cs| - 1], i, x);
    } else {
      assert cs[i := x][..|cs| - 1] == cs[..|cs| - 1];
    }
  }

  lemma {:induction false} DaemonsCostUpdate(ds: seq<Daemon>, i: nat, x: Daemon)
    requires i < |ds|
    ensures DaemonsCost(ds[i := x]) == DaemonsCost(ds) - DaemonCost(ds[i]) + DaemonCost(x)
  {
    if i < |ds| - 1 {
      assert ds[i := x][..|ds| - 1] == ds[..|ds| - 1][i := x];
      DaemonsCostUpdate(ds[..|ds| - 1], i, x);
    } else {
      assert ds[i := x][..|ds| - 1] == ds[..|ds| - 1];
    }
  }

  /** The next step of a thread inside a call. */
  function CallerNext(caller: Caller, c: nat): Action
    requires !caller.Idle?
  {
    match caller
    case Began(_, _) => ReadShutdown(c)
    case Second(_, _) => ReadShutdown(c)
    case NoShutdown(_, _) => ReadTerminal(c)
    case SecondNoShutdown(_, _) => ReadTerminal(c)
    case Due(_, _) => ReadClock(c)
    case HasNow(_, _, _) => Lock(c)
    case Claimed(_, _) => Submit(c)
    case Refused(_, _) => Reset(c)
  }

  function DaemonNext(d: Daemon, w: nat): Action
    requires !d.Free?
  {
    match d case Running(_) => Look(w, false) case Found(_) => SetEvent(w) case Looked(_) => Finish(w)
  }

  lemma CallerProgresses(s: State, c: nat)
    requires c < |s.callers| && !s.callers[c].Idle? && s.callers[c].p < |s.probes|
    ensures var a := CallerNext(s.callers[c], c); Enabled(s, a) && Cost(Step(s, a)) < Cost(s)
  {
    var a, caller := CallerNext(s.callers[c], c), s.callers[c];
    CallersCostUpdate(s.callers, c, StepCaller(caller, s.env, s.probes[caller.p], |s.pool.queue| >= QUEUE_SIZE));
  }

  lemma DaemonProgresses(s: State, w: nat)
    requires w < |s.pool.daemons| && !s.pool.daemons[w].Free? && s.pool.daemons[w].p < |s.probes|
    ensures var a := DaemonNext(s.pool.daemons[w], w); Enabled(s, a) && Cost(Step(s, a)) < Cost(s)
  {
    var d := s.pool.daemons[w];
    DaemonsCostUpdate(s.pool.daemons, w, if d.Running? then SeenBy(d.p, s.env, false) else if d.Found? then Looked(d.p) else Free);
  }

  lemma TakeProgresses(s: State, w: nat)
    requires w < |s.pool.daemons| && s.pool.daemons[w].Free? && |s.pool.queue| > 0
    ensures Enabled(s, Take(w)) && Cost(Step(s, Take(w))) < Cost(s)
  {
    DaemonsCostUpdate(s.pool.daemons, w, Running(s.pool.queue[0]));
  }

  /** No thread is inside a call and no poll is queued or running. */
  predicate AtRest(s: State) {
    && (forall c :: 0 <= c < |s.callers| ==> s.callers[c].Idle?)
    && s.pool.queue == []
    && (forall w :: 0 <= w < |s.pool.daemons| ==> s.pool.daemons[w].Free?)
  }

  /** A step that brings the threads closer to rest. */
  lemma NextStep(s: State) returns (a: Action)
    requires Live(s) && !AtRest(s)
    ensures Enabled(s, a) && Cost(Step(s, a)) < Cost(s) && StepEnv(s.env, a) == s.env && !a.Call?
  {
    if c: nat :| c < |s.callers| && !s.callers[c].Idle? {
      assert OnCourse(s, s.callers[c]);
      CallerProgresses(s, c);
      a := CallerNext(s.callers[c], c);
    } else if w: nat :| w < |s.pool.daemons| && !s.pool.daemons[w].Free? {
      DaemonProgresses(s, w);
      a := DaemonNext(s.pool.daemons[w], w);
    } else {
      TakeProgresses(s, 0);
      a := Take(0);
    }
  }

  // ---------------------------------------------------------------------------------------
  // A published key can be found

  /** The stages of a call and of the poll it starts, up to its answer. */
  datatype Phase = Calling | Unaborted | PollDue | ClockRead | Claiming | InQueue | Polling | KeyFound | EventSet | Answering

  function CallerIn(phase: Phase, p: nat, since: nat, clock: int): Caller {
    match phase
    case Calling => Began(p, since)
    case Unaborted => NoShutdown(p, since)
    case PollDue => Due(p, since)
    case ClockRead => HasNow(p, since, clock)
    case Claiming => Claimed(p, since)
    case Answering => SecondNoShutdown(p, since)
    case _ => Second(p, since)
  }

  function DaemonIn(phase: Phase, p: nat): Daemon {
    match phase
    case Polling => Running(p)
    case KeyFound => Found(p)
    case EventSet => Looked(p)
    case Answering => Looked(p)
    case _ => Free
  }

  /** Call c of probe p has come this far in a worker that is not shut down, with the key of p published. */
  predicate InPhase(s: State, c: nat, p: nat, since: nat, phase: Phase) {
    && c < |s.callers| && s.callers[c] == CallerIn(phase, p, since, s.env.clock)
    && p < |s.probes| && s.probes[p].pollable && p in s.env.keys && !s.env.shutdown
    && s.probes[p].terminal == (phase.EventSet? || phase.Answering?)
    && s.pool.queue == (if phase.InQueue? then [p] else [])
    && |s.pool.daemons| == WORKERS && s.pool.daemons[0] == DaemonIn(phase, p)
    && (phase.Calling? || phase.Unaborted? || phase.PollDue? || phase.ClockRead? ==> Starts(s.probes[p], s.env.clock))
  }

  function ActionIn(phase: Phase, c: nat): Action {
    match phase
    case Calling => ReadShutdown(c)
    case Unaborted => ReadTerminal(c)
    case PollDue => ReadClock(c)
    case ClockRead => Lock(c)
    case Claiming => Submit(c)
    case InQueue => Take(0)
    case Polling => Look(0, false)
    case KeyFound => SetEvent(0)
    case EventSet => ReadShutdown(c)
    case Answering => ReadTerminal(c)
  }

  function NextPhase(phase: Phase): Phase {
    match phase
    case Calling => Unaborted
    case Unaborted => PollDue
    case PollDue => ClockRead
    case ClockRead => Claiming
    case Claiming => InQueue
    case InQueue => Polling
    case Polling => KeyFound
    case KeyFound => EventSet
    case EventSet => Answering
    case Answering => Answering
  }

  lemma CallerPhase(s: State, c: nat, p: nat, since: nat, phase: Phase)
    requires InPhase(s, c, p, since, phase)
    requires phase.Calling? || phase.Unaborted? || phase.PollDue? || phase.ClockRead? || phase.Claiming? || phase.EventSet?
    ensures Enabled(s, ActionIn(phase, c)) && InPhase(Step(s, ActionIn(phase, c)), c, p, since, NextPhase(phase))
  {
  }

  lemma PollPhase(s: State, c: nat, p: nat, since: nat, phase: Phase)
    requires InPhase(s, c, p, since, phase) && (phase.InQueue? || phase.Polling? || phase.KeyFound?)
    ensures Enabled(s, ActionIn(phase, c)) && InPhase(Step(s, ActionIn(phase, c)), c, p, since, NextPhase(phase))
  {
  }

  lemma AnswerPhase(s: State, c: nat, p: nat, since: nat)
    requires InPhase(s, c, p, since, Answering)
    ensures Enabled(s, ReadTerminal(c)) && Step(s, ReadTerminal(c)).answers == s.answers + [Answer(p, since, true)]
  {
  }

  function Remaining(phase: Phase): nat {
    match phase
    case Calling => 9 case Unaborted => 8 case PollDue => 7 case ClockRead => 6 case Claiming => 5
    case InQueue => 4 case Polling => 3 case KeyFound => 2 case EventSet => 1 case Answering => 0
  }

  /** The call comes to a yes, by way of the poll it starts. */
  lemma {:induction false} PhasesEndInYes(s: State, c: nat, p: nat, since: nat, phase: Phase) returns (rest: seq<Action>)
    requires InPhase(s, c, p, since, phase)
    ensures IsRun(s, rest) && SaidYesSince(After(s, rest).answers, |s.answers|, p, since)
    decreases Remaining(phase)
  {
    var a := ActionIn(phase, c);
    if phase.Answering? {
      AnswerPhase(s, c, p, since);
      rest := [];
      assert Step(s, a).answers[|s.answers|] == Answer(p, since, true);
    } else {
      if phase.InQueue? || phase.Polling? || phase.KeyFound? { PollPhase(s, c, p, since, phase); }
      else { CallerPhase(s, c, p, since, phase); }
      AnswersGrow(s, a);
      rest := PhasesEndInYes(Step(s, a), c, p, since, NextPhase(phase));
    }
    Prepend(s, a, rest);
    rest := [a] + rest;
  }

  /** A probe with no poll in flight and an idle thread: once the next poll is due, a call of it comes to a yes. */
  lemma RestingCallSaysYes(s: State, c: nat, p: nat) returns (rest: seq<Action>)
    requires Live(s) && AtRest(s) && c < |s.callers| && p < |s.probes| && s.probes[p].pollable && p in s.env.keys
    ensures IsRun(s, rest) && SaidYesSince(After(s, rest).answers, |s.answers|, p, |s.answers|)
  {
    var wait: nat := if s.env.clock < s.probes[p].nextPollAt then s.probes[p].nextPollAt - s.env.clock else 0;
    var s1 := Step(s, Tick(wait));
    var s2 := Step(s1, Call(c, p));
    if s.env.shutdown {
      rest := [];
      assert Step(s2, ReadShutdown(c)).answers[|s.answers|] == Answer(p, |s.answers|, true);
      Prepend(s2, ReadShutdown(c), rest);
      rest := [ReadShutdown(c)] + rest;
    } else if s.probes[p].terminal {
      rest := AlreadySet(s2, c, p, |s.answers|);
    } else {
      assert ProbeSafe(s, p);
      NoPolls(s.callers, s.pool.daemons, p);
      rest := PhasesEndInYes(s2, c, p, |s.answers|, Calling);
    }
    Prepend(s1, Call(c, p), rest);
    rest := [Call(c, p)] + rest;
    Prepend(s, Tick(wait), rest);
    rest := [Tick(wait)] + rest;
  }

  lemma AlreadySet(s: State, c: nat, p: nat, since: nat) returns (rest: seq<Action>)
    requires c < |s.callers| && s.callers[c] == Began(p, since) && p < |s.probes| && s.probes[p].terminal && !s.env.shutdown
    ensures IsRun(s, rest) && SaidYesSince(After(s, rest).answers, |s.answers|, p, since)
  {
    var t := Step(s, ReadShutdown(c));
    assert Step(t, ReadTerminal(c)).answers[|s.answers|] == Answer(p, since, true);
    rest := [];
    Prepend(t, ReadTerminal(c), rest);
    rest := [ReadTerminal(c)] + rest;
    Prepend(s, ReadShutdown(c), rest);
    rest := [ReadShutdown(c)] + rest;
  }

  lemma InitialIsLive(s: State)
    requires Initial(s)
    ensures Live(s)
  {
    InitialIsSafe(s);
  }

  /** Everything under way comes to rest first, and then a new call of the probe finds the key. */
  lemma {:induction false} FindsFrom(s: State, c: nat, p: nat) returns (rest: seq<Action>, since: nat)
    requires Live(s) && c < |s.callers| && p < |s.probes| && s.probes[p].pollable && p in s.env.keys
    ensures IsRun(s, rest) && |s.answers| <= since && SaidYesSince(After(s, rest).answers, since, p, since)
    decreases Cost(s)
  {
    if AtRest(s) {
      since := |s.answers|;
      rest := RestingCallSaysYes(s, c, p);
    } else {
      var a := NextStep(s);
      StepKeepsSafe(s, a);
      StepKeepsWired(s, a);
      StepKeepsProbes(s, a);
      AnswersGrow(s, a);
      rest, since := FindsFrom(Step(s, a), c, p);
      Prepend(s, a, rest);
      rest := [a] + rest;
    }
  }

  /**
    From every reachable state, whatever is queued, running or under way, a published terminal key
    can still be found: some continuation has a new call of the probe answer yes.
  */
  lemma PublishedIsFound(s: State, acts: seq<Action>, c: nat, p: nat) returns (rest: seq<Action>, since: nat)
    requires Initial(s) && IsRun(s, acts)
    requires var t := After(s, acts); c < |t.callers| && p < |t.probes| && t.probes[p].pollable && p in t.env.keys
    ensures var t := After(s, acts);
            IsRun(t, rest) && |t.answers| <= since && SaidYesSince(After(t, rest).answers, since, p, since)
  {
    InitialIsLive(s);
    RunIsLive(s, acts);
    rest, since := FindsFrom(After(s, acts), c, p);
  }
}
