/** What holds in every reachable state of the cancellation probes. */
module AbortSafety {
  import opened AbortProbe

  // ---------------------------------------------------------------------------------------
  // One poll per raised flag

  /** The thread is submitting a poll of p, or about to give one up. */
  function CallerHolds(c: Caller, p: nat): nat {
    if (c.Claimed? || c.Refused?) && c.p == p then 1 else 0
  }

  function DaemonHolds(d: Daemon, p: nat): nat {
    if !d.Free? && d.p == p then 1 else 0
  }

  function CallerPolls(cs: seq<Caller>, p: nat): nat {
    if |cs| == 0 then 0 else CallerPolls(cs[..|cs| - 1], p) + CallerHolds(cs[|cs| - 1], p)
  }

  function DaemonPolls(ds: seq<Daemon>, p: nat): nat {
    if |ds| == 0 then 0 else DaemonPolls(ds[..|ds| - 1], p) + DaemonHolds(ds[|ds| - 1], p)
  }

  /** The polls of p being submitted, queued or running. */
  function PollsOf(s: State, p: nat): nat {
    CallerPolls(s.callers, p) + multiset(s.pool.queue)[p] + DaemonPolls(s.pool.daemons, p)
  }

  predicate FlagExact(s: State, p: nat)
    requires p < |s.probes|
  {
    PollsOf(s, p) == if s.probes[p].inFlight then 1 else 0
  }

  lemma {:induction false} CallerUpdate(cs: seq<Caller>, i: nat, x: Caller, p: nat)
    requires i < |cs|
    ensures CallerPolls(cs[i := x], p) == CallerPolls(cs, p) - CallerHolds(cs[i], p) + CallerHolds(x, p)
  {
    if i < |cs| - 1 {
      assert cs[i := x][..|cs| - 1] == cs[..|cs| - 1][i := x];
      CallerUpdate(cs[..|cs| - 1], i, x, p);
    } else {
      assert cs[i := x][..|cs| - 1] == cs[..|cs| - 1];
    }
  }

  lemma {:induction false} DaemonUpdate(ds: seq<Daemon>, i: nat, x: Daemon, p: nat)
    requires i < |ds|
    ensures DaemonPolls(ds[i := x], p) == DaemonPolls(ds, p) - DaemonHolds(ds[i], p) + DaemonHolds(x, p)
  {
    if i < |ds| - 1 {
      assert ds[i := x][..|ds| - 1] == ds[..|ds| - 1][i := x];
      DaemonUpdate(ds[..|ds| - 1], i, x, p);
    } else {
      assert ds[i := x][..|ds| - 1] == ds[..|ds| - 1];
    }
  }

  lemma Pop(queue: seq<nat>, p: nat)
    requires |queue| > 0
    ensures multiset(queue)[p] == multiset(queue[1..])[p] + if queue[0] == p then 1 else 0
  {
    assert queue == [queue[0]] + queue[1..];
  }

  /** How the polls of p held by threads change in a step. */
  lemma CallerStep(s: State, a: Action, p: nat)
    requires Enabled(s, a)
    ensures CallerPolls(StepCallers(s, a), p) ==
              if a.Lock? && s.callers[a.c].p == p && Starts(s.probes[p], s.callers[a.c].now) then CallerPolls(s.callers, p) + 1
              else if a.Submit? && s.callers[a.c].p == p && |s.pool.queue| < QUEUE_SIZE then CallerPolls(s.callers, p) - 1
              else if a.Reset? && s.callers[a.c].p == p then CallerPolls(s.callers, p) - 1
              else CallerPolls(s.callers, p)
  {
    if a.Call? {
      CallerUpdate(s.callers, a.c, Began(a.p, |s.answers|), p);
    } else if CallerAction(a) {
      var c := s.callers[a.c];
      CallerUpdate(s.callers, a.c, StepCaller(c, s.env, s.probes[c.p], |s.pool.queue| >= QUEUE_SIZE), p);
    }
  }

  lemma TakeMoves(pool: Pool, w: nat, p: nat)
    requires w < |pool.daemons| && pool.daemons[w].Free? && |pool.queue| > 0
    ensures multiset(pool.queue[1..])[p] + DaemonPolls(pool.daemons[w := Running(pool.queue[0])], p) ==
              multiset(pool.queue)[p] + DaemonPolls(pool.daemons, p)
  {
    Pop(pool.queue, p);
    DaemonUpdate(pool.daemons, w, Running(pool.queue[0]), p);
  }

  /** How the queued and running polls of p change in a step. */
  lemma PoolStep(s: State, a: Action, p: nat)
    requires Enabled(s, a)
    ensures multiset(StepPool(s, a).queue)[p] + DaemonPolls(StepPool(s, a).daemons, p) ==
              multiset(s.pool.queue)[p] + DaemonPolls(s.pool.daemons, p) +
              if a.Submit? && s.callers[a.c].p == p && |s.pool.queue| < QUEUE_SIZE then 1
              else if a.Finish? && s.pool.daemons[a.w].p == p then -1
              else 0
  {
    match a
    case Take(w) => TakeMoves(s.pool, w, p);
    case Look(w, fails) => DaemonUpdate(s.pool.daemons, w, SeenBy(s.pool.daemons[w].p, s.env, fails), p);
    case SetEvent(w) => DaemonUpdate(s.pool.daemons, w, Looked(s.pool.daemons[w].p), p);
    case Finish(w) => DaemonUpdate(s.pool.daemons, w, Free, p);
    case _ =>
  }

  lemma ProbeStep(s: State, a: Action, p: nat)
    requires Enabled(s, a) && p < |s.probes|
    ensures |StepProbes(s, a)| == |s.probes|
    ensures StepProbes(s, a)[p].inFlight ==
              if a.Lock? && s.callers[a.c].p == p && Starts(s.probes[p], s.callers[a.c].now) then true
              else if a.Reset? && s.callers[a.c].p == p then false
              else if a.Finish? && s.pool.daemons[a.w].p == p then false
              else s.probes[p].inFlight
  {
  }

  lemma StepKeepsFlag(s: State, a: Action, p: nat)
    requires Enabled(s, a) && p < |s.probes| && FlagExact(s, p)
    ensures p < |Step(s, a).probes| && FlagExact(Step(s, a), p)
  {
    CallerStep(s, a, p);
    PoolStep(s, a, p);
    ProbeStep(s, a, p);
    if a.Finish? { DaemonUpdate(s.pool.daemons, a.w, Free, p); }
    if a.Reset? { CallerUpdate(s.callers, a.c, Idle, p); }
  }

  // ---------------------------------------------------------------------------------------
  // Polls are spaced

  /** Each poll but the last has ended, and the next one started no sooner than the interval after. */
  predicate WellSpaced(polls: seq<Poll>) {
    forall k :: 0 <= k < |polls| - 1 ==> SpacedAt(polls, k)
  }

  predicate SpacedAt(polls: seq<Poll>, k: nat)
    requires k < |polls| - 1
  {
    polls[k].end.Some? && polls[k].end.value + INTERVAL <= polls[k + 1].start
  }

  /** The last poll is open exactly while the flag is up; otherwise the next is due an interval after its end. */
  predicate Spaced(probe: Probe) {
    && WellSpaced(probe.polls)
    && (if |probe.polls| == 0 then !probe.inFlight && probe.nextPollAt == 0
        else if probe.inFlight then probe.polls[|probe.polls| - 1].end.None?
        else probe.polls[|probe.polls| - 1].end == Some(probe.nextPollAt - INTERVAL))
  }

  lemma RaiseKeepsSpaced(probe: Probe, now: int, clock: int)
    requires Spaced(probe) && Starts(probe, now) && now <= clock
    ensures Spaced(RaiseFlag(probe, clock))
  {
    var polls := RaiseFlag(probe, clock).polls;
    forall k | 0 <= k < |polls| - 1 ensures SpacedAt(polls, k) {
      if k < |probe.polls| - 1 { assert SpacedAt(probe.polls, k); }
    }
  }

  lemma LowerKeepsSpaced(probe: Probe, clock: int)
    requires Spaced(probe) && probe.inFlight
    ensures Spaced(LowerFlag(probe, clock))
  {
    var polls := LowerFlag(probe, clock).polls;
    forall k | 0 <= k < |polls| - 1 ensures SpacedAt(polls, k) {
      assert SpacedAt(probe.polls, k);
    }
  }

  /** A thread that has read the clock holds a past reading. */
  predicate PastNow(c: Caller, clock: int) {
    c.HasNow? ==> c.now <= clock
  }

  lemma StepKeepsNow(s: State, a: Action, c: nat)
    requires Enabled(s, a) && c < |s.callers| && PastNow(s.callers[c], s.env.clock)
    ensures c < |Step(s, a).callers| && PastNow(Step(s, a).callers[c], Step(s, a).env.clock)
  {
  }

  lemma {:induction false} DaemonAtLeast(ds: seq<Daemon>, i: nat, p: nat)
    requires i < |ds|
    ensures DaemonHolds(ds[i], p) <= DaemonPolls(ds, p)
  {
    DaemonUpdate(ds, i, Free, p);
  }

  lemma CallerAtLeast(cs: seq<Caller>, i: nat, p: nat)
    requires i < |cs|
    ensures CallerHolds(cs[i], p) <= CallerPolls(cs, p)
  {
    CallerUpdate(cs, i, Idle, p);
  }

  lemma StepKeepsSpaced(s: State, a: Action, p: nat)
    requires Enabled(s, a) && p < |s.probes| && FlagExact(s, p) && Spaced(s.probes[p])
    requires forall c :: 0 <= c < |s.callers| ==> PastNow(s.callers[c], s.env.clock)
    ensures p < |Step(s, a).probes| && Spaced(Step(s, a).probes[p])
  {
    match a
    case Lock(c) =>
      if s.callers[c].p == p && Starts(s.probes[p], s.callers[c].now) {
        RaiseKeepsSpaced(s.probes[p], s.callers[c].now, s.env.clock);
      }
    case Reset(c) =>
      if s.callers[c].p == p {
        CallerAtLeast(s.callers, c, p);
        LowerKeepsSpaced(s.probes[p], s.env.clock);
      }
    case Finish(w) =>
      if s.pool.daemons[w].p == p {
        DaemonAtLeast(s.pool.daemons, w, p);
        LowerKeepsSpaced(s.probes[p], s.env.clock);
      }
    case _ =>
  }

  // ---------------------------------------------------------------------------------------
  // Answers

  /** The answer an undisturbed call of p would give now. */
  predicate Aborted(s: State, p: nat)
    requires p < |s.probes|
  {
    s.env.shutdown || s.probes[p].terminal
  }

  /** One of the first n answers was a yes of probe p. */
  predicate SaidYes(answers: seq<Answer>, p: nat, n: nat) {
    exists i :: 0 <= i < n && i < |answers| && answers[i].p == p && answers[i].value
  }

  /** A yes was justified by the worker's shutdown or by the terminal event of the probe. */
  predicate Justified(s: State, i: nat)
    requires i < |s.answers|
  {
    s.answers[i].p < |s.probes| && (s.answers[i].value ==> Aborted(s, s.answers[i].p))
  }

  /** A call that began after a yes of its probe answers yes. */
  predicate Sticky(answers: seq<Answer>, i: nat)
    requires i < |answers|
  {
    answers[i].since <= i && (SaidYes(answers, answers[i].p, answers[i].since) ==> answers[i].value)
  }

  /** A call that began after a yes of its probe has not seen both events unset. */
  predicate OnCourse(s: State, c: Caller) {
    c.Idle? || (
      && c.p < |s.probes|
      && c.since <= |s.answers|
      && (SaidYes(s.answers, c.p, c.since) ==> c.Began? || (c.NoShutdown? && s.probes[c.p].terminal)))
  }

  lemma StepKeepsAborted(s: State, a: Action, p: nat)
    requires Enabled(s, a) && p < |s.probes|
    ensures |Step(s, a).probes| == |s.probes|
    ensures s.probes[p].terminal ==> Step(s, a).probes[p].terminal
    ensures Aborted(s, p) ==> Aborted(Step(s, a), p)
  {
  }

  lemma StepKeepsJustified(s: State, a: Action, i: nat)
    requires Enabled(s, a) && i < |Step(s, a).answers|
    requires i < |s.answers| ==> Justified(s, i)
    ensures Justified(Step(s, a), i)
  {
    var s' := Step(s, a);
    if i < |s.answers| {
      assert s'.answers[i] == s.answers[i];
      StepKeepsAborted(s, a, s.answers[i].p);
    } else {
      var x := Answers(s, a).value;
      assert s'.answers[i] == x;
      StepKeepsAborted(s, a, x.p);
    }
  }

  lemma SaidYesStable(answers: seq<Answer>, more: seq<Answer>, p: nat, n: nat)
    requires answers <= more && n <= |answers|
    ensures SaidYes(more, p, n) <==> SaidYes(answers, p, n)
  {
  }

  lemma AnswersGrow(s: State, a: Action)
    requires Enabled(s, a)
    ensures s.answers <= Step(s, a).answers
  {
  }

  /** A yes so far means the probe reads as aborted. */
  lemma YesIsAborted(s: State, p: nat, n: nat)
    requires p < |s.probes| && SaidYes(s.answers, p, n)
    requires forall i :: 0 <= i < |s.answers| ==> Justified(s, i)
    ensures Aborted(s, p)
  {
    var i :| 0 <= i < n && i < |s.answers| && s.answers[i].p == p && s.answers[i].value;
    assert Justified(s, i);
  }

  lemma CallerStaysOnCourse(s: State, c: Caller, full: bool)
    requires !c.Idle? && OnCourse(s, c)
    requires forall i :: 0 <= i < |s.answers| ==> Justified(s, i)
    ensures OnCourse(s, StepCaller(c, s.env, s.probes[c.p], full))
  {
    if SaidYes(s.answers, c.p, c.since) { YesIsAborted(s, c.p, c.since); }
  }

  lemma OnCourseLater(s: State, a: Action, c: Caller)
    requires Enabled(s, a) && OnCourse(s, c)
    ensures OnCourse(Step(s, a), c)
  {
    if !c.Idle? {
      AnswersGrow(s, a);
      SaidYesStable(s.answers, Step(s, a).answers, c.p, c.since);
      StepKeepsAborted(s, a, c.p);
    }
  }

  lemma StepKeepsOnCourse(s: State, a: Action, c: nat)
    requires Enabled(s, a) && c < |s.callers| && OnCourse(s, s.callers[c])
    requires forall i :: 0 <= i < |s.answers| ==> Justified(s, i)
    ensures c < |Step(s, a).callers| && OnCourse(Step(s, a), Step(s, a).callers[c])
  {
    var c' := StepCallers(s, a)[c];
    if CallerAction(a) && a.c == c {
      CallerStaysOnCourse(s, s.callers[c], |s.pool.queue| >= QUEUE_SIZE);
    }
    assert OnCourse(s, c');
    OnCourseLater(s, a, c');
  }

  lemma StepKeepsSticky(s: State, a: Action, i: nat)
    requires Enabled(s, a) && i < |Step(s, a).answers|
    requires i < |s.answers| ==> Sticky(s.answers, i)
    requires CallerAction(a) ==> OnCourse(s, s.callers[a.c])
    ensures Sticky(Step(s, a).answers, i)
  {
    var more := Step(s, a).answers;
    AnswersGrow(s, a);
    if i < |s.answers| {
      SaidYesStable(s.answers, more, s.answers[i].p, s.answers[i].since);
    } else {
      var c := s.callers[a.c];
      SaidYesStable(s.answers, more, c.p, c.since);
    }
  }

  // ---------------------------------------------------------------------------------------
  // Every reachable state

  predicate ProbeSafe(s: State, p: nat)
    requires p < |s.probes|
  {
    FlagExact(s, p) && Spaced(s.probes[p]) && (s.probes[p].terminal ==> p in s.env.published)
  }

  predicate Bounded(pool: Pool) {
    |pool.queue| <= QUEUE_SIZE && |pool.daemons| == WORKERS
  }

  /** A daemon that is about to set the event of its probe has seen the key. */
  predicate FoundIsPublished(s: State, w: nat)
    requires w < |s.pool.daemons|
  {
    s.pool.daemons[w].Found? ==> s.pool.daemons[w].p in s.env.published
  }

  lemma StepKeepsFound(s: State, a: Action, w: nat)
    requires Enabled(s, a) && w < |s.pool.daemons| && FoundIsPublished(s, w) && s.env.keys <= s.env.published
    ensures w < |Step(s, a).pool.daemons| && FoundIsPublished(Step(s, a), w)
  {
  }

  predicate Safe(s: State) {
    && (forall p :: 0 <= p < |s.probes| ==> ProbeSafe(s, p))
    && Bounded(s.pool)
    && (forall w :: 0 <= w < |s.pool.daemons| ==> FoundIsPublished(s, w))
    && (forall c :: 0 <= c < |s.callers| ==> PastNow(s.callers[c], s.env.clock) && OnCourse(s, s.callers[c]))
    && (forall i :: 0 <= i < |s.answers| ==> Justified(s, i) && Sticky(s.answers, i))
    && s.env.keys <= s.env.published
  }

  lemma StepKeepsProbeSafe(s: State, a: Action, p: nat)
    requires Enabled(s, a) && p < |s.probes| && ProbeSafe(s, p) && s.env.keys <= s.env.published
    requires forall c :: 0 <= c < |s.callers| ==> PastNow(s.callers[c], s.env.clock)
    requires forall w :: 0 <= w < |s.pool.daemons| ==> FoundIsPublished(s, w)
    ensures p < |Step(s, a).probes| && ProbeSafe(Step(s, a), p)
  {
    StepKeepsFlag(s, a, p);
    StepKeepsSpaced(s, a, p);
    if a.SetEvent? { assert FoundIsPublished(s, a.w); }
  }

  lemma StepKeepsBounded(s: State, a: Action)
    requires Enabled(s, a) && Bounded(s.pool)
    ensures Bounded(Step(s, a).pool)
  {
  }

  lemma StepKeepsSafe(s: State, a: Action)
    requires Enabled(s, a) && Safe(s)
    ensures Safe(Step(s, a))
  {
    var s' := Step(s, a);
    forall p | 0 <= p < |s'.probes| ensures ProbeSafe(s', p) {
      StepKeepsProbeSafe(s, a, p);
    }
    StepKeepsBounded(s, a);
    forall w | 0 <= w < |s'.pool.daemons| ensures FoundIsPublished(s', w) {
      StepKeepsFound(s, a, w);
    }
    forall c | 0 <= c < |s'.callers| ensures PastNow(s'.callers[c], s'.env.clock) && OnCourse(s', s'.callers[c]) {
      StepKeepsNow(s, a, c);
      StepKeepsOnCourse(s, a, c);
    }
    forall i | 0 <= i < |s'.answers| ensures Justified(s', i) && Sticky(s'.answers, i) {
      StepKeepsJustified(s, a, i);
      StepKeepsSticky(s, a, i);
    }
  }

  lemma {:induction false} NoPolls(callers: seq<Caller>, daemons: seq<Daemon>, p: nat)
    requires forall c :: 0 <= c < |callers| ==> callers[c].Idle?
    requires forall w :: 0 <= w < |daemons| ==> daemons[w].Free?
    ensures CallerPolls(callers, p) == 0 && DaemonPolls(daemons, p) == 0
    decreases |callers| + |daemons|
  {
    if |callers| > 0 { NoPolls(callers[..|callers| - 1], daemons, p); }
    else if |daemons| > 0 { NoPolls(callers, daemons[..|daemons| - 1], p); }
  }

  lemma InitialIsSafe(s: State)
    requires Initial(s)
    ensures Safe(s)
  {
    forall p | 0 <= p < |s.probes| ensures ProbeSafe(s, p) {
      NoPolls(s.callers, s.pool.daemons, p);
    }
  }

  lemma {:induction false} RunIsSafe(s: State, acts: seq<Action>)
    requires Safe(s) && IsRun(s, acts)
    ensures Safe(After(s, acts))
    decreases |acts|
  {
    if |acts| > 0 {
      StepKeepsSafe(s, acts[0]);
      RunIsSafe(Step(s, acts[0]), acts[1..]);
    }
  }

  /** Poll k has ended, and the next one started at least 250 milliseconds after. */
  predicate QuarterSecondApart(polls: seq<Poll>, k: nat)
    requires k < |polls| - 1
  {
    polls[k].end.Some? && polls[k].end.value + 250 <= polls[k + 1].start
  }

  /** Main result, per probe: the flag counts the one live poll, polls are spaced, the pool is bounded. */
  lemma PollsAreSafe(s: State, acts: seq<Action>, p: nat)
    requires Initial(s) && IsRun(s, acts) && p < |After(s, acts).probes|
    ensures var t := After(s, acts);
            && PollsOf(t, p) == (if t.probes[p].inFlight then 1 else 0)
            && (forall k :: 0 <= k < |t.probes[p].polls| - 1 ==> QuarterSecondApart(t.probes[p].polls, k))
            && |t.pool.queue| <= 64
            && |t.pool.daemons| == 2
  {
    InitialIsSafe(s);
    RunIsSafe(s, acts);
    var t := After(s, acts);
    assert ProbeSafe(t, p);
    forall k | 0 <= k < |t.probes[p].polls| - 1 ensures QuarterSecondApart(t.probes[p].polls, k) {
      assert SpacedAt(t.probes[p].polls, k);
    }
  }

  /**
    Main result, per answer: a yes means that the worker was shut down or that the terminal key of
    the probe was published, and a call that began after a yes of its probe answers yes.
  */
  lemma AnswersAreSafe(s: State, acts: seq<Action>, i: nat, j: nat)
    requires Initial(s) && IsRun(s, acts) && i < |After(s, acts).answers| && j < |After(s, acts).answers|
    ensures var t := After(s, acts);
            && (t.answers[i].value ==> t.env.shutdown || t.answers[i].p in t.env.published)
            && (t.answers[i].value && t.answers[j].p == t.answers[i].p && i < t.answers[j].since ==> t.answers[j].value)
  {
    InitialIsSafe(s);
    RunIsSafe(s, acts);
    var t := After(s, acts);
    assert Justified(t, i) && Justified(t, j) && Sticky(t.answers, j);
    assert ProbeSafe(t, t.answers[i].p);
    assert t.answers[i].value && t.answers[j].p == t.answers[i].p && i < t.answers[j].since ==>
        SaidYes(t.answers, t.answers[j].p, t.answers[j].since);
  }

  lemma Prepend(s: State, a: Action, acts: seq<Action>)
    requires Enabled(s, a) && IsRun(Step(s, a), acts)
    ensures IsRun(s, [a] + acts) && After(s, [a] + acts) == After(Step(s, a), acts)
  {
    assert ([a] + acts)[0] == a && ([a] + acts)[1..] == acts;
  }

  /** One probe without a parent run, and two threads. */
  function TwoCallers(shutdown: bool, first: Caller, second: Caller, answers: seq<Answer>): State {
    State(
      Env(0, shutdown, {}, {}),
      [Probe(false, false, 0, false, [])],
      Pool([], seq(WORKERS, _ => Free)),
      [first, second],
      answers
    )
  }

  /** The first thread reads an unset event. */
  lemma FirstReads(a: Action, first: Caller, next: Caller)
    requires (a == ReadShutdown(0) && first == Began(0, 0) && next == NoShutdown(0, 0)) ||
             (a == ReadShutdown(0) && first == Second(0, 0) && next == SecondNoShutdown(0, 0)) ||
             (a == ReadTerminal(0) && first == NoShutdown(0, 0) && next == Second(0, 0))
    ensures Enabled(TwoCallers(false, first, Idle, []), a)
    ensures Step(TwoCallers(false, first, Idle, []), a) == TwoCallers(false, next, Idle, [])
  {
  }

  lemma FirstCallerReads(rest: seq<Action>) returns (acts: seq<Action>)
    requires IsRun(TwoCallers(false, SecondNoShutdown(0, 0), Idle, []), rest)
    ensures IsRun(TwoCallers(false, Idle, Idle, []), acts)
    ensures After(TwoCallers(false, Idle, Idle, []), acts) == After(TwoCallers(false, SecondNoShutdown(0, 0), Idle, []), rest)
  {
    acts := rest;
    FirstReads(ReadShutdown(0), Second(0, 0), SecondNoShutdown(0, 0));
    Prepend(TwoCallers(false, Second(0, 0), Idle, []), ReadShutdown(0), acts);
    acts := [ReadShutdown(0)] + acts;
    FirstReads(ReadTerminal(0), NoShutdown(0, 0), Second(0, 0));
    Prepend(TwoCallers(false, NoShutdown(0, 0), Idle, []), ReadTerminal(0), acts);
    acts := [ReadTerminal(0)] + acts;
    FirstReads(ReadShutdown(0), Began(0, 0), NoShutdown(0, 0));
    Prepend(TwoCallers(false, Began(0, 0), Idle, []), ReadShutdown(0), acts);
    acts := [ReadShutdown(0)] + acts;
    assert Step(TwoCallers(false, Idle, Idle, []), Call(0, 0)) == TwoCallers(false, Began(0, 0), Idle, []);
    Prepend(TwoCallers(false, Idle, Idle, []), Call(0, 0), acts);
    acts := [Call(0, 0)] + acts;
  }

  /** The worker shuts down, and a second call sees it. */
  lemma SecondCallSteps()
    ensures var c := SecondNoShutdown(0, 0);
            && Step(TwoCallers(false, c, Idle, []), AbortProbe.Shutdown) == TwoCallers(true, c, Idle, [])
            && Enabled(TwoCallers(true, c, Idle, []), Call(1, 0))
            && Step(TwoCallers(true, c, Idle, []), Call(1, 0)) == TwoCallers(true, c, Began(0, 0), [])
  {
  }

  lemma AnswerSteps()
    ensures var c := SecondNoShutdown(0, 0);
            var s, t := TwoCallers(true, c, Began(0, 0), []), TwoCallers(true, c, Idle, [Answer(0, 0, true)]);
            && Enabled(s, ReadShutdown(1)) && Step(s, ReadShutdown(1)) == t
            && Enabled(t, ReadTerminal(0)) && Step(t, ReadTerminal(0)).answers == [Answer(0, 0, true), Answer(0, 0, false)]
  {
  }

  lemma SecondCallerOvertakes() returns (acts: seq<Action>)
    ensures IsRun(TwoCallers(false, SecondNoShutdown(0, 0), Idle, []), acts)
    ensures After(TwoCallers(false, SecondNoShutdown(0, 0), Idle, []), acts).answers == [Answer(0, 0, true), Answer(0, 0, false)]
  {
    var c := SecondNoShutdown(0, 0);
    AnswerSteps();
    SecondCallSteps();
    acts := [];
    Prepend(TwoCallers(true, c, Idle, [Answer(0, 0, true)]), ReadTerminal(0), acts);
    acts := [ReadTerminal(0)] + acts;
    Prepend(TwoCallers(true, c, Began(0, 0), []), ReadShutdown(1), acts);
    acts := [ReadShutdown(1)] + acts;
    Prepend(TwoCallers(true, c, Idle, []), Call(1, 0), acts);
    acts := [Call(1, 0)] + acts;
    Prepend(TwoCallers(false, c, Idle, []), AbortProbe.Shutdown, acts);
    acts := [AbortProbe.Shutdown] + acts;
  }

  /** Overlapping calls may differ: one that read the shutdown event too early answers no after another's yes. */
  lemma OverlappingCallsMayDiffer() returns (s: State, acts: seq<Action>)
    ensures Initial(s) && IsRun(s, acts)
    ensures After(s, acts).answers == [Answer(0, 0, true), Answer(0, 0, false)]
  {
    s := TwoCallers(false, Idle, Idle, []);
    var rest := SecondCallerOvertakes();
    acts := FirstCallerReads(rest);
  }
}
