/**
  The cancellation probes of scripts/plugin_runtime.py: any number of probes, called from any number
  of threads, share a small pool of daemon threads that polls Redis for terminal parent runs.
  Every access to shared state is a step of its own.
*/
module AbortProbe {

  // PARENT_TERMINAL_POLL_INTERVAL_SECONDS, in milliseconds
  const INTERVAL: int := 250
  // PARENT_TERMINAL_POLL_WORKERS
  const WORKERS: nat := 2
  // PARENT_TERMINAL_POLL_QUEUE_SIZE
  const QUEUE_SIZE: nat := 64

  datatype Option<+T> = None | Some(value: T)

  /** One poll of a probe, from the moment its flag was raised to the moment it was lowered. */
  datatype Poll = Poll(start: int, end: Option<int>)

  /** An _AbortRequested object; polls is the record of all its polls. */
  datatype Probe = Probe(pollable: bool, inFlight: bool, nextPollAt: int, terminal: bool, polls: seq<Poll>)

  /** Clock, worker shutdown event and the terminal keys in Redis; published is every key there ever was. */
  datatype Env = Env(clock: int, shutdown: bool, keys: set<nat>, published: set<nat>)

  /** A daemon thread of the pool. */
  datatype Daemon = Free | Running(p: nat) | Found(p: nat) | Looked(p: nat)

  datatype Pool = Pool(queue: seq<nat>, daemons: seq<Daemon>)

  /** A thread inside __call__ of probe p; since counts the answers given when the call began. */
  datatype Caller =
    | Idle
    | Began(p: nat, since: nat)
    | NoShutdown(p: nat, since: nat)
    | Due(p: nat, since: nat)
    | HasNow(p: nat, since: nat, now: int)
    | Claimed(p: nat, since: nat)
    | Refused(p: nat, since: nat)
    | Second(p: nat, since: nat)
    | SecondNoShutdown(p: nat, since: nat)

  datatype Answer = Answer(p: nat, since: nat, value: bool)

  datatype State = State(env: Env, probes: seq<Probe>, pool: Pool, callers: seq<Caller>, answers: seq<Answer>)

  datatype Action =
    | Tick(d: nat)
    | Shutdown
    | Publish(p: nat)
    | Expire(p: nat)
    | Call(c: nat, p: nat)
    | ReadShutdown(c: nat)
    | ReadTerminal(c: nat)
    | ReadClock(c: nat)
    | Lock(c: nat)
    | Submit(c: nat)
    | Reset(c: nat)
    | Take(w: nat)
    | Look(w: nat, fails: bool)
    | SetEvent(w: nat)
    | Finish(w: nat)

  predicate CallerAction(a: Action) {
    a.ReadShutdown? || a.ReadTerminal? || a.ReadClock? || a.Lock? || a.Submit? || a.Reset?
  }

  // ---------------------------------------------------------------------------------------
  // Steps

  predicate Enabled(s: State, a: Action) {
    match a
    case Tick(_) => true
    case Shutdown => true
    case Publish(p) => p < |s.probes|
    case Expire(p) => p < |s.probes|
    case Call(c, p) => c < |s.callers| && p < |s.probes| && s.callers[c].Idle?
    case ReadShutdown(c) => c < |s.callers| && (s.callers[c].Began? || s.callers[c].Second?) && s.callers[c].p < |s.probes|
    case ReadTerminal(c) =>
      c < |s.callers| && (s.callers[c].NoShutdown? || s.callers[c].SecondNoShutdown?) && s.callers[c].p < |s.probes|
    case ReadClock(c) => c < |s.callers| && s.callers[c].Due? && s.callers[c].p < |s.probes|
    case Lock(c) => c < |s.callers| && s.callers[c].HasNow? && s.callers[c].p < |s.probes|
    case Submit(c) => c < |s.callers| && s.callers[c].Claimed? && s.callers[c].p < |s.probes|
    case Reset(c) => c < |s.callers| && s.callers[c].Refused? && s.callers[c].p < |s.probes|
    case Take(w) => w < |s.pool.daemons| && s.pool.daemons[w].Free? && |s.pool.queue| > 0
    case Look(w, _) => w < |s.pool.daemons| && s.pool.daemons[w].Running? && s.pool.daemons[w].p < |s.probes|
    case SetEvent(w) => w < |s.pool.daemons| && s.pool.daemons[w].Found? && s.pool.daemons[w].p < |s.probes|
    case Finish(w) => w < |s.pool.daemons| && s.pool.daemons[w].Looked? && s.pool.daemons[w].p < |s.probes|
  }

  function StepEnv(env: Env, a: Action): Env {
    match a
    case Tick(d) => env.(clock := env.clock + d)
    case Shutdown => env.(shutdown := true)
    case Publish(p) => env.(keys := env.keys + {p}, published := env.published + {p})
    case Expire(p) => env.(keys := env.keys - {p})
    case _ => env
  }

  /** Inside the lock: start a poll unless one is in flight or the next one is not due. */
  predicate Starts(probe: Probe, now: int) {
    !probe.inFlight && now >= probe.nextPollAt
  }

  function RaiseFlag(probe: Probe, clock: int): Probe {
    probe.(inFlight := true, polls := probe.polls + [Poll(clock, None)])
  }

  function LowerFlag(probe: Probe, clock: int): Probe {
    probe.(
      inFlight := false,
      nextPollAt := clock + INTERVAL,
      polls := if |probe.polls| > 0
               then probe.polls[|probe.polls| - 1 := probe.polls[|probe.polls| - 1].(end := Some(clock))]
               else []
    )
  }

  function StepCaller(c: Caller, env: Env, probe: Probe, full: bool): Caller {
    match c
    case Idle => Idle
    case Began(p, since) => if env.shutdown then Idle else NoShutdown(p, since)
    case NoShutdown(p, since) =>
      if probe.terminal then Idle else if probe.pollable then Due(p, since) else Second(p, since)
    case Due(p, since) => HasNow(p, since, env.clock)
    case HasNow(p, since, now) => if Starts(probe, now) then Claimed(p, since) else Second(p, since)
    case Claimed(p, since) => if full then Refused(p, since) else Second(p, since)
    case Refused(p, since) => Second(p, since)
    case Second(p, since) => if env.shutdown then Idle else SecondNoShutdown(p, since)
    case SecondNoShutdown(_, _) => Idle
  }

  function StepCallers(s: State, a: Action): seq<Caller>
    requires Enabled(s, a)
  {
    if a.Call? then s.callers[a.c := Began(a.p, |s.answers|)]
    else if CallerAction(a) then
      var c := s.callers[a.c];
      s.callers[a.c := StepCaller(c, s.env, s.probes[c.p], |s.pool.queue| >= QUEUE_SIZE)]
    else s.callers
  }

  function StepProbes(s: State, a: Action): seq<Probe>
    requires Enabled(s, a)
  {
    match a
    case Lock(c) =>
      var p, now := s.callers[c].p, s.callers[c].now;
      if Starts(s.probes[p], now) then s.probes[p := RaiseFlag(s.probes[p], s.env.clock)] else s.probes
    case Reset(c) =>
      var p := s.callers[c].p;
      s.probes[p := LowerFlag(s.probes[p], s.env.clock)]
    case SetEvent(w) =>
      var p := s.pool.daemons[w].p;
      s.probes[p := s.probes[p].(terminal := true)]
    case Finish(w) =>
      var p := s.pool.daemons[w].p;
      s.probes[p := LowerFlag(s.probes[p], s.env.clock)]
    case _ => s.probes
  }

  /** The daemon after its Redis read: the event is still to be set if the key was there. */
  function SeenBy(p: nat, env: Env, fails: bool): Daemon {
    if !fails && p in env.keys then Found(p) else Looked(p)
  }

  function StepPool(s: State, a: Action): Pool
    requires Enabled(s, a)
  {
    var pool := s.pool;
    match a
    case Submit(c) => if |pool.queue| >= QUEUE_SIZE then pool else pool.(queue := pool.queue + [s.callers[c].p])
    case Take(w) => Pool(pool.queue[1..], pool.daemons[w := Running(pool.queue[0])])
    case Look(w, fails) => pool.(daemons := pool.daemons[w := SeenBy(pool.daemons[w].p, s.env, fails)])
    case SetEvent(w) => pool.(daemons := pool.daemons[w := Looked(pool.daemons[w].p)])
    case Finish(w) => pool.(daemons := pool.daemons[w := Free])
    case _ => pool
  }

  /** The answer a step gives, if any. */
  function Answers(s: State, a: Action): Option<Answer>
    requires Enabled(s, a)
  {
    match a
    case ReadShutdown(c) =>
      if s.env.shutdown then Some(Answer(s.callers[c].p, s.callers[c].since, true)) else None
    case ReadTerminal(c) =>
      var terminal := s.probes[s.callers[c].p].terminal;
      if terminal || s.callers[c].SecondNoShutdown? then Some(Answer(s.callers[c].p, s.callers[c].since, terminal)) else None
    case _ => None
  }

  function Step(s: State, a: Action): State
    requires Enabled(s, a)
  {
    State(
      StepEnv(s.env, a),
      StepProbes(s, a),
      StepPool(s, a),
      StepCallers(s, a),
      match Answers(s, a) case None => s.answers case Some(x) => s.answers + [x]
    )
  }

  // ---------------------------------------------------------------------------------------
  // Runs

  /** Any number of fresh probes and idle threads; the clock has a non-negative reading. */
  predicate Initial(s: State) {
    && s.env.clock >= 0
    && s.env.published == s.env.keys
    && (forall p :: 0 <= p < |s.probes| ==>
          !s.probes[p].inFlight && s.probes[p].nextPollAt == 0 && !s.probes[p].terminal && s.probes[p].polls == [])
    && s.pool == Pool([], seq(WORKERS, _ => Free))
    && (forall c :: 0 <= c < |s.callers| ==> s.callers[c].Idle?)
    && s.answers == []
  }

  predicate IsRun(s: State, acts: seq<Action>)
    decreases |acts|
  {
    |acts| > 0 ==> Enabled(s, acts[0]) && IsRun(Step(s, acts[0]), acts[1..])
  }

  function After(s: State, acts: seq<Action>): State
    requires IsRun(s, acts)
    decreases |acts|
  {
    if |acts| == 0 then s else After(Step(s, acts[0]), acts[1..])
  }
}
