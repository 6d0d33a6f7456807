/**
  The execute-worker message protocol of scripts/inference_worker.py, as a step relation over
  one source stream read by any number of worker processes.

  A message is undelivered, pending in the consumer group, or acknowledged. Processes read new
  messages, claim idle pending ones, guard against re-entry, execute, and complete a message
  either with one forward_many call (`Async`) or with a sequence of XADDs followed by an XACK
  (`Sync`). The script behind forward_many runs uninterrupted, but Redis does not undo the writes
  of a script that aborts (see `ForwardMany`). A process may crash and a handler may fail between any two steps. Idle times
  are not modelled: any pending message may be claimed at any moment, which only adds runs.
*/
module WorkerProtocol {

  /** A stream entry id; `NoId` is the empty id of a job that did not come from the stream. */
  datatype MsgId = NoId | Id(stamp: nat)
  type ProcId = nat
  type Attempt = nat

  datatype Mode = Sync | Async

  /** One entry for an output stream. */
  datatype Output = Output(stream: string, runId: string, payload: string, stage: string)

  /** What completing a message emits: the primary outputs, then one release. */
  datatype Completion = Completion(primary: seq<Output>, release: Output)

  /** An emitted entry together with the message and the handling attempt it came from. */
  datatype Record = Record(source: MsgId, attempt: Attempt, output: Output, isRelease: bool)

  datatype Phase =
    | Running
    | Completing(completion: Completion, done: nat)

  datatype Handler = Handler(proc: ProcId, msg: MsgId, phase: Phase)

  /** A worker process: delivered messages not yet looked at, and its in-flight id set. */
  datatype Process = Process(inbox: seq<MsgId>, inFlight: set<MsgId>)

  /** The consumer group of the source stream, and everything appended to output streams. */
  datatype Broker = Broker(undelivered: set<MsgId>, pending: map<MsgId, ProcId>, acked: set<MsgId>, log: seq<Record>)

  datatype Work = Work(procs: map<ProcId, Process>, handlers: map<Attempt, Handler>)

  /** The entries of message `msg` that an aborted forward_many of an attempt left behind. */
  datatype Leftover = Leftover(msg: MsgId, attempt: Attempt, entries: seq<Record>)

  /**
    History: the messages ever produced, the message and the completion of every attempt, the
    attempts that emitted a release, the attempt that acknowledged each message, and what aborted
    scripts left, oldest first.
  */
  datatype Past = Past(
    produced: set<MsgId>,
    begun: map<Attempt, MsgId>,
    plans: map<Attempt, Completion>,
    released: set<Attempt>,
    ackedBy: map<MsgId, Attempt>,
    aborts: seq<Leftover>
  )

  datatype State = State(mode: Mode, broker: Broker, work: Work, past: Past)

  datatype Action =
    | Produce(m: MsgId)
    | Start(p: ProcId)
    | Crash(p: ProcId)
    | Read(p: ProcId, m: MsgId)
    | Claim(p: ProcId, m: MsgId)
    | Begin(p: ProcId, i: nat, a: Attempt)
    | Execute(a: Attempt, c: Completion)
    | Abandon(a: Attempt)
    | Forward(a: Attempt)
    | AbortForward(a: Attempt, k: nat)
    | Emit(a: Attempt)

  function Init(mode: Mode): State {
    State(mode, Broker({}, map[], {}, []), Work(map[], map[]), Past({}, map[], map[], {}, map[], []))
  }

  /** The entries of a completion, in the order they are emitted. */
  function Records(m: MsgId, a: Attempt, c: Completion): seq<Record> {
    seq(|c.primary|, i requires 0 <= i < |c.primary| => Record(m, a, c.primary[i], false))
      + [Record(m, a, c.release, true)]
  }

  /**
    The entries are the first n of completion c of attempt a on m: each output once, in order, the
    primary ones first, and the release last.
  */
  ghost predicate Sends(rs: seq<Record>, m: MsgId, a: Attempt, c: Completion, n: nat) {
    && |rs| == n <= |c.primary| + 1
    && (forall i :: 0 <= i < n ==> rs[i].source == m && rs[i].attempt == a)
    && (forall i :: 0 <= i < n && i < |c.primary| ==> rs[i].output == c.primary[i] && !rs[i].isRelease)
    && (n == |c.primary| + 1 ==> rs[n - 1].output == c.release && rs[n - 1].isRelease)
  }

  ghost predicate SendsAll(rs: seq<Record>, m: MsgId, a: Attempt, c: Completion) {
    Sends(rs, m, a, c, |c.primary| + 1)
  }

  /** Entries that send all of a completion are its records, and a beginning of the records sends as much. */
  lemma RecordsSend(rs: seq<Record>, m: MsgId, a: Attempt, c: Completion)
    ensures SendsAll(rs, m, a, c) <==> rs == Records(m, a, c)
    ensures rs <= Records(m, a, c) ==> Sends(rs, m, a, c, |rs|)
  {
  }

  /** Redis calls of the synchronous completion: every entry, then the acknowledgement. */
  function CallCount(m: MsgId, c: Completion): nat {
    |c.primary| + 1 + (if m == NoId then 0 else 1)
  }

  predicate Enabled(s: State, act: Action) {
    match act
    case Produce(m) => m !in s.past.produced
    case Start(p) => p !in s.work.procs
    case Crash(p) => p in s.work.procs
    case Read(p, m) => p in s.work.procs && m in s.broker.undelivered
    case Claim(p, m) => p in s.work.procs && m in s.broker.pending
    case Begin(p, i, a) => p in s.work.procs && i < |s.work.procs[p].inbox| && a !in s.past.begun
    case Execute(a, c) => a in s.work.handlers && s.work.handlers[a].phase.Running?
    case Abandon(a) => a in s.work.handlers
    case Forward(a) => s.mode.Async? && a in s.work.handlers && s.work.handlers[a].phase.Completing?
    case AbortForward(a, k) =>
      && s.mode.Async? && a in s.work.handlers && s.work.handlers[a].phase.Completing?
      && s.work.handlers[a].msg in s.broker.pending
      && 0 < k <= |s.work.handlers[a].phase.completion.primary| + 1
    case Emit(a) => s.mode.Sync? && a in s.work.handlers && CanCall(s.work.handlers[a])
  }

  predicate CanCall(h: Handler) {
    h.phase.Completing? && h.phase.done < CallCount(h.msg, h.phase.completion)
  }

  // ---------------------------------------------------------------------------------------
  // What each action does to the processes

  function Deliver(w: Work, p: ProcId, m: MsgId): Work
    requires p in w.procs
  {
    w.(procs := w.procs[p := w.procs[p].(inbox := w.procs[p].inbox + [m])])
  }

  /** _begin_in_flight_message: a message this process is already handling is refused. */
  predicate Refused(proc: Process, m: MsgId) {
    m != NoId && m in proc.inFlight
  }

  function BeginWork(w: Work, p: ProcId, i: nat, a: Attempt): Work
    requires p in w.procs && i < |w.procs[p].inbox|
  {
    var proc := w.procs[p];
    var m := proc.inbox[i];
    var rest := proc.inbox[..i] + proc.inbox[i + 1..];
    if Refused(proc, m) then
      w.(procs := w.procs[p := proc.(inbox := rest)])
    else
      Work(w.procs[p := Process(rest, if m == NoId then proc.inFlight else proc.inFlight + {m})],
           w.handlers[a := Handler(p, m, Running)])
  }

  /** The `finally` of process_message: the handler ends and its id leaves the in-flight set. */
  function FinishWork(w: Work, a: Attempt): Work
    requires a in w.handlers
  {
    var h := w.handlers[a];
    Work(if h.proc in w.procs
         then w.procs[h.proc := w.procs[h.proc].(inFlight := w.procs[h.proc].inFlight - {h.msg})]
         else w.procs,
         w.handlers - {a})
  }

  function Rephase(w: Work, a: Attempt, ph: Phase): Work
    requires a in w.handlers
  {
    w.(handlers := w.handlers[a := w.handlers[a].(phase := ph)])
  }

  function CrashWork(w: Work, p: ProcId): Work {
    Work(w.procs - {p}, map a | a in w.handlers && w.handlers[a].proc != p :: w.handlers[a])
  }

  function StepWork(s: State, act: Action): Work
    requires Enabled(s, act)
  {
    var w := s.work;
    match act
    case Produce(_) => w
    case Start(p) => w.(procs := w.procs[p := Process([], {})])
    case Crash(p) => CrashWork(w, p)
    case Read(p, m) => Deliver(w, p, m)
    case Claim(p, m) => Deliver(w, p, m)
    case Begin(p, i, a) => BeginWork(w, p, i, a)
    case Execute(a, c) => Rephase(w, a, Completing(c, 0))
    case Abandon(a) => FinishWork(w, a)
    case Forward(a) => FinishWork(w, a)
    case AbortForward(a, _) => FinishWork(w, a)
    case Emit(a) =>
      var h := w.handlers[a];
      if h.phase.done + 1 == CallCount(h.msg, h.phase.completion) then FinishWork(w, a)
      else Rephase(w, a, Completing(h.phase.completion, h.phase.done + 1))
  }

  // ---------------------------------------------------------------------------------------
  // What each action does to the broker

  function Ack(b: Broker, m: MsgId): Broker {
    if m in b.pending then b.(pending := b.pending - {m}, acked := b.acked + {m}) else b
  }

  /** forward_many: nothing when the source is no longer pending, otherwise everything and the ack. */
  function ForwardMany(b: Broker, m: MsgId, rs: seq<Record>): Broker {
    if m in b.pending then Ack(b.(log := b.log + rs), m) else b
  }

  /** What an aborted forward_many of attempt a leaves: its first k entries, the message still pending. */
  function LeftBy(s: State, a: Attempt, k: nat): Leftover
    requires Enabled(s, AbortForward(a, k))
  {
    var h := s.work.handlers[a];
    Leftover(h.msg, a, Records(h.msg, a, h.phase.completion)[..k])
  }

  /** The next call of the synchronous completion: append an entry, or acknowledge. */
  function CallBroker(b: Broker, a: Attempt, h: Handler): Broker
    requires CanCall(h)
  {
    if h.phase.done <= |h.phase.completion.primary| then
      b.(log := b.log + [Records(h.msg, a, h.phase.completion)[h.phase.done]])
    else
      Ack(b, h.msg)
  }

  function StepBroker(s: State, act: Action): Broker
    requires Enabled(s, act)
  {
    var b := s.broker;
    match act
    case Produce(m) => b.(undelivered := b.undelivered + {m})
    case Read(p, m) => b.(undelivered := b.undelivered - {m}, pending := b.pending[m := p])
    case Claim(p, m) => b.(pending := b.pending[m := p])
    case Forward(a) =>
      var h := s.work.handlers[a];
      ForwardMany(b, h.msg, Records(h.msg, a, h.phase.completion))
    case AbortForward(a, k) => b.(log := b.log + LeftBy(s, a, k).entries)
    case Emit(a) => CallBroker(b, a, s.work.handlers[a])
    case _ => b
  }

  // ---------------------------------------------------------------------------------------
  // What each action adds to the history

  function CallPast(b: Broker, past: Past, a: Attempt, h: Handler): Past
    requires CanCall(h)
  {
    if h.phase.done == |h.phase.completion.primary| then past.(released := past.released + {a})
    else if h.phase.done > |h.phase.completion.primary| && h.msg in b.pending then
      past.(ackedBy := past.ackedBy[h.msg := a])
    else past
  }

  function StepPast(s: State, act: Action): Past
    requires Enabled(s, act)
  {
    match act
    case Produce(m) => s.past.(produced := s.past.produced + {m})
    case Begin(p, i, a) =>
      var proc := s.work.procs[p];
      if Refused(proc, proc.inbox[i]) then s.past
      else s.past.(begun := s.past.begun[a := proc.inbox[i]])
    case Execute(a, c) => s.past.(plans := s.past.plans[a := c])
    case Forward(a) =>
      var m := s.work.handlers[a].msg;
      if m in s.broker.pending then
        s.past.(released := s.past.released + {a}, ackedBy := s.past.ackedBy[m := a])
      else s.past
    case AbortForward(a, k) =>
      var whole := k > |s.work.handlers[a].phase.completion.primary|;
      s.past.(released := if whole then s.past.released + {a} else s.past.released,
              aborts := s.past.aborts + [LeftBy(s, a, k)])
    case Emit(a) => CallPast(s.broker, s.past, a, s.work.handlers[a])
    case _ => s.past
  }

  function Step(s: State, act: Action): State
    requires Enabled(s, act)
  {
    State(s.mode, StepBroker(s, act), StepWork(s, act), StepPast(s, act))
  }

  /** A run: every action is enabled in the state the earlier ones lead to. */
  ghost predicate IsRun(s: State, acts: seq<Action>)
    decreases |acts|
  {
    acts == [] || (Enabled(s, acts[0]) && IsRun(Step(s, acts[0]), acts[1..]))
  }

  ghost function After(s: State, acts: seq<Action>): State
    requires IsRun(s, acts)
    decreases |acts|
  {
    if acts == [] then s else After(Step(s, acts[0]), acts[1..])
  }

  // ---------------------------------------------------------------------------------------
  // Views of the log

  function OfSource(log: seq<Record>, m: MsgId): seq<Record> {
    if log == [] then []
    else OfSource(log[..|log| - 1], m) + (if log[|log| - 1].source == m then [log[|log| - 1]] else [])
  }

  function OfAttempt(log: seq<Record>, a: Attempt): seq<Record> {
    if log == [] then []
    else OfAttempt(log[..|log| - 1], a) + (if log[|log| - 1].attempt == a then [log[|log| - 1]] else [])
  }

  function ReleaseCount(log: seq<Record>, m: MsgId): nat {
    if log == [] then 0
    else ReleaseCount(log[..|log| - 1], m)
         + (if log[|log| - 1].source == m && log[|log| - 1].isRelease then 1 else 0)
  }

  /** The handling attempts ever begun on m, and those of them that emitted a release. */
  ghost function AttemptsOn(past: Past, m: MsgId): set<Attempt> {
    set a | a in past.begun && past.begun[a] == m
  }

  ghost function ReleasersOf(past: Past, m: MsgId): set<Attempt> {
    set a | a in past.begun && past.begun[a] == m && a in past.released
  }

  /** What aborted scripts left of m, oldest first. */
  ghost function LeftoversOf(aborts: seq<Leftover>, m: MsgId): seq<Record> {
    if aborts == [] then []
    else LeftoversOf(aborts[..|aborts| - 1], m)
         + (if aborts[|aborts| - 1].msg == m then aborts[|aborts| - 1].entries else [])
  }

  lemma OfSourceAppend(log: seq<Record>, r: Record, m: MsgId)
    ensures OfSource(log + [r], m) == OfSource(log, m) + (if r.source == m then [r] else [])
  {
    assert (log + [r])[..|log|] == log;
  }

  lemma OfAttemptAppend(log: seq<Record>, r: Record, a: Attempt)
    ensures OfAttempt(log + [r], a) == OfAttempt(log, a) + (if r.attempt == a then [r] else [])
  {
    assert (log + [r])[..|log|] == log;
  }

  lemma ReleaseCountAppend(log: seq<Record>, r: Record, m: MsgId)
    ensures ReleaseCount(log + [r], m) == ReleaseCount(log, m) + (if r.source == m && r.isRelease then 1 else 0)
  {
    assert (log + [r])[..|log|] == log;
  }

  lemma {:induction false} OfSourceConcat(log: seq<Record>, rs: seq<Record>, m: MsgId, src: MsgId)
    requires forall r :: r in rs ==> r.source == src
    ensures OfSource(log + rs, m) == OfSource(log, m) + (if src == m then rs else [])
    decreases |rs|
  {
    if rs == [] {
      assert log + rs == log;
    } else {
      var n := |rs| - 1;
      assert log + rs == (log + rs[..n]) + [rs[n]];
      assert rs[n] in rs;
      OfSourceAppend(log + rs[..n], rs[n], m);
      OfSourceConcat(log, rs[..n], m, src);
      assert rs[..n] + [rs[n]] == rs;
    }
  }
}
