/**
  Deliveries and attempts: over every run a message is handled at most as often as it was read or
  claimed, and a pending message belongs to the process it was last delivered to.
*/
module WorkerDeliveries {
  import opened WorkerProtocol
  import opened WorkerSafety

  /** The action hands m to a process. */
  predicate Delivers(act: Action, m: MsgId) {
    (act.Read? || act.Claim?) && act.m == m
  }

  ghost function Deliveries(acts: seq<Action>, m: MsgId): nat {
    if acts == [] then 0 else (if Delivers(acts[0], m) then 1 else 0) + Deliveries(acts[1..], m)
  }

  /** The process m was last handed to; `before` if it was not handed to any. */
  ghost function LastHolder(before: set<ProcId>, acts: seq<Action>, m: MsgId): set<ProcId>
    decreases |acts|
  {
    if acts == [] then before
    else LastHolder(if Delivers(acts[0], m) then {acts[0].p} else before, acts[1..], m)
  }

  // ---------------------------------------------------------------------------------------
  // Deliveries not yet begun

  ghost function InboxCount(procs: map<ProcId, Process>, p: ProcId, m: MsgId): nat {
    if p in procs then multiset(procs[p].inbox)[m] else 0
  }

  /** Deliveries of m that wait in the inboxes of the processes numbered below n. */
  ghost function WaitingBelow(procs: map<ProcId, Process>, n: nat, m: MsgId): nat {
    if n == 0 then 0 else WaitingBelow(procs, n - 1, m) + InboxCount(procs, n - 1, m)
  }

  lemma {:induction false} WaitingMonotone(procs: map<ProcId, Process>, i: nat, n: nat, m: MsgId)
    requires i <= n
    ensures WaitingBelow(procs, i, m) <= WaitingBelow(procs, n, m)
    decreases n
  {
    if i < n { WaitingMonotone(procs, i, n - 1, m); }
  }

  /** Processes that differ in one inbox at most. */
  lemma {:induction false} WaitingUpdate(before: map<ProcId, Process>, after: map<ProcId, Process>, p: ProcId, n: nat, m: MsgId)
    requires forall q :: q != p ==> InboxCount(after, q, m) <= InboxCount(before, q, m)
    ensures WaitingBelow(after, n, m) <=
              WaitingBelow(before, n, m) + if p < n then InboxCount(after, p, m) - InboxCount(before, p, m) else 0
    decreases n
  {
    if n > 0 { WaitingUpdate(before, after, p, n - 1, m); }
  }

  /** Attempts on m and waiting deliveries of m are at most d. */
  ghost predicate Covered(s: State, m: MsgId, d: nat) {
    forall n: nat {:trigger WaitingBelow(s.work.procs, n, m)} :: |AttemptsOn(s.past, m)| + WaitingBelow(s.work.procs, n, m) <= d
  }

  lemma Taken(inbox: seq<MsgId>, i: nat, m: MsgId)
    requires i < |inbox|
    ensures multiset(inbox[..i] + inbox[i + 1..])[m] == multiset(inbox)[m] - if inbox[i] == m then 1 else 0
  {
    assert inbox == inbox[..i] + [inbox[i]] + inbox[i + 1..];
  }

  /** Beginning a message takes one delivery of it out of the inbox. */
  lemma BeginTakesOne(w: Work, p: ProcId, i: nat, a: Attempt, q: ProcId, m: MsgId)
    requires p in w.procs && i < |w.procs[p].inbox|
    ensures InboxCount(BeginWork(w, p, i, a).procs, q, m) ==
              InboxCount(w.procs, q, m) - if q == p && w.procs[p].inbox[i] == m then 1 else 0
  {
    Taken(w.procs[p].inbox, i, m);
  }

  lemma NewAttempt(past: Past, a: Attempt, msg: MsgId, m: MsgId)
    requires a !in past.begun
    ensures |AttemptsOn(past.(begun := past.begun[a := msg]), m)| == |AttemptsOn(past, m)| + if msg == m then 1 else 0
  {
    var on, next := AttemptsOn(past, m), AttemptsOn(past.(begun := past.begun[a := msg]), m);
    var more: set<Attempt> := if msg == m then {a} else {};
    forall b ensures b in next <==> b in on || b in more {
    }
    assert next == on + more && on !! more;
  }

  lemma BeginAddsAttempt(s: State, p: ProcId, i: nat, a: Attempt, m: MsgId)
    requires Enabled(s, Begin(p, i, a))
    ensures |AttemptsOn(StepPast(s, Begin(p, i, a)), m)| <=
              |AttemptsOn(s.past, m)| + if s.work.procs[p].inbox[i] == m then 1 else 0
  {
    NewAttempt(s.past, a, s.work.procs[p].inbox[i], m);
  }

  lemma BeginKeepsCovered(s: State, p: ProcId, i: nat, a: Attempt, m: MsgId, d: nat)
    requires Enabled(s, Begin(p, i, a)) && Covered(s, m, d)
    ensures Covered(Step(s, Begin(p, i, a)), m, d)
  {
    var before, after := s.work.procs, BeginWork(s.work, p, i, a).procs;
    BeginAddsAttempt(s, p, i, a, m);
    forall n: nat ensures |AttemptsOn(Step(s, Begin(p, i, a)).past, m)| + WaitingBelow(after, n, m) <= d {
      var top := if n <= p then p + 1 else n;
      forall q { BeginTakesOne(s.work, p, i, a, q, m); }
      WaitingUpdate(before, after, p, top, m);
      WaitingMonotone(after, n, top, m);
    }
  }

  lemma DeliverCount(w: Work, p: ProcId, msg: MsgId, q: ProcId, m: MsgId)
    requires p in w.procs
    ensures InboxCount(Deliver(w, p, msg).procs, q, m) == InboxCount(w.procs, q, m) + if q == p && msg == m then 1 else 0
  {
  }

  lemma DeliverKeepsCovered(s: State, act: Action, m: MsgId, d: nat)
    requires Enabled(s, act) && (act.Read? || act.Claim?) && Covered(s, m, d)
    ensures Covered(Step(s, act), m, d + if act.m == m then 1 else 0)
  {
    var before, after := s.work.procs, Deliver(s.work, act.p, act.m).procs;
    forall n: nat ensures |AttemptsOn(Step(s, act).past, m)| + WaitingBelow(after, n, m) <= d + if act.m == m then 1 else 0 {
      forall q { DeliverCount(s.work, act.p, act.m, q, m); }
      WaitingUpdate(before, after, act.p, n, m);
    }
  }

  /** No other action begins an attempt or fills an inbox. */
  lemma OtherStepInboxes(s: State, act: Action, q: ProcId, m: MsgId)
    requires Enabled(s, act) && !act.Begin? && !act.Read? && !act.Claim?
    ensures InboxCount(StepWork(s, act).procs, q, m) <= InboxCount(s.work.procs, q, m)
    ensures StepPast(s, act).begun == s.past.begun
  {
  }

  lemma OtherStepKeepsCovered(s: State, act: Action, m: MsgId, d: nat)
    requires Enabled(s, act) && !act.Begin? && !act.Read? && !act.Claim? && Covered(s, m, d)
    ensures Covered(Step(s, act), m, d)
  {
    var before, after := s.work.procs, StepWork(s, act).procs;
    OtherStepInboxes(s, act, 0, m);
    forall n: nat ensures |AttemptsOn(Step(s, act).past, m)| + WaitingBelow(after, n, m) <= d {
      forall q { OtherStepInboxes(s, act, q, m); }
      WaitingUpdate(before, after, n, n, m);
    }
  }

  lemma StepKeepsCovered(s: State, act: Action, m: MsgId, d: nat)
    requires Enabled(s, act) && Covered(s, m, d)
    ensures Covered(Step(s, act), m, d + if Delivers(act, m) then 1 else 0)
  {
    if act.Begin? {
      BeginKeepsCovered(s, act.p, act.i, act.a, m, d);
    } else if act.Read? || act.Claim? {
      DeliverKeepsCovered(s, act, m, d);
    } else {
      OtherStepKeepsCovered(s, act, m, d);
    }
  }

  lemma {:induction false} RunKeepsCovered(s: State, acts: seq<Action>, m: MsgId, d: nat)
    requires IsRun(s, acts) && Covered(s, m, d)
    ensures Covered(After(s, acts), m, d + Deliveries(acts, m))
    decreases |acts|
  {
    if acts != [] {
      StepKeepsCovered(s, acts[0], m, d);
      RunKeepsCovered(Step(s, acts[0]), acts[1..], m, d + if Delivers(acts[0], m) then 1 else 0);
    }
  }

  lemma {:induction false} NothingWaits(n: nat, m: MsgId)
    ensures WaitingBelow(map[], n, m) == 0
  {
    if n > 0 { NothingWaits(n - 1, m); }
  }

  /** Over every run, in both modes, a message is handled at most as often as it was delivered. */
  lemma HandledAtMostDelivered(mode: Mode, acts: seq<Action>, m: MsgId)
    requires IsRun(Init(mode), acts)
    ensures |AttemptsOn(After(Init(mode), acts).past, m)| <= Deliveries(acts, m)
  {
    forall n: nat ensures |AttemptsOn(Init(mode).past, m)| + WaitingBelow(Init(mode).work.procs, n, m) <= 0 {
      NothingWaits(n, m);
      assert AttemptsOn(Init(mode).past, m) == {};
    }
    RunKeepsCovered(Init(mode), acts, m, 0);
    assert WaitingBelow(After(Init(mode), acts).work.procs, 0, m) == 0;
  }

  /** A synchronous message has no more releases than deliveries, and one delivered once is emitted exactly once when acknowledged. */
  lemma SyncDeliveredOnce(acts: seq<Action>, m: MsgId)
    requires IsRun(Init(Sync), acts)
    ensures var s := After(Init(Sync), acts);
            && ReleaseCount(s.broker.log, m) <= Deliveries(acts, m)
            && (m in s.broker.acked && Deliveries(acts, m) == 1 ==>
                  && m in s.past.ackedBy && s.past.ackedBy[m] in s.past.plans
                  && SendsAll(OfSource(s.broker.log, m), m, s.past.ackedBy[m], s.past.plans[s.past.ackedBy[m]]))
  {
    var s := After(Init(Sync), acts);
    HandledAtMostDelivered(Sync, acts, m);
    SyncAtLeastOnce(acts, m, 0);
    if m in s.broker.acked {
      SyncExactlyOnceIff(acts, m);
      if Deliveries(acts, m) == 1 {
        SyncInit();
        SyncRunSafe(Init(Sync), acts);
        assert s.past.ackedBy[m] in AttemptsOn(s.past, m);
        assert |AttemptsOn(s.past, m)| == 1;
      }
    }
  }

  // ---------------------------------------------------------------------------------------
  // Who holds a pending message

  ghost predicate HeldBy(b: Broker, m: MsgId, holder: set<ProcId>) {
    m in b.pending ==> holder == {b.pending[m]}
  }

  lemma StepKeepsHolder(s: State, act: Action, m: MsgId, holder: set<ProcId>)
    requires Enabled(s, act) && HeldBy(s.broker, m, holder)
    ensures HeldBy(StepBroker(s, act), m, if Delivers(act, m) then {act.p} else holder)
  {
  }

  lemma {:induction false} RunKeepsHolder(s: State, acts: seq<Action>, m: MsgId, holder: set<ProcId>)
    requires IsRun(s, acts) && HeldBy(s.broker, m, holder)
    ensures HeldBy(After(s, acts).broker, m, LastHolder(holder, acts, m))
    decreases |acts|
  {
    if acts != [] {
      StepKeepsHolder(s, acts[0], m, holder);
      RunKeepsHolder(Step(s, acts[0]), acts[1..], m, if Delivers(acts[0], m) then {acts[0].p} else holder);
    }
  }

  /** Over every run a pending message belongs to the process it was last read or claimed by. */
  lemma PendingIsLastHolder(mode: Mode, acts: seq<Action>, m: MsgId)
    requires IsRun(Init(mode), acts)
    ensures var b := After(Init(mode), acts).broker;
            m in b.pending ==> LastHolder({}, acts, m) == {b.pending[m]}
  {
    RunKeepsHolder(Init(mode), acts, m, {});
  }
}
