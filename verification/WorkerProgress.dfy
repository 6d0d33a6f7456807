/**
  No message is ever stuck: from every reachable state, whatever has crashed or failed so far, a
  fresh process can still read or claim any unacknowledged message and complete it.
*/
module WorkerProgress {
  import opened WorkerProtocol
  import opened WorkerSafety

  lemma Prepend(s: State, act: Action, rest: seq<Action>)
    requires Enabled(s, act) && IsRun(Step(s, act), rest)
    ensures IsRun(s, [act] + rest)
    ensures After(s, [act] + rest) == After(Step(s, act), rest)
  {
    assert ([act] + rest)[1..] == rest;
  }

  lemma {:induction false} FreshNat(used: set<nat>) returns (n: nat)
    ensures n !in used
    ensures forall j :: j in used ==> j < n
    decreases used
  {
    if used == {} {
      n := 0;
    } else {
      var k :| k in used;
      var rest := FreshNat(used - {k});
      assert used == (used - {k}) + {k};
      n := if rest <= k then k + 1 else rest;
    }
  }

  /** A handler in the middle of its calls reaches the acknowledgement when nothing fails. */
  lemma {:induction false} FinishCalls(s: State, a: Attempt, m: MsgId) returns (rest: seq<Action>)
    requires s.mode.Sync? && a in s.work.handlers && CanCall(s.work.handlers[a])
    requires s.work.handlers[a].msg == m && m != NoId && m in s.broker.pending
    ensures IsRun(s, rest) && m in After(s, rest).broker.acked
    decreases CallCount(m, s.work.handlers[a].phase.completion) - s.work.handlers[a].phase.done
  {
    var t := Step(s, Emit(a));
    var h := s.work.handlers[a];
    if h.phase.done > |h.phase.completion.primary| {
      rest := [];
      assert m in t.broker.acked;
    } else {
      assert t.work.handlers[a] == h.(phase := Completing(h.phase.completion, h.phase.done + 1));
      rest := FinishCalls(t, a, m);
    }
    Prepend(s, Emit(a), rest);
    rest := [Emit(a)] + rest;
  }

  /** A message that has just been handed to an idle process can be completed by it. */
  lemma CompleteDelivered(s: State, p: ProcId, m: MsgId, c: Completion) returns (rest: seq<Action>)
    requires p in s.work.procs && s.work.procs[p] == Process([m], {})
    requires m in s.broker.pending && m != NoId
    ensures IsRun(s, rest) && m in After(s, rest).broker.acked
  {
    var a := FreshNat(s.past.begun.Keys);
    var s1 := Step(s, Begin(p, 0, a));
    assert s1.work.handlers[a] == Handler(p, m, Running);
    var s2 := Step(s1, Execute(a, c));
    assert s2.work.handlers[a] == Handler(p, m, Completing(c, 0));
    if s.mode.Sync? {
      rest := FinishCalls(s2, a, m);
    } else {
      rest := [];
      assert m in Step(s2, Forward(a)).broker.acked;
      Prepend(s2, Forward(a), rest);
      rest := [Forward(a)] + rest;
    }
    Prepend(s1, Execute(a, c), rest);
    Prepend(s, Begin(p, 0, a), [Execute(a, c)] + rest);
    rest := [Begin(p, 0, a)] + ([Execute(a, c)] + rest);
  }

  /** From every reachable state an unacknowledged message can still be completed, with any outcome c. */
  lemma NeverStuck(mode: Mode, acts: seq<Action>, m: MsgId, c: Completion)
    requires IsRun(Init(mode), acts)
    requires m in After(Init(mode), acts).past.produced && m !in After(Init(mode), acts).broker.acked
    requires m != NoId
    ensures exists rest :: IsRun(After(Init(mode), acts), rest)
                           && m in After(After(Init(mode), acts), rest).broker.acked
  {
    var s := After(Init(mode), acts);
    if mode.Sync? {
      SyncInit();
      SyncRunSafe(Init(mode), acts);
    } else {
      AsyncRunSafe(Init(mode), acts);
    }
    var p := FreshNat(s.work.procs.Keys);
    var s1 := Step(s, Start(p));
    var take := if m in s.broker.undelivered then Read(p, m) else Claim(p, m);
    var s2 := Step(s1, take);
    assert s2.work.procs[p] == Process([m], {});
    var rest := CompleteDelivered(s2, p, m, c);
    Prepend(s1, take, rest);
    Prepend(s, Start(p), [take] + rest);
  }

  lemma {:induction false} Chain(s: State, xs: seq<Action>, ys: seq<Action>)
    requires IsRun(s, xs) && IsRun(After(s, xs), ys)
    ensures IsRun(s, xs + ys) && After(s, xs + ys) == After(After(s, xs), ys)
    decreases |xs|
  {
    if xs == [] {
      assert xs + ys == ys;
    } else {
      Chain(Step(s, xs[0]), xs[1..], ys);
      assert (xs + ys)[1..] == xs[1..] + ys;
    }
  }

  /** One more process claims m and executes it, and nothing has been emitted yet. */
  lemma ExecuteAgain(s: State, m: MsgId, c: Completion) returns (rest: seq<Action>, a: Attempt)
    requires m in s.broker.pending && m != NoId
    ensures IsRun(s, rest)
    ensures var t := After(s, rest);
            && t.mode == s.mode && m in t.broker.pending
            && t.broker.log == s.broker.log && t.past.aborts == s.past.aborts
            && a in t.work.handlers && t.work.handlers[a].msg == m && t.work.handlers[a].phase == Completing(c, 0)
  {
    var p := FreshNat(s.work.procs.Keys);
    a := FreshNat(s.past.begun.Keys);
    var s1 := Step(s, Start(p));
    var s2 := Step(s1, Claim(p, m));
    assert s2.work.procs[p] == Process([m], {});
    var s3 := Step(s2, Begin(p, 0, a));
    assert s3.work.handlers[a] == Handler(p, m, Running);
    rest := [];
    Prepend(s3, Execute(a, c), rest);
    rest := [Execute(a, c)] + rest;
    Prepend(s2, Begin(p, 0, a), rest);
    rest := [Begin(p, 0, a)] + rest;
    Prepend(s1, Claim(p, m), rest);
    rest := [Claim(p, m)] + rest;
    Prepend(s, Start(p), rest);
    rest := [Start(p)] + rest;
  }

  lemma One(s: State, act: Action)
    requires Enabled(s, act)
    ensures IsRun(s, [act]) && After(s, [act]) == Step(s, act)
  {
    Prepend(s, act, []);
    assert [act] + [] == [act];
  }

  /** One more process claims m, emits the release, and is never heard of again. */
  lemma ReleaseAgain(s: State, m: MsgId, release: Output) returns (rest: seq<Action>)
    requires s.mode.Sync? && m in s.broker.pending && m != NoId
    ensures IsRun(s, rest)
    ensures var t := After(s, rest);
            && t.mode.Sync? && m in t.broker.pending
            && ReleaseCount(t.broker.log, m) == ReleaseCount(s.broker.log, m) + 1
  {
    var first, a := ExecuteAgain(s, m, Completion([], release));
    var t := After(s, first);
    ReleaseCountAppend(t.broker.log, Record(m, a, release, true), m);
    One(t, Emit(a));
    Chain(s, first, [Emit(a)]);
    rest := first + [Emit(a)];
  }

  /** One more process claims m, and its forward_many aborts after k entries: they stay, and m stays pending. */
  lemma AbortAgain(s: State, m: MsgId, c: Completion, k: nat) returns (rest: seq<Action>)
    requires s.mode.Async? && m in s.broker.pending && m != NoId && 0 < k <= |c.primary| + 1
    ensures IsRun(s, rest)
    ensures var t := After(s, rest);
            && t.mode.Async? && m in t.broker.pending
            && |OfSource(t.broker.log, m)| == |OfSource(s.broker.log, m)| + k && !NoneAborted(t.past, m)
  {
    var first, a := ExecuteAgain(s, m, c);
    var t := After(s, first);
    var x := LeftBy(t, a, k);
    OfSourceConcat(t.broker.log, x.entries, m, m);
    One(t, AbortForward(a, k));
    assert Step(t, AbortForward(a, k)).past.aborts[|t.past.aborts|] == x;
    Chain(s, first, [AbortForward(a, k)]);
    rest := first + [AbortForward(a, k)];
  }

  /**
    Synchronous completion is not exactly once, and no number of releases bounds it: for every n
    some run has emitted n releases of one message that is still pending.
  */
  lemma {:induction false} SyncReleasesUnbounded(n: nat, release: Output) returns (acts: seq<Action>)
    ensures IsRun(Init(Sync), acts)
    ensures var t := After(Init(Sync), acts);
            t.mode.Sync? && Id(0) in t.broker.pending && ReleaseCount(t.broker.log, Id(0)) == n
  {
    var m := Id(0);
    if n == 0 {
      var s1 := Step(Init(Sync), Produce(m));
      var s2 := Step(s1, Start(0));
      acts := [];
      Prepend(s2, Read(0, m), acts);
      acts := [Read(0, m)] + acts;
      Prepend(s1, Start(0), acts);
      acts := [Start(0)] + acts;
      Prepend(Init(Sync), Produce(m), acts);
      acts := [Produce(m)] + acts;
    } else {
      var before := SyncReleasesUnbounded(n - 1, release);
      var more := ReleaseAgain(After(Init(Sync), before), m, release);
      Chain(Init(Sync), before, more);
      acts := before + more;
    }
  }
}
