/**
  process_message and complete_job of scripts/inference_worker.py in their own imperative form,
  proved to make exactly the steps of the protocol. A failing Redis connection is a parameter:
  `budget` is the number of calls that succeed before one raises.
*/
module WorkerClient {
  import opened WorkerProtocol
  import opened WorkerSafety

  /** The broker after the first k calls of a synchronous completion. */
  function AfterCalls(b: Broker, a: Attempt, m: MsgId, c: Completion, k: nat): Broker
    requires k <= CallCount(m, c)
  {
    if k == 0 then b
    else CallBroker(AfterCalls(b, a, m, c, k - 1), a, Handler(0, m, Completing(c, k - 1)))
  }

  /** The calls append the records of the completion one by one, and only the last may acknowledge. */
  lemma {:induction false} CallsEmitPrefix(b: Broker, a: Attempt, m: MsgId, c: Completion, k: nat)
    requires k <= CallCount(m, c)
    ensures var t := AfterCalls(b, a, m, c, k);
            && t.log == b.log + Records(m, a, c)[..Appended(c, k)]
            && t.undelivered == b.undelivered
            && (k <= |c.primary| + 1 ==> t.pending == b.pending && t.acked == b.acked)
            && (k == |c.primary| + 2 ==> t.pending == b.pending - {m}
                                         && t.acked == b.acked + (if m in b.pending then {m} else {}))
  {
    var rs := Records(m, a, c);
    if k == 0 {
      assert b.log + rs[..0] == b.log;
    } else {
      CallsEmitPrefix(b, a, m, c, k - 1);
      if k <= |c.primary| + 1 {
        assert rs[..k - 1] + [rs[k - 1]] == rs[..k];
        assert b.log + rs[..k] == (b.log + rs[..k - 1]) + [rs[k - 1]];
      }
    }
  }

  /** The log has grown by exactly the first n entries of the completion. */
  ghost predicate GrownBy(before: seq<Record>, log: seq<Record>, m: MsgId, a: Attempt, c: Completion, n: nat) {
    before <= log && Sends(log[|before|..], m, a, c, n)
  }

  lemma GrownByCalls(b: Broker, a: Attempt, m: MsgId, c: Completion, k: nat)
    requires k <= CallCount(m, c)
    ensures GrownBy(b.log, AfterCalls(b, a, m, c, k).log, m, a, c, Appended(c, k))
  {
    CallsEmitPrefix(b, a, m, c, k);
    var rs := Records(m, a, c)[..Appended(c, k)];
    RecordsSend(rs, m, a, c);
    assert (b.log + rs)[|b.log|..] == rs;
  }

  /** The Redis client of one worker. */
  class StreamClient {
    var broker: Broker

    constructor (b: Broker)
      ensures broker == b
    {
      broker := b;
    }

    method XAdd(r: Record)
      modifies this
      ensures broker == old(broker).(log := old(broker).log + [r])
    {
      broker := broker.(log := broker.log + [r]);
    }

    method XAck(m: MsgId)
      modifies this
      ensures broker == Ack(old(broker), m)
    {
      broker := Ack(broker, m);
    }
  }

  /** The loop of complete_job over the primary outputs; it stops early when a call raises. */
  method EmitPrimaries(client: StreamClient, a: Attempt, m: MsgId, c: Completion, budget: nat) returns (made: nat)
    modifies client
    ensures made == if budget <= |c.primary| then budget else |c.primary|
    ensures client.broker == AfterCalls(old(client.broker), a, m, c, made)
  {
    ghost var b := client.broker;
    made := 0;
    while made < |c.primary| && made < budget
      invariant made <= |c.primary| && made <= budget
      invariant client.broker == AfterCalls(b, a, m, c, made)
    {
      client.XAdd(Record(m, a, c.primary[made], false));
      made := made + 1;
    }
  }

  /**
    complete_job: the primary outputs in order, then the release, then the acknowledgement of a
    non-empty id. It succeeds exactly when every call does; otherwise it has made the calls before
    the failing one and nothing else.
  */
  method CompleteJob(client: StreamClient, a: Attempt, m: MsgId, c: Completion, budget: nat) returns (ok: bool)
    modifies client
    ensures ok <==> CallCount(m, c) <= budget
    ensures client.broker == AfterCalls(old(client.broker), a, m, c, if ok then CallCount(m, c) else budget)
    ensures GrownBy(old(client.broker.log), client.broker.log, m, a, c, if budget <= |c.primary| then budget else |c.primary| + 1)
  {
    GrownByCalls(client.broker, a, m, c, if CallCount(m, c) <= budget then CallCount(m, c) else budget);
    var made := EmitPrimaries(client, a, m, c, budget);
    if made == budget {
      return false;
    }
    client.XAdd(Record(m, a, c.release, true));
    if m != NoId {
      if made + 1 == budget {
        return false;
      }
      client.XAck(m);
    }
    return true;
  }

  /** How executing the job ends: with a result to send, or with a fatal exception. */
  datatype Execution = Result(completion: Completion) | Fatal

  datatype Outcome = Skipped | Completed | LeftPending | Raised

  class Worker {
    const client: StreamClient
    var inFlight: set<MsgId>

    constructor (client: StreamClient)
      ensures this.client == client && inFlight == {}
    {
      this.client := client;
      inFlight := {};
    }

    /** _begin_in_flight_message */
    method BeginMessage(m: MsgId) returns (ok: bool)
      modifies this`inFlight
      ensures ok <==> !(m != NoId && m in old(inFlight))
      ensures inFlight == old(inFlight) + (if m == NoId then {} else {m})
    {
      if m == NoId {
        return true;
      }
      if m in inFlight {
        return false;
      }
      inFlight := inFlight + {m};
      return true;
    }

    /** _finish_in_flight_message */
    method FinishMessage(m: MsgId)
      modifies this`inFlight
      ensures inFlight == old(inFlight) - (if m == NoId then {} else {m})
    {
      if m != NoId {
        inFlight := inFlight - {m};
      }
    }

    /**
      process_message. Whatever happens, the in-flight set is as it was; a duplicate emits nothing;
      a fatal exception emits nothing; a message leaves the pending list only when every entry of
      its completion was appended first.
    */
    method ProcessMessage(a: Attempt, m: MsgId, execution: Execution, budget: nat) returns (outcome: Outcome)
      modifies this`inFlight, client
      ensures inFlight == old(inFlight)
      ensures outcome == Skipped <==> m != NoId && m in old(inFlight)
      ensures outcome == Raised <==> !(m != NoId && m in old(inFlight)) && execution.Fatal?
      ensures outcome == Skipped || outcome == Raised ==> client.broker == old(client.broker)
      ensures outcome == Completed ==>
                && execution.Result?
                && GrownBy(old(client.broker.log), client.broker.log, m, a, execution.completion, |execution.completion.primary| + 1)
                && (m != NoId ==> m !in client.broker.pending)
      ensures outcome == LeftPending ==>
                && execution.Result?
                && client.broker.pending == old(client.broker.pending)
                && budget < |execution.completion.primary| + 2
                && GrownBy(old(client.broker.log), client.broker.log, m, a, execution.completion,
                           if budget <= |execution.completion.primary| then budget else |execution.completion.primary| + 1)
    {
      var entered := BeginMessage(m);
      if !entered {
        return Skipped;
      }
      if execution.Fatal? {
        FinishMessage(m);
        return Raised;
      }
      var ok := CompleteJob(client, a, m, execution.completion, budget);
      CallsEmitPrefix(old(client.broker), a, m, execution.completion,
                      if ok then CallCount(m, execution.completion) else budget);
      FinishMessage(m);
      return if ok then Completed else LeftPending;
    }
  }
}
