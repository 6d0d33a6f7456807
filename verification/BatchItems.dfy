/**
  What BatchExecutionCoordinator.execute promises about a list of items (python/batch_runtime.py),
  and its sequential mode. Per-item callbacks are independent of each other, so an item is
  described by how its preflight and its execution end. Exceptions are known by number.
*/
module BatchItems {

  datatype Option<+T> = None | Some(value: T)

  /** How the preflight callback ends: a result, the RUN_ITEM sentinel, or an exception. */
  datatype Preflight<+R> = Immediate(result: R) | RunItem | PreError(error: nat) | PreFatal(fatal: nat)

  /** How executing the item ends. */
  datatype Execution<+R> = Value(result: R) | Error(error: nat) | Fatal(fatal: nat)

  datatype Item<+R> = Item(pre: Preflight<R>, run: Execution<R>)

  /** handle_exception, when the caller gave one. */
  type Handler<!R> = Option<(Item<R>, nat) -> R>

  datatype Outcome<+R> =
    | Returned(results: seq<R>)
    | RaisedError(error: nat)
    | RaisedFatal(fatal: nat)
    | Closed

  predicate PreRaisesError<R>(i: Item<R>) { i.pre.PreError? }
  predicate PreRaisesFatal<R>(i: Item<R>) { i.pre.PreFatal? }
  predicate RunRaisesError<R>(i: Item<R>) { i.pre.RunItem? && i.run.Error? }
  predicate RunRaisesFatal<R>(i: Item<R>) { i.pre.RunItem? && i.run.Fatal? }
  predicate RaisesError<R>(i: Item<R>) { PreRaisesError(i) || RunRaisesError(i) }
  predicate RaisesFatal<R>(i: Item<R>) { PreRaisesFatal(i) || RunRaisesFatal(i) }

  function ErrorOf<R>(i: Item<R>): nat
    requires RaisesError(i)
  {
    if i.pre.PreError? then i.pre.error else i.run.error
  }

  function FatalOf<R>(i: Item<R>): nat
    requires RaisesFatal(i)
  {
    if i.pre.PreFatal? then i.pre.fatal else i.run.fatal
  }

  /** The result of an item on its own; none when its failure is not turned into one. */
  function Decided<R>(i: Item<R>, handler: Handler<R>): Option<R> {
    if i.pre.Immediate? then Some(i.pre.result)
    else if i.pre.RunItem? && i.run.Value? then Some(i.run.result)
    else if RaisesError(i) && handler.Some? then Some(handler.value(i, ErrorOf(i)))
    else None
  }

  /** What an item comes to: its immediate result, the value of its execution, or what the handler makes of its exception. */
  ghost predicate ComesTo<R>(i: Item<R>, handler: Handler<R>, r: R) {
    match i.pre
    case Immediate(x) => r == x
    case PreError(e) => handler.Some? && r == handler.value(i, e)
    case PreFatal(_) => false
    case RunItem =>
      match i.run
      case Value(x) => r == x
      case Error(e) => handler.Some? && r == handler.value(i, e)
      case Fatal(_) => false
  }

  lemma DecidedIsResult<R>(i: Item<R>, handler: Handler<R>, r: R)
    ensures Decided(i, handler) == Some(r) <==> ComesTo(i, handler, r)
  {
  }

  /** The first of the first n items that satisfies p. */
  function First<R>(items: seq<Item<R>>, p: Item<R> -> bool, n: nat): (k: Option<nat>)
    requires n <= |items|
    ensures k.Some? ==> k.value < n && p(items[k.value])
  {
    if n == 0 then None
    else
      var earlier := First(items, p, n - 1);
      if earlier.Some? then earlier
      else if p(items[n - 1]) then Some(n - 1)
      else None
  }

  lemma {:induction false} FirstIsFirst<R>(items: seq<Item<R>>, p: Item<R> -> bool, n: nat)
    requires n <= |items|
    ensures var k := First(items, p, n);
            forall j :: 0 <= j < (if k.Some? then k.value else n) ==> !p(items[j])
    decreases n
  {
    if n > 0 {
      FirstIsFirst(items, p, n - 1);
    }
  }

  function OrElse<T>(a: Option<T>, b: Option<T>): Option<T> {
    if a.Some? then a else b
  }

  predicate SomeUndecided<R>(items: seq<Item<R>>, handler: Handler<R>) {
    exists k :: 0 <= k < |items| && Decided(items[k], handler).None?
  }

  function Results<R>(items: seq<Item<R>>, handler: Handler<R>): seq<R>
    requires !SomeUndecided(items, handler)
  {
    seq(|items|, k requires 0 <= k < |items| => Decided(items[k], handler).value)
  }

  /** How a call ends, given the item whose fatal and the item whose error it raises. */
  function Conclude<R>(items: seq<Item<R>>, handler: Handler<R>, fatal: Option<nat>, error: Option<nat>): Outcome<R>
    requires fatal.Some? ==> fatal.value < |items| && RaisesFatal(items[fatal.value])
    requires error.Some? ==> error.value < |items| && RaisesError(items[error.value])
    requires fatal.None? && error.None? ==> !SomeUndecided(items, handler)
  {
    if fatal.Some? then RaisedFatal(FatalOf(items[fatal.value]))
    else if error.Some? then RaisedError(ErrorOf(items[error.value]))
    else Returned(Results(items, handler))
  }

  /** Errors are only kept to be raised when there is no handler for them. */
  function Kept<R>(handler: Handler<R>, k: Option<nat>): Option<nat> {
    if handler.Some? then None else k
  }

  lemma DecidedUnlessRaises<R>(items: seq<Item<R>>, handler: Handler<R>)
    ensures SomeUndecided(items, handler) <==>
            (exists k :: 0 <= k < |items| && RaisesFatal(items[k]))
            || (handler.None? && exists k :: 0 <= k < |items| && RaisesError(items[k]))
  {
    forall k | 0 <= k < |items|
      ensures Decided(items[k], handler).None? <==>
              RaisesFatal(items[k]) || (handler.None? && RaisesError(items[k]))
    {
    }
  }

  /** One item at a time: failures surface in input order. */
  function SequentialOutcome<R>(items: seq<Item<R>>, handler: Handler<R>): Outcome<R> {
    DecidedUnlessRaises(items, handler);
    FirstIsFirst(items, RaisesFatal, |items|);
    FirstIsFirst(items, RaisesError, |items|);
    Conclude(items, handler,
             First(items, RaisesFatal, |items|),
             Kept(handler, First(items, RaisesError, |items|)))
  }

  lemma FirstByPhase<R>(items: seq<Item<R>>)
    ensures OrElse(First(items, PreRaisesFatal, |items|), First(items, RunRaisesFatal, |items|)).None? <==>
            forall k :: 0 <= k < |items| ==> !RaisesFatal(items[k])
    ensures OrElse(First(items, PreRaisesError, |items|), First(items, RunRaisesError, |items|)).None? <==>
            forall k :: 0 <= k < |items| ==> !RaisesError(items[k])
  {
    FirstIsFirst(items, PreRaisesFatal, |items|);
    FirstIsFirst(items, RunRaisesFatal, |items|);
    FirstIsFirst(items, PreRaisesError, |items|);
    FirstIsFirst(items, RunRaisesError, |items|);
  }

  /** With an executor all preflights come first, so their failures are seen first. */
  function ParallelOutcome<R>(items: seq<Item<R>>, handler: Handler<R>): Outcome<R> {
    DecidedUnlessRaises(items, handler);
    FirstByPhase(items);
    Conclude(items, handler,
             OrElse(First(items, PreRaisesFatal, |items|), First(items, RunRaisesFatal, |items|)),
             Kept(handler, OrElse(First(items, PreRaisesError, |items|), First(items, RunRaisesError, |items|))))
  }

  /** With a handler and no fatal exception both modes return every item's own result, in input order. */
  lemma ModesAgree<R>(items: seq<Item<R>>, handler: Handler<R>)
    requires handler.Some? && forall k :: 0 <= k < |items| ==> !RaisesFatal(items[k])
    ensures !SomeUndecided(items, handler)
    ensures SequentialOutcome(items, handler) == Returned(Results(items, handler))
    ensures ParallelOutcome(items, handler) == Returned(Results(items, handler))
    ensures forall k :: 0 <= k < |items| ==> ComesTo(items[k], handler, Results(items, handler)[k])
  {
    DecidedUnlessRaises(items, handler);
    FirstByPhase(items);
    forall k | 0 <= k < |items| ensures ComesTo(items[k], handler, Results(items, handler)[k]) {
      DecidedIsResult(items[k], handler, Results(items, handler)[k]);
    }
  }

  /** Both modes raise a fatal exception for the same lists, and likewise an ordinary one. */
  lemma ModesRaiseAlike<R>(items: seq<Item<R>>, handler: Handler<R>)
    ensures SequentialOutcome(items, handler).RaisedFatal? <==> ParallelOutcome(items, handler).RaisedFatal?
    ensures SequentialOutcome(items, handler).RaisedFatal? <==> exists k :: 0 <= k < |items| && RaisesFatal(items[k])
    ensures SequentialOutcome(items, handler).RaisedError? <==> ParallelOutcome(items, handler).RaisedError?
    ensures SequentialOutcome(items, handler).Returned? ==>
              SequentialOutcome(items, handler) == ParallelOutcome(items, handler)
  {
    DecidedUnlessRaises(items, handler);
    FirstByPhase(items);
    FirstIsFirst(items, RaisesFatal, |items|);
    FirstIsFirst(items, RaisesError, |items|);
  }

  /** In input order something comes first with p or q; phase by phase it is the first p, or else the first q. */
  lemma FirstByPhaseIff<R>(items: seq<Item<R>>, any: Item<R> -> bool, p: Item<R> -> bool, q: Item<R> -> bool)
    requires forall i :: 0 <= i < |items| ==> (any(items[i]) <==> p(items[i]) || q(items[i])) && !(p(items[i]) && q(items[i]))
    ensures First(items, any, |items|) == OrElse(First(items, p, |items|), First(items, q, |items|))
            <==> !(exists e, f :: 0 <= e < f < |items| && q(items[e]) && p(items[f])
                                  && forall j :: 0 <= j < e ==> !p(items[j]))
  {
    var pre, run := First(items, p, |items|), First(items, q, |items|);
    FirstIsFirst(items, any, |items|);
    FirstIsFirst(items, p, |items|);
    FirstIsFirst(items, q, |items|);
    if pre.Some? && run.Some? && run.value < pre.value {
      assert q(items[run.value]) && p(items[pre.value]);
    }
  }

  /**
    Without a handler the two modes name the same failing item exactly when no failing execution
    comes before the first failing preflight.
  */
  lemma FirstErrorAgrees<R>(items: seq<Item<R>>)
    ensures First(items, RaisesError, |items|)
              == OrElse(First(items, PreRaisesError, |items|), First(items, RunRaisesError, |items|))
            <==> !(exists e, p :: 0 <= e < p < |items| && RunRaisesError(items[e]) && PreRaisesError(items[p])
                                  && forall q :: 0 <= q < e ==> !PreRaisesError(items[q]))
  {
    FirstByPhaseIff(items, RaisesError, PreRaisesError, RunRaisesError);
  }

  /** With or without a handler, the same holds of the item whose fatal exception is raised. */
  lemma FirstFatalAgrees<R>(items: seq<Item<R>>)
    ensures First(items, RaisesFatal, |items|)
              == OrElse(First(items, PreRaisesFatal, |items|), First(items, RunRaisesFatal, |items|))
            <==> !(exists e, p :: 0 <= e < p < |items| && RunRaisesFatal(items[e]) && PreRaisesFatal(items[p])
                                  && forall q :: 0 <= q < e ==> !PreRaisesFatal(items[q]))
  {
    FirstByPhaseIff(items, RaisesFatal, PreRaisesFatal, RunRaisesFatal);
  }

  /** A fatal execution followed by a fatal preflight: one by one the first is raised, in parallel the second. */
  lemma ModesRaiseDifferentFatals(handler: Handler<nat>)
    ensures var items := [Item(RunItem, Fatal(1)), Item(PreFatal(2), Value(0))];
            && SequentialOutcome(items, handler) == RaisedFatal(1)
            && ParallelOutcome(items, handler) == RaisedFatal(2)
  {
    var items: seq<Item<nat>> := [Item(RunItem, Fatal(1)), Item(PreFatal(2), Value(0))];
    assert RaisesFatal(items[0]) && RunRaisesFatal(items[0]) && PreRaisesFatal(items[1]);
    assert First(items, RaisesFatal, 1) == Some(0);
    assert First(items, PreRaisesFatal, 1) == None;
  }
}
