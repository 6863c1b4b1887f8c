/**
 The lock-free handshake between a task's subscription loop and the threads that stop it
 (`squeaknode/node/payment_processor.py`): no lock guards `stopped` and `payments_result`.

 Subscriptions are numbered in the order they are opened. The contract of the lightning node is that a
 cancelled stream takes no new items and ends once the items it had already buffered are read.
 `openedAfterStop` only records the past of a run.
 */
module StopHandshake {
  import opened Basics

  /** The subscription loop, between two accesses to what it shares. */
  datatype LoopPc =
    | TestStopped
    | Subscribe
    | Assign(sub: nat)
    | TestStoppedAgain
    | CancelOwn
    | ReadStream
    | WaitRetry
    | Exited

  /** A call of `stop_processing`. */
  datatype StopPc = SetFlag | TestResult | CancelResult | Finished

  datatype Task = Task(
    stopped: bool,
    result: Option<nat>,
    subscriptions: nat,
    cancelled: set<nat>,
    buffered: nat,
    loop: LoopPc,
    stops: map<nat, StopPc>,
    openedAfterStop: nat)

  datatype Event =
      /** The loop takes one step; `fails` selects the error branch where the source has one. */
    | Loop(fails: bool)
      /** Handling an item raises an error, of the database say, that the loop does not catch: the thread ends. */
    | Break
      /** The invoice stream receives another item. */
    | Arrive
    | CallStop(c: nat)
    | Stop(c: nat)

  predicate Possible(s: Task, e: Event) {
    match e
    case Loop(fails) =>
      && !s.loop.Exited?
      // An open stream with nothing to read blocks the loop, unless it fails.
      && (s.loop.ReadStream? && s.buffered == 0 && !fails ==> s.result.Some? && s.result.value in s.cancelled)
    case Break => s.loop.ReadStream? && s.buffered > 0
    case Arrive =>
      && (s.loop.Assign? || s.loop.TestStoppedAgain? || s.loop.CancelOwn? || s.loop.ReadStream?)
      && s.subscriptions > 0 && s.subscriptions - 1 !in s.cancelled
    case CallStop(c) => c !in s.stops
    case Stop(c) => c in s.stops && !s.stops[c].Finished?
  }

  function Cancel(s: Task): Task {
    if s.result.Some? then s.(cancelled := s.cancelled + {s.result.value}) else s
  }

  function LoopStep(s: Task, fails: bool): Task {
    match s.loop
    case TestStopped => s.(loop := if s.stopped then Exited else Subscribe)
    case Subscribe =>
      // An error that is not an invoice-subscription error ends the thread.
      if fails then s.(loop := Exited)
      else s.(loop := Assign(s.subscriptions), subscriptions := s.subscriptions + 1, buffered := 0,
              openedAfterStop := s.openedAfterStop + if s.stopped then 1 else 0)
    case Assign(sub) => s.(result := Some(sub), loop := TestStoppedAgain)
    case TestStoppedAgain => s.(loop := if s.stopped then CancelOwn else ReadStream)
    case CancelOwn => Cancel(s).(loop := ReadStream)
    case ReadStream =>
      if fails then s.(loop := WaitRetry)
      else if s.buffered > 0 then s.(buffered := s.buffered - 1)
      else s.(loop := TestStopped)
    case WaitRetry => s.(loop := TestStopped)
    case Exited => s
  }

  function StopStep(s: Task, c: nat): Task
    requires c in s.stops
  {
    match s.stops[c]
    case SetFlag => s.(stopped := true, stops := s.stops[c := TestResult])
    case TestResult => s.(stops := s.stops[c := if s.result.Some? then CancelResult else Finished])
    case CancelResult => Cancel(s).(stops := s.stops[c := Finished])
    case Finished => s
  }

  function After(s: Task, e: Event): Task
    requires Possible(s, e)
  {
    match e
    case Loop(fails) => LoopStep(s, fails)
    case Break => s.(loop := Exited)
    case Arrive => s.(buffered := s.buffered + 1)
    case CallStop(c) => s.(stops := s.stops[c := SetFlag])
    case Stop(c) => StopStep(s, c)
  }

  predicate Init(s: Task) {
    s == Task(false, None, 0, {}, 0, TestStopped, map[], 0)
  }

  ghost predicate EventAt(run: seq<Task>, events: seq<Event>, k: nat) {
    k < |events| && k + 1 < |run| && Possible(run[k], events[k]) && run[k + 1] == After(run[k], events[k])
  }

  ghost predicate IsRun(run: seq<Task>, events: seq<Event>) {
    && |run| == |events| + 1 && Init(run[0])
    && forall k: nat :: k < |events| ==> EventAt(run, events, k)
  }

  // ----- Invariant -----
  /** A call of `stop_processing` has returned. */
  predicate SomeStopFinished(s: Task) {
    exists c :: c in s.stops && s.stops[c].Finished?
  }

  /** The loop is past the check it makes after opening a subscription. */
  predicate PassedCheck(s: Task) {
    s.loop.ReadStream?
  }

  predicate NewestCancelled(s: Task) {
    s.result.Some? && s.result.value in s.cancelled
  }

  ghost predicate Inv(s: Task) {
    && (forall c :: c in s.stops && !s.stops[c].SetFlag? ==> s.stopped)
    && (forall c :: c in s.stops && s.stops[c].CancelResult? ==> s.result.Some?)
    && (s.loop.Assign? ==> s.subscriptions == s.loop.sub + 1 && s.result != Some(s.loop.sub))
    && (s.result.Some? ==> s.result.value < s.subscriptions && (!s.loop.Assign? ==> s.result.value == s.subscriptions - 1))
    && (s.loop.TestStoppedAgain? || s.loop.CancelOwn? || s.loop.ReadStream? ==> s.result.Some?)
    && (s.loop.CancelOwn? ==> s.stopped)
    && (PassedCheck(s) && SomeStopFinished(s) ==> NewestCancelled(s))
    && (!s.stopped ==> s.openedAfterStop == 0)
    && s.openedAfterStop <= (if s.loop.Subscribe? then 0 else 1)
  }

  lemma StepKeepsInv(s: Task, e: Event)
    requires Inv(s) && Possible(s, e)
    ensures Inv(After(s, e))
  {
    var s' := After(s, e);
    if PassedCheck(s') && SomeStopFinished(s') {
      var c :| c in s'.stops && s'.stops[c].Finished?;
      assert s'.stopped;
      assert PassedCheck(s) && c in s.stops && s.stops[c].Finished? ==> SomeStopFinished(s);
    }
  }

  lemma {:induction false} RunKeepsInv(run: seq<Task>, events: seq<Event>, k: nat)
    requires IsRun(run, events) && k < |run|
    ensures Inv(run[k])
  {
    if k > 0 {
      RunKeepsInv(run, events, k - 1);
      assert EventAt(run, events, k - 1);
      StepKeepsInv(run[k - 1], events[k - 1]);
    }
  }

  // ----- Results -----
  /**
   In every interleaving: once a stop call has returned and the loop is past its own check, the newest
   subscription has been cancelled, and in all at most one subscription was opened after the flag was set.
   */
  lemma NewestIsCancelled(run: seq<Task>, events: seq<Event>, k: nat)
    requires IsRun(run, events) && k < |run|
    ensures SomeStopFinished(run[k]) && PassedCheck(run[k]) ==>
              NewestCancelled(run[k]) && run[k].result == Some(run[k].subscriptions - 1)
    ensures run[k].openedAfterStop <= 1
  {
    RunKeepsInv(run, events, k);
  }

  /** After a stop call has returned the loop never blocks: it can take a step until it has exited. */
  lemma LoopIsNeverStuck(run: seq<Task>, events: seq<Event>, k: nat)
    requires IsRun(run, events) && k < |run|
    requires SomeStopFinished(run[k]) && !run[k].loop.Exited?
    ensures Possible(run[k], Loop(false))
  {
    RunKeepsInv(run, events, k);
  }

  /** How many more steps the loop can take once the task is stopped, if no more items arrive. */
  function StepsLeft(s: Task): nat {
    match s.loop
    case Subscribe => s.buffered + 7
    case Assign(_) => s.buffered + 6
    case TestStoppedAgain => s.buffered + 5
    case CancelOwn => s.buffered + 4
    case ReadStream => s.buffered + 3
    case WaitRetry => 2
    case TestStopped => 1
    case Exited => 0
  }

  function LoopSteps(events: seq<Event>): nat {
    if events == [] then 0 else LoopSteps(events[..|events| - 1]) + if events[|events| - 1].Loop? || events[|events| - 1].Break? then 1 else 0
  }

  function Arrivals(events: seq<Event>): nat {
    if events == [] then 0 else Arrivals(events[..|events| - 1]) + if events[|events| - 1].Arrive? then 1 else 0
  }

  /**
   The loop exits. After the flag is set it takes at most `StepsLeft` steps plus one for each item that still
   arrives; and once a stop call has returned and the loop is past its check, nothing more arrives.
   */
  lemma {:induction false} LoopWindsDown(run: seq<Task>, events: seq<Event>, j: nat, k: nat)
    requires IsRun(run, events) && j <= k < |run| && run[j].stopped
    ensures run[k].stopped
    ensures LoopSteps(events[j..k]) + StepsLeft(run[k]) <= StepsLeft(run[j]) + Arrivals(events[j..k])
    decreases k
  {
    if j < k {
      LoopWindsDown(run, events, j, k - 1);
      assert EventAt(run, events, k - 1);
      assert events[j..k][..|events[j..k]| - 1] == events[j..k - 1];
      RunKeepsInv(run, events, k - 1);
    }
  }

  lemma NothingArrivesAfterCancel(run: seq<Task>, events: seq<Event>, k: nat)
    requires IsRun(run, events) && k < |events|
    requires SomeStopFinished(run[k]) && PassedCheck(run[k])
    ensures events[k] != Arrive
  {
    RunKeepsInv(run, events, k);
    assert EventAt(run, events, k);
  }

  /** A stop call has returned and the loop is past its check; from here on it can only read what is buffered and end. */
  predicate IsEnding(s: Task) {
    && s.stopped && !s.loop.Subscribe? && !s.loop.Assign? && !s.loop.TestStoppedAgain? && !s.loop.CancelOwn?
    && (s.loop.ReadStream? ==> NewestCancelled(s) && s.result.value + 1 == s.subscriptions)
  }

  lemma EndingGoesOn(s: Task, e: Event)
    requires IsEnding(s) && Possible(s, e)
    ensures IsEnding(After(s, e))
    ensures StepsLeft(After(s, e)) + (if e.Loop? || e.Break? then 1 else 0) <= StepsLeft(s)
  {
  }

  lemma {:induction false} EndingRun(run: seq<Task>, events: seq<Event>, j: nat, k: nat)
    requires IsRun(run, events) && j <= k < |run| && IsEnding(run[j])
    ensures IsEnding(run[k]) && LoopSteps(events[j..k]) + StepsLeft(run[k]) <= StepsLeft(run[j])
    decreases k
  {
    if j < k {
      EndingRun(run, events, j, k - 1);
      assert EventAt(run, events, k - 1);
      assert events[j..k][..|events[j..k]| - 1] == events[j..k - 1];
      EndingGoesOn(run[k - 1], events[k - 1]);
    }
  }

  /**
   The loop exits. Once a stop call has returned and the loop is past its check, the loop takes at most as many
   steps as there are items buffered, and three more, whatever else happens; it has exited when it has taken
   `StepsLeft` of them, and until it has exited it can take one.
   */
  lemma StoppedLoopExits(run: seq<Task>, events: seq<Event>, j: nat, k: nat)
    requires IsRun(run, events) && j <= k < |run|
    requires SomeStopFinished(run[j]) && PassedCheck(run[j])
    ensures StepsLeft(run[j]) == run[j].buffered + 3
    ensures LoopSteps(events[j..k]) <= StepsLeft(run[j])
    ensures LoopSteps(events[j..k]) == StepsLeft(run[j]) ==> run[k].loop.Exited?
    ensures run[k].loop.Exited? || Possible(run[k], Loop(false))
  {
    RunKeepsInv(run, events, j);
    EndingRun(run, events, j, k);
  }

  // ----- A task that nobody stops -----

  /** The event ends the thread by an error: subscribing failed otherwise than by the stream, or handling an item did. */
  predicate IsFatal(s: Task, e: Event) {
    (e == Loop(true) && s.loop.Subscribe?) || (e.Break? && s.loop.ReadStream? && s.buffered > 0)
  }

  /** An item arrives only between a subscription and the end of its stream, and only while it has not been cancelled. */
  lemma ItemsArriveAtOpenStream(run: seq<Task>, events: seq<Event>, k: nat)
    requires IsRun(run, events) && k < |events| && events[k] == Arrive
    ensures var s := run[k];
            && (s.loop.Assign? || s.loop.TestStoppedAgain? || s.loop.CancelOwn? || s.loop.ReadStream?)
            && s.subscriptions > 0 && forall sub :: sub in s.cancelled ==> sub != s.subscriptions - 1
  {
    assert EventAt(run, events, k);
  }

  /** The loop ends before the flag is set only by such an error. */
  lemma {:induction false} EndsEarlyOnlyByError(run: seq<Task>, events: seq<Event>, k: nat)
    requires IsRun(run, events) && k < |run| && run[k].loop.Exited? && !run[k].stopped
    ensures exists i :: 0 <= i < k && IsFatal(run[i], events[i])
  {
    assert EventAt(run, events, k - 1);
    if run[k - 1].loop.Exited? {
      EndsEarlyOnlyByError(run, events, k - 1);
    } else {
      assert IsFatal(run[k - 1], events[k - 1]);
    }
  }

  ghost predicate IsUndisturbed(events: seq<Event>, k: nat) {
    forall i :: 0 <= i < k && i < |events| ==> events[i] != Loop(true) && !events[i].Break? && !events[i].CallStop?
  }

  /** Without errors and stop calls, one subscription serves: the loop waits at its open stream, however long nothing arrives. */
  lemma {:induction false} OneSubscriptionServes(run: seq<Task>, events: seq<Event>, k: nat)
    requires IsRun(run, events) && k < |run| && IsUndisturbed(events, k)
    ensures run[k].subscriptions <= 1 && run[k].stops == map[] && !run[k].stopped && run[k].cancelled == {}
    ensures if run[k].subscriptions == 0 then run[k].loop.TestStopped? || run[k].loop.Subscribe?
            else run[k].loop.Assign? || run[k].loop.TestStoppedAgain? || run[k].loop.ReadStream?
  {
    if k > 0 {
      OneSubscriptionServes(run, events, k - 1);
      assert EventAt(run, events, k - 1);
      assert events[k - 1] != Loop(true);
    }
  }

  // ----- Four runs -----

  lemma Go(run: seq<Task>, events: seq<Event>, e: Event) returns (run': seq<Task>, events': seq<Event>)
    requires IsRun(run, events) && Possible(run[|run| - 1], e)
    ensures IsRun(run', events') && run' == run + [After(run[|run| - 1], e)] && events' == events + [e]
    ensures Arrivals(events') == Arrivals(events) + if e.Arrive? then 1 else 0
    ensures LoopSteps(events') == LoopSteps(events) + if e.Loop? || e.Break? then 1 else 0
  {
    run', events' := run + [After(run[|run| - 1], e)], events + [e];
    forall k: nat | k < |events'| ensures EventAt(run', events', k) {
      if k < |events| {
        assert EventAt(run, events, k);
      }
    }
    assert events'[..|events'| - 1] == events;
  }

  lemma Subscribes() returns (run: seq<Task>, events: seq<Event>)
    ensures IsRun(run, events) && Arrivals(events) == 0 && LoopSteps(events) == 4
    ensures run[|run| - 1] == Task(false, Some(0), 1, {}, 0, ReadStream, map[], 0)
  {
    run, events := [Task(false, None, 0, {}, 0, TestStopped, map[], 0)], [];
    run, events := Go(run, events, Loop(false));
    run, events := Go(run, events, Loop(false));
    run, events := Go(run, events, Loop(false));
    run, events := Go(run, events, Loop(false));
  }

  /** A task that has subscribed and handled `n` items, one after the other. */
  lemma {:induction false} Serves(n: nat) returns (run: seq<Task>, events: seq<Event>)
    ensures IsRun(run, events) && Arrivals(events) == n && LoopSteps(events) == 4 + n
    ensures run[|run| - 1] == Task(false, Some(0), 1, {}, 0, ReadStream, map[], 0)
  {
    if n == 0 {
      run, events := Subscribes();
    } else {
      run, events := Serves(n - 1);
      run, events := Go(run, events, Arrive);
      run, events := Go(run, events, Loop(false));
    }
  }

  /** The `n`-th item may end the thread by an error that is not caught. */
  lemma BreaksAt(n: nat) returns (run: seq<Task>, events: seq<Event>)
    requires n > 0
    ensures IsRun(run, events) && Arrivals(events) == n
    ensures run[|run| - 1].loop.Exited? && !run[|run| - 1].stopped && run[|run| - 1].cancelled == {}
  {
    run, events := Serves(n - 1);
    run, events := Go(run, events, Arrive);
    run, events := Go(run, events, Break);
  }

  lemma StopCancels() returns (run: seq<Task>, events: seq<Event>)
    ensures IsRun(run, events)
    ensures run[|run| - 1] == Task(true, Some(0), 1, {0}, 0, ReadStream, map[0 := Finished], 0)
  {
    run, events := Serves(0);
    run, events := Go(run, events, CallStop(0));
    run, events := Go(run, events, Stop(0));
    run, events := Go(run, events, Stop(0));
    assert run[|run| - 1] == Task(true, Some(0), 1, {}, 0, ReadStream, map[0 := CancelResult], 0);
    run, events := Go(run, events, Stop(0));
    assert run[|run| - 1].cancelled == {0};
  }

  /** A task stopped while it waits for an item: the call cancels its stream, and it ends. */
  lemma StoppedWhileWaiting() returns (run: seq<Task>, events: seq<Event>)
    ensures IsRun(run, events)
    ensures run[|run| - 1] == Task(true, Some(0), 1, {0}, 0, Exited, map[0 := Finished], 0)
  {
    run, events := StopCancels();
    run, events := Go(run, events, Loop(false));
    run, events := Go(run, events, Loop(false));
  }

  /** The call finds nothing to cancel and returns. */
  lemma StopFindsNothing() returns (run: seq<Task>, events: seq<Event>)
    ensures IsRun(run, events)
    ensures run[|run| - 1] == Task(true, None, 0, {}, 0, Subscribe, map[0 := Finished], 0)
  {
    run, events := [Task(false, None, 0, {}, 0, TestStopped, map[], 0)], [];
    run, events := Go(run, events, Loop(false));
    run, events := Go(run, events, CallStop(0));
    run, events := Go(run, events, Stop(0));
    run, events := Go(run, events, Stop(0));
  }

  /**
   The race. A task stopped between its check and its subscription: the call finds nothing to cancel and returns, and
   the task, which subscribes once more, cancels that itself and ends.
   */
  lemma StoppedWhileSubscribing() returns (run: seq<Task>, events: seq<Event>)
    ensures IsRun(run, events)
    ensures run[|run| - 1] == Task(true, Some(0), 1, {0}, 0, Exited, map[0 := Finished], 1)
  {
    run, events := StopFindsNothing();
    run, events := Go(run, events, Loop(false));
    run, events := Go(run, events, Loop(false));
    run, events := Go(run, events, Loop(false));
    run, events := Go(run, events, Loop(false));
    run, events := Go(run, events, Loop(false));
    run, events := Go(run, events, Loop(false));
  }

  lemma FailsAt(n: nat) returns (run: seq<Task>, events: seq<Event>)
    ensures IsRun(run, events) && Arrivals(events) == n
    ensures run[|run| - 1] == Task(false, Some(0), 1, {}, 0, TestStopped, map[], 0)
  {
    run, events := Serves(n);
    run, events := Go(run, events, Loop(true));
    run, events := Go(run, events, Loop(false));
  }

  /** A stream that fails is replaced after the wait. */
  lemma FailedStreamIsReplaced(n: nat) returns (run: seq<Task>, events: seq<Event>)
    ensures IsRun(run, events) && Arrivals(events) == n
    ensures run[|run| - 1] == Task(false, Some(1), 2, {}, 0, ReadStream, map[], 0)
  {
    run, events := FailsAt(n);
    run, events := Go(run, events, Loop(false));
    run, events := Go(run, events, Loop(false));
    run, events := Go(run, events, Loop(false));
    run, events := Go(run, events, Loop(false));
  }
}
