/**
 How a stopped subscription ends, with a consumer that reads on and with one that has gone. The loop over a result
 does not look at the stop flag: a stopped producer first puts all that is left of the result it is reading, and
 then the pill.
 */
module SubscriptionEnding {
  import opened PaymentSubscription

  /** Between these two states the consumer has taken nothing from the queue. */
  predicate ReadsNothing(before: Subscription, after: Subscription) {
    after.yielded == before.yielded && after.consumerEnded == before.consumerEnded
  }

  /** What the producer puts even if reading raises at once: the row it has fetched, if any, and the pill. */
  function LeastToPut(s: Subscription): nat {
    if s.pc.Ended? then 0 else if s.pc.Putting? then 2 else 1
  }

  predicate HasRoomToEnd(s: Subscription) {
    s.pc.Ended? || s.maxQueueSize == 0 || |s.queue| + LeastToPut(s) <= s.maxQueueSize
  }

  /** Steps taken from `run[0]`, in all of which the consumer reads nothing. */
  ghost predicate IsUnread(run: seq<Subscription>) {
    && run != []
    && forall i :: 0 <= i < |run| - 1 ==> StepAt(run, i) && ReadsNothing(run[i], run[i + 1])
  }

  /** There is a way for the producer to end without the consumer, if need be because reading raises. */
  ghost predicate CanEndUnread(s: Subscription) {
    exists run: seq<Subscription> :: IsUnread(run) && run[0] == s && run[|run| - 1].pc.Ended?
  }

  lemma NoRoomStays(s: Subscription, step: Step)
    requires Enabled(s, step) && ReadsNothing(s, Apply(s, step)) && !HasRoomToEnd(s)
    ensures !HasRoomToEnd(Apply(s, step))
  {
  }

  lemma {:induction false} NoRoomNeverEnds(run: seq<Subscription>, n: nat)
    requires IsUnread(run) && n < |run| && !HasRoomToEnd(run[0])
    ensures !HasRoomToEnd(run[n])
  {
    if n > 0 {
      NoRoomNeverEnds(run, n - 1);
      assert StepAt(run, n - 1);
      var step :| Enabled(run[n - 1], step) && run[n] == Apply(run[n - 1], step);
      assert ReadsNothing(run[n - 1], run[n - 1 + 1]);
      NoRoomStays(run[n - 1], step);
    }
  }

  ghost predicate IsStuck(s: Subscription) {
    (s.pc.Putting? || s.pc.PuttingPill?) && !HasRoom(s)
  }

  /** A producer that finds the queue full stays where it is, stopped or not, while the consumer reads nothing. */
  lemma {:induction false} FullQueueBlocksStop(run: seq<Subscription>, n: nat)
    requires IsUnread(run) && n < |run| && IsStuck(run[0])
    ensures run[n].pc == run[0].pc && run[n].queue == run[0].queue && IsStuck(run[n])
  {
    if n > 0 {
      FullQueueBlocksStop(run, n - 1);
      assert StepAt(run, n - 1);
      var step :| Enabled(run[n - 1], step) && run[n] == Apply(run[n - 1], step);
      assert ReadsNothing(run[n - 1], run[n - 1 + 1]);
    }
  }

  lemma PrependStep(s: Subscription, step: Step)
    requires Enabled(s, step) && ReadsNothing(s, Apply(s, step)) && CanEndUnread(Apply(s, step))
    ensures CanEndUnread(s)
  {
    var rest: seq<Subscription> :| IsUnread(rest) && rest[0] == Apply(s, step) && rest[|rest| - 1].pc.Ended?;
    var run := [s] + rest;
    forall i | 0 <= i < |run| - 1 ensures StepAt(run, i) && ReadsNothing(run[i], run[i + 1]) {
      if i > 0 {
        assert StepAt(rest, i - 1) && ReadsNothing(rest[i - 1], rest[i - 1 + 1]);
        var next :| Enabled(rest[i - 1], next) && rest[i - 1 + 1] == Apply(rest[i - 1], next);
        assert Enabled(run[i], next) && run[i + 1] == Apply(run[i], next);
      } else {
        assert Enabled(run[0], step) && run[1] == Apply(run[0], step);
      }
    }
    assert IsUnread(run);
  }

  /** The shortest way to the end. */
  function NextStepToEnd(s: Subscription): Step {
    match s.pc
    case AtTest => TestStopped
    case Iterating(_, _) => ReadRaises
    case Putting(_, _) => Put
    case Noting(_, _) => Note
    case Waiting => WakeUp
    case PuttingPill => PutPill
    case Ended => Stop
  }

  function StepsToEnd(pc: ProducerPc): nat {
    match pc
    case Ended => 0
    case PuttingPill => 1
    case AtTest => 2
    case Waiting => 3
    case Iterating(_, _) => 4
    case Noting(_, _) => 5
    case Putting(_, _) => 6
  }

  lemma {:induction false} RoomIsEnough(s: Subscription)
    requires s.stopped && HasRoomToEnd(s)
    ensures CanEndUnread(s)
    decreases StepsToEnd(s.pc)
  {
    if s.pc.Ended? {
      assert IsUnread([s]);
      assert [s][0] == s;
    } else {
      RoomIsEnough(Apply(s, NextStepToEnd(s)));
      PrependStep(s, NextStepToEnd(s));
    }
  }

  /**
   A stopped producer whose consumer has gone may end, if reading raises soon enough, if and only if the queue
   has room for the row it holds, if any, and for the pill.
   */
  lemma MayEndExactlyWhenRoom(s: Subscription)
    requires s.stopped
    ensures CanEndUnread(s) <==> HasRoomToEnd(s)
  {
    if HasRoomToEnd(s) {
      RoomIsEnough(s);
    }
    if CanEndUnread(s) {
      var run: seq<Subscription> :| IsUnread(run) && run[0] == s && run[|run| - 1].pc.Ended?;
      if !HasRoomToEnd(s) {
        NoRoomNeverEnds(run, |run| - 1);
      }
    }
  }

  // ----- When it does end: reading raises nothing -----

  /** One step in which the consumer reads nothing and reading the table raises nothing. */
  ghost predicate IsQuietStep(s: Subscription, step: Step, s': Subscription) {
    Enabled(s, step) && s' == Apply(s, step) && !step.Get? && !step.ReadRaises?
  }

  ghost predicate IsQuiet(run: seq<Subscription>, steps: seq<Step>) {
    && |run| == |steps| + 1
    && forall i :: 0 <= i < |steps| ==> IsQuietStep(run[i], steps[i], run[i + 1])
  }

  /** The rows left in the result that is being read. */
  function LeftInResult(s: Subscription): nat {
    match s.pc
    case Iterating(cursor, upTo) => |Segment(s.rows, cursor, upTo)|
    case Putting(row, upTo) => |Segment(s.rows, row.id, upTo)|
    case Noting(row, upTo) => |Segment(s.rows, row.id, upTo)|
    case _ => 0
  }

  /** What a stopped producer puts if reading raises nothing: the row in hand, what is left of the result, and the pill. */
  function StillToPut(s: Subscription): nat {
    (if s.pc.Putting? then 1 else 0) + LeftInResult(s) + (if s.pc.Ended? then 0 else 1)
  }

  predicate HasRoomForAll(s: Subscription) {
    s.pc.Ended? || s.maxQueueSize == 0 || |s.queue| + StillToPut(s) <= s.maxQueueSize
  }

  /** However the producer, the table and the stop flag go on, the producer never waits for room. */
  ghost predicate NeverGetsStuck(s: Subscription) {
    forall run, steps :: IsQuiet(run, steps) && run[0] == s ==> !IsStuck(run[|run| - 1])
  }

  /** How many steps of its own a stopped producer has left. */
  function StepsLeft(s: Subscription): nat {
    StepsToEnd(s.pc) + 3 * LeftInResult(s)
  }

  predicate IsProducerStep(step: Step) {
    !step.Insert? && !step.ClearIndices? && !step.Stop? && !step.Get?
  }

  lemma {:induction false} SegmentOfNothing(rows: seq<PaymentRow>, low: int, high: int)
    requires !HasMore(rows, low, high)
    ensures Segment(rows, low, high) == []
  {
    if rows != [] {
      var n := |rows| - 1;
      assert forall i :: 0 <= i < n ==> rows[..n][i] == rows[i];
      SegmentOfNothing(rows[..n], low, high);
    }
  }

  /** Fetching the next row leaves one row less. */
  lemma {:induction false} OneLess(rows: seq<PaymentRow>, cursor: int, upTo: int, row: PaymentRow)
    requires IdsGrow(rows) && IsNext(rows, cursor, row) && row.id <= upTo
    ensures |Segment(rows, cursor, upTo)| == 1 + |Segment(rows, row.id, upTo)|
  {
    var n := |rows| - 1;
    if rows[n] == row {
      SegmentOfNothing(rows[..n], cursor, upTo);
      SegmentOfNothing(rows[..n], row.id, upTo);
    } else {
      var k :| 0 <= k < |rows| && rows[k] == row;
      assert rows[..n][k] == row;
      OneLess(rows[..n], cursor, upTo, row);
    }
  }

  /** A row that comes in later is not part of the result being read. */
  lemma {:induction false} InsertLeavesResult(rows: seq<PaymentRow>, row: PaymentRow, low: int, upTo: int)
    requires IsNewest(rows, row.id) && (upTo <= low || HasId(rows, upTo))
    ensures Segment(rows + [row], low, upTo) == Segment(rows, low, upTo)
  {
    assert (rows + [row])[..|rows|] == rows;
  }

  lemma TableStepLeavesResult(s: Subscription, step: Step)
    requires Inv(s) && Enabled(s, step) && (step.Insert? || step.ClearIndices?)
    ensures LeftInResult(Apply(s, step)) == LeftInResult(s)
  {
    if s.pc.Iterating? || s.pc.Putting? || s.pc.Noting? {
      var low := if s.pc.Iterating? then s.pc.cursor else s.pc.row.id;
      if step.Insert? {
        InsertLeavesResult(s.rows, step.row, low, s.pc.upTo);
      } else {
        SegmentKeptByClear(s.rows, low, s.pc.upTo);
      }
    }
  }

  lemma ProducerStepLeaves(s: Subscription, step: Step)
    requires Inv(s) && s.stopped && Enabled(s, step) && IsProducerStep(step) && !step.ReadRaises?
    ensures var s' := Apply(s, step);
            && s'.maxQueueSize == s.maxQueueSize && s'.stopped
            && |s'.queue| + StillToPut(s') == |s.queue| + StillToPut(s)
            && StepsLeft(s') + 1 == StepsLeft(s)
  {
    if step.Fetch? {
      OneLess(s.rows, s.pc.cursor, s.pc.upTo, step.row);
    } else if step.EndOfResult? {
      SegmentOfNothing(s.rows, s.pc.cursor, s.pc.upTo);
    }
  }

  /**
   Nothing is lost on the way: what is queued and what is still to be put add up to the same number, and each step
   of the producer's own is one step less to its end.
   */
  lemma QuietStepLeaves(s: Subscription, step: Step, s': Subscription)
    requires Inv(s) && s.stopped && IsQuietStep(s, step, s')
    ensures Inv(s') && s'.stopped && s'.maxQueueSize == s.maxQueueSize
    ensures |s'.queue| + StillToPut(s') == |s.queue| + StillToPut(s)
    ensures StepsLeft(s') + (if IsProducerStep(step) then 1 else 0) == StepsLeft(s)
  {
    StepKeepsInv(s, step);
    if IsProducerStep(step) {
      ProducerStepLeaves(s, step);
    } else if !step.Stop? {
      TableStepLeavesResult(s, step);
    }
  }

  function ProducerSteps(steps: seq<Step>): nat {
    if steps == [] then 0
    else ProducerSteps(steps[..|steps| - 1]) + if IsProducerStep(steps[|steps| - 1]) then 1 else 0
  }

  lemma {:induction false} QuietRunLeaves(run: seq<Subscription>, steps: seq<Step>, n: nat)
    requires IsQuiet(run, steps) && n <= |steps| && Inv(run[0]) && run[0].stopped
    ensures Inv(run[n]) && run[n].stopped && run[n].maxQueueSize == run[0].maxQueueSize
    ensures |run[n].queue| + StillToPut(run[n]) == |run[0].queue| + StillToPut(run[0])
    ensures StepsLeft(run[n]) + ProducerSteps(steps[..n]) == StepsLeft(run[0])
  {
    if n > 0 {
      QuietRunLeaves(run, steps, n - 1);
      assert IsQuietStep(run[n - 1], steps[n - 1], run[n - 1 + 1]);
      QuietStepLeaves(run[n - 1], steps[n - 1], run[n]);
      assert steps[..n][..n - 1] == steps[..n - 1];
    }
  }

  lemma PrependQuiet(s: Subscription, step: Step, run: seq<Subscription>, steps: seq<Step>)
    requires IsQuiet(run, steps) && IsQuietStep(s, step, run[0])
    ensures IsQuiet([s] + run, [step] + steps)
  {
  }

  /** The producer's next step of its own, when it is not stuck and reading raises nothing. */
  lemma NextOwnStep(s: Subscription) returns (step: Step)
    requires Inv(s) && s.stopped && !s.pc.Ended? && !IsStuck(s)
    ensures Enabled(s, step) && IsProducerStep(step) && !step.ReadRaises?
  {
    match s.pc
    case AtTest => step := TestStopped;
    case Iterating(cursor, upTo) =>
      if HasMore(s.rows, cursor, upTo) {
        step := Fetch(FirstAfter(s.rows, cursor, upTo));
      } else {
        step := EndOfResult;
      }
    case Putting(_, _) => step := Put;
    case Noting(_, _) => step := Note;
    case Waiting => step := WakeUp;
    case PuttingPill => step := PutPill;
  }

  lemma {:induction false} FirstAfterExists(rows: seq<PaymentRow>, cursor: int, upTo: int, i: nat)
    requires IdsGrow(rows) && i < |rows| && cursor < rows[i].id <= upTo
    ensures exists row :: IsNext(rows, cursor, row) && row.id <= upTo
  {
    if i > 0 && cursor < rows[i - 1].id {
      FirstAfterExists(rows, cursor, upTo, i - 1);
    } else {
      assert IsNext(rows, cursor, rows[i]);
    }
  }

  ghost function FirstAfter(rows: seq<PaymentRow>, cursor: int, upTo: int): (row: PaymentRow)
    requires IdsGrow(rows) && HasMore(rows, cursor, upTo)
    ensures IsNext(rows, cursor, row) && row.id <= upTo
  {
    var i :| 0 <= i < |rows| && cursor < rows[i].id <= upTo;
    FirstAfterExists(rows, cursor, upTo, i);
    var row :| IsNext(rows, cursor, row) && row.id <= upTo;
    row
  }

  /** Without room for all of it, the producer walks on until it is stuck. */
  lemma {:induction false} WalksIntoFullQueue(s: Subscription) returns (run: seq<Subscription>, steps: seq<Step>)
    requires Inv(s) && s.stopped && !HasRoomForAll(s)
    ensures IsQuiet(run, steps) && run[0] == s && IsStuck(run[|run| - 1])
    decreases StepsLeft(s)
  {
    if IsStuck(s) {
      run, steps := [s], [];
    } else {
      var step := NextOwnStep(s);
      var next := Apply(s, step);
      QuietStepLeaves(s, step, next);
      run, steps := WalksIntoFullQueue(next);
      PrependQuiet(s, step, run, steps);
      run, steps := [s] + run, [step] + steps;
    }
  }

  /**
   A stopped producer that nobody reads from, and whose reading raises nothing, never gets stuck if and only if
   the queue has no limit, or room for the row in hand, all that is left of the result, and the pill.
   */
  lemma NeverStuckExactlyWhenRoomForAll(s: Subscription)
    requires Inv(s) && s.stopped
    ensures NeverGetsStuck(s) <==> HasRoomForAll(s)
  {
    if HasRoomForAll(s) {
      forall run, steps | IsQuiet(run, steps) && run[0] == s ensures !IsStuck(run[|run| - 1]) {
        QuietRunLeaves(run, steps, |steps|);
      }
    } else {
      var run, steps := WalksIntoFullQueue(s);
    }
  }

  /**
   And then it ends: at every point of such a run the producer has ended or has a step to take, and it has
   ended exactly when it has taken `StepsLeft` of them.
   */
  lemma EndsAfterStepsLeft(run: seq<Subscription>, steps: seq<Step>)
    requires IsQuiet(run, steps) && Inv(run[0]) && run[0].stopped && HasRoomForAll(run[0])
    ensures ProducerSteps(steps) <= StepsLeft(run[0])
    ensures run[|run| - 1].pc.Ended? <==> ProducerSteps(steps) == StepsLeft(run[0])
    ensures run[|run| - 1].pc.Ended?
         || exists step :: Enabled(run[|run| - 1], step) && IsProducerStep(step) && !step.ReadRaises?
  {
    var last := run[|run| - 1];
    assert steps[..|steps|] == steps;
    QuietRunLeaves(run, steps, |steps|);
    if !last.pc.Ended? {
      NeverStuckExactlyWhenRoomForAll(run[0]);
      var step := NextOwnStep(last);
    }
  }

  // ----- With a consumer that reads on -----

  /** A sequence of steps of all kinds. */
  ghost predicate IsTaken(run: seq<Subscription>, steps: seq<Step>) {
    && |run| == |steps| + 1
    && forall i :: 0 <= i < |steps| ==> Enabled(run[i], steps[i]) && run[i + 1] == Apply(run[i], steps[i])
  }

  predicate HaveEnded(s: Subscription) {
    s.pc.Ended? && s.consumerEnded
  }

  /** What producer and consumer still have to do: the producer's steps, and a read for each item queued or still to be put. */
  function WorkLeft(s: Subscription): nat {
    StepsLeft(s) + if s.consumerEnded then 0 else |s.queue| + StillToPut(s)
  }

  /** One for a step that producer or consumer takes. */
  function OwnStep(step: Step): nat {
    if IsProducerStep(step) || step.Get? then 1 else 0
  }

  function OwnSteps(steps: seq<Step>): nat {
    if steps == [] then 0 else OwnSteps(steps[..|steps| - 1]) + OwnStep(steps[|steps| - 1])
  }

  /** A producer that waits for room does not keep the consumer from reading. */
  lemma StuckLeavesGet(s: Subscription)
    requires Inv(s) && IsStuck(s)
    ensures Enabled(s, Get)
  {
  }

  lemma RaiseLeaves(s: Subscription)
    requires s.stopped && s.pc.Iterating?
    ensures WorkLeft(Apply(s, ReadRaises)) + 1 <= WorkLeft(s)
  {
  }

  /** Of the work there was, `done` steps have been taken, and the rest is left; less if reading has raised. */
  ghost predicate HasWorked(work: nat, s: Subscription, done: nat, raised: bool) {
    && Inv(s) && s.stopped && WorkLeft(s) + done <= work
    && (!raised ==> WorkLeft(s) + done == work)
  }

  lemma StepLeaves(s: Subscription, step: Step)
    requires Inv(s) && s.stopped && Enabled(s, step)
    ensures Inv(Apply(s, step)) && Apply(s, step).stopped
    ensures WorkLeft(Apply(s, step)) + OwnStep(step) <= WorkLeft(s)
    ensures !step.ReadRaises? ==> WorkLeft(Apply(s, step)) + OwnStep(step) == WorkLeft(s)
  {
    StepKeepsInv(s, step);
    if step.ReadRaises? {
      RaiseLeaves(s);
    } else if !step.Get? {
      QuietStepLeaves(s, step, Apply(s, step));
    }
  }

  lemma WorkStep(work: nat, s: Subscription, done: nat, raised: bool, step: Step)
    requires HasWorked(work, s, done, raised) && Enabled(s, step)
    ensures HasWorked(work, Apply(s, step), done + OwnStep(step), raised || step.ReadRaises?)
  {
    StepLeaves(s, step);
  }

  lemma {:induction false} WorkRun(run: seq<Subscription>, steps: seq<Step>, n: nat)
    requires IsTaken(run, steps) && Inv(run[0]) && run[0].stopped && n <= |steps|
    ensures HasWorked(WorkLeft(run[0]), run[n], OwnSteps(steps[..n]), ReadRaises in steps[..n])
  {
    if n > 0 {
      WorkRun(run, steps, n - 1);
      assert Enabled(run[n - 1], steps[n - 1]) && run[n - 1 + 1] == Apply(run[n - 1], steps[n - 1]);
      WorkStep(WorkLeft(run[0]), run[n - 1], OwnSteps(steps[..n - 1]), ReadRaises in steps[..n - 1], steps[n - 1]);
      LastOwnStep(steps, n);
    }
  }

  lemma LastOwnStep(steps: seq<Step>, n: nat)
    requires 0 < n <= |steps|
    ensures OwnSteps(steps[..n]) == OwnSteps(steps[..n - 1]) + OwnStep(steps[n - 1])
    ensures ReadRaises in steps[..n] <==> ReadRaises in steps[..n - 1] || steps[n - 1].ReadRaises?
  {
    assert steps[..n][..n - 1] == steps[..n - 1];
    assert steps[..n] == steps[..n - 1] + [steps[n - 1]];
  }

  lemma NothingLeft(s: Subscription)
    requires Inv(s)
    ensures HaveEnded(s) <==> WorkLeft(s) == 0
  {
  }

  /**
   A stopped subscription whose consumer reads on ends, however small its queue. Whatever happens to the table and
   whether reading it raises or not: producer and consumer together take at most `WorkLeft` steps, exactly that many
   if nothing raises; until both have ended one of them can take a step; and a producer that waits for room leaves the
   consumer an item to read.
   */
  lemma EndsWhileRead(run: seq<Subscription>, steps: seq<Step>)
    requires IsTaken(run, steps) && Inv(run[0]) && run[0].stopped
    ensures OwnSteps(steps) <= WorkLeft(run[0])
    ensures OwnSteps(steps) == WorkLeft(run[0]) ==> HaveEnded(run[|run| - 1])
    ensures ReadRaises !in steps ==> (HaveEnded(run[|run| - 1]) <==> OwnSteps(steps) == WorkLeft(run[0]))
    ensures HaveEnded(run[|run| - 1])
         || exists step :: Enabled(run[|run| - 1], step) && (step.Get? || (IsProducerStep(step) && !step.ReadRaises?))
    ensures IsStuck(run[|run| - 1]) ==> Enabled(run[|run| - 1], Get)
  {
    var last := run[|run| - 1];
    assert steps[..|steps|] == steps;
    WorkRun(run, steps, |steps|);
    NothingLeft(last);
    if IsStuck(last) {
      StuckLeavesGet(last);
    } else if !last.pc.Ended? {
      var step := NextOwnStep(last);
    } else if !last.consumerEnded {
      assert Enabled(last, Get);
    }
  }

  // ----- Two runs -----

  /** A subscription that has been set up over a table and whose producer has not yet run. */
  function Opened(rows: seq<PaymentRow>, initialIndex: int, maxQueueSize: nat): Subscription {
    Subscription(rows, initialIndex, maxQueueSize, false, AtTest, initialIndex, [], [], false)
  }

  /** The first `n` rows are in the queue and nobody has read any. */
  function Filled(rows: seq<PaymentRow>, initialIndex: int, maxQueueSize: nat, n: nat): Subscription
    requires n <= |rows|
  {
    var index := if n == 0 then initialIndex else rows[n - 1].id;
    Opened(rows, initialIndex, maxQueueSize).(pc := Iterating(index, Newest(rows, initialIndex)), paymentIndex := index, queue := Items(rows[..n]))
  }

  ghost predicate AllAbove(rows: seq<PaymentRow>, index: int) {
    forall i :: 0 <= i < |rows| ==> rows[i].id > index
  }

  lemma NextRowIsNext(rows: seq<PaymentRow>, initialIndex: int, n: nat)
    requires IdsGrow(rows) && AllAbove(rows, initialIndex) && n < |rows|
    ensures IsNext(rows, if n == 0 then initialIndex else rows[n - 1].id, rows[n])
  {
  }

  lemma AppendStep(run: seq<Subscription>, step: Step) returns (run': seq<Subscription>)
    requires IsRun(run) && Enabled(run[|run| - 1], step)
    ensures IsRun(run') && run' == run + [Apply(run[|run| - 1], step)]
  {
    run' := run + [Apply(run[|run| - 1], step)];
    forall i | 0 <= i < |run'| - 1 ensures StepAt(run', i) {
      if i < |run| - 1 {
        assert StepAt(run, i);
        var taken :| Enabled(run[i], taken) && run[i + 1] == Apply(run[i], taken);
        assert Enabled(run'[i], taken) && run'[i + 1] == Apply(run'[i], taken);
      } else {
        assert Enabled(run'[i], step) && run'[i + 1] == Apply(run'[i], step);
      }
    }
  }

  lemma PutNextRow(rows: seq<PaymentRow>, initialIndex: int, maxQueueSize: nat, n: nat, run: seq<Subscription>)
    returns (run': seq<Subscription>)
    requires IdsGrow(rows) && AllAbove(rows, initialIndex) && n < maxQueueSize && n < |rows|
    requires IsRun(run) && run[|run| - 1] == Filled(rows, initialIndex, maxQueueSize, n)
    ensures IsRun(run') && run'[0] == run[0] && run'[|run'| - 1] == Filled(rows, initialIndex, maxQueueSize, n + 1)
  {
    NextRowIsNext(rows, initialIndex, n);
    run' := AppendStep(run, Fetch(rows[n]));
    run' := AppendStep(run', Put);
    run' := AppendStep(run', Note);
    assert Items(rows[..n + 1]) == Items(rows[..n]) + [Payment(rows[n])];
  }

  lemma {:induction false} FillQueue(rows: seq<PaymentRow>, initialIndex: int, maxQueueSize: nat, n: nat)
    returns (run: seq<Subscription>)
    requires IdsGrow(rows) && AllAbove(rows, initialIndex) && n <= maxQueueSize && n <= |rows|
    ensures IsRun(run) && run[0] == Opened(rows, initialIndex, maxQueueSize)
    ensures run[|run| - 1] == Filled(rows, initialIndex, maxQueueSize, n)
  {
    if n == 0 {
      run := [Opened(rows, initialIndex, maxQueueSize)];
      run := AppendStep(run, TestStopped);
    } else {
      run := FillQueue(rows, initialIndex, maxQueueSize, n - 1);
      run := PutNextRow(rows, initialIndex, maxQueueSize, n - 1, run);
    }
  }

  /**
   For every queue with a limit: over a table with one row more than the queue holds, a producer whose consumer
   reads nothing fills the queue, is stopped, and can never end.
   */
  lemma StoppedProducerHangs(rows: seq<PaymentRow>, initialIndex: int, maxQueueSize: nat) returns (run: seq<Subscription>)
    requires maxQueueSize > 0 && |rows| == maxQueueSize + 1
    requires IdsGrow(rows) && AllAbove(rows, initialIndex)
    ensures IsRun(run) && run[0] == Opened(rows, initialIndex, maxQueueSize)
    ensures var s := run[|run| - 1]; s.stopped && s.pc == Putting(rows[maxQueueSize], rows[maxQueueSize].id) && !CanEndUnread(s)
  {
    run := FillQueue(rows, initialIndex, maxQueueSize, maxQueueSize);
    NextRowIsNext(rows, initialIndex, maxQueueSize);
    run := AppendStep(run, Fetch(rows[maxQueueSize]));
    run := AppendStep(run, Stop);
    MayEndExactlyWhenRoom(run[|run| - 1]);
  }

  /**
   Room for the row in hand and the pill is not enough. For every queue with a limit there is a run in which the
   producer is stopped with an empty queue, and may end at once if reading raises; but the result holds one row
   more than the queue, and when reading raises nothing the producer gets stuck for good.
   */
  lemma RoomForThePillIsNotEnough(rows: seq<PaymentRow>, initialIndex: int, maxQueueSize: nat)
    returns (run: seq<Subscription>, rest: seq<Subscription>, steps: seq<Step>)
    requires maxQueueSize > 0 && |rows| == maxQueueSize + 1
    requires IdsGrow(rows) && AllAbove(rows, initialIndex)
    ensures IsRun(run) && run[0] == Opened(rows, initialIndex, maxQueueSize)
    ensures var s := run[|run| - 1]; s.stopped && s.queue == [] && CanEndUnread(s) && !HasRoomForAll(s)
    ensures IsQuiet(rest, steps) && rest[0] == run[|run| - 1]
    ensures IsStuck(rest[|rest| - 1]) && !CanEndUnread(rest[|rest| - 1])
  {
    run := FillQueue(rows, initialIndex, maxQueueSize, 0);
    run := AppendStep(run, Stop);
    var s := run[|run| - 1];
    MayEndExactlyWhenRoom(s);
    DeliversExactSegment(run, |run| - 1);
    WholeSegment(rows, initialIndex, rows[maxQueueSize].id);
    rest, steps := WalksIntoFullQueue(s);
    QuietRunLeaves(rest, steps, |steps|);
    MayEndExactlyWhenRoom(rest[|rest| - 1]);
  }

  lemma {:induction false} WholeSegment(rows: seq<PaymentRow>, low: int, high: int)
    requires AllAbove(rows, low) && forall i :: 0 <= i < |rows| ==> rows[i].id <= high
    ensures |Segment(rows, low, high)| == |rows|
  {
    if rows != [] {
      WholeSegment(rows[..|rows| - 1], low, high);
    }
  }
}
