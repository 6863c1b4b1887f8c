/**
 A subscription to received payments: a thread that polls the table and fills
 a bounded queue, a consumer that empties it, and a poison pill that ends it.

 Rows are never deleted, ids grow, and rows become visible in the order of
 their ids. Settle indices may be cleared at any time, so rows are compared
 with the settle index left out.
 */
module PaymentSubscription {
  import opened PaymentTables

  datatype PaymentRow = PaymentRow(id: int, payment: ReceivedPayment)

  datatype Item = Payment(row: PaymentRow) | PoisonPill

  /**
   Where the polling thread is: about to test the stop flag, at the head of the
   loop over the result of a query whose last fetched row is `cursor`, about to
   put a row, about to note the id of a row it has put, waiting for the next
   poll, about to put the poison pill, or at its end. The result is fixed when
   the query runs: it holds the rows up to the id `upTo`.
   */
  datatype ProducerPc =
    | AtTest
    | Iterating(cursor: int, upTo: int)
    | Putting(row: PaymentRow, upTo: int)
    | Noting(row: PaymentRow, upTo: int)
    | Waiting
    | PuttingPill
    | Ended

  datatype Subscription = Subscription(
    rows: seq<PaymentRow>,
    initialIndex: int,
    maxQueueSize: nat,
    stopped: bool,
    pc: ProducerPc,
    paymentIndex: int,
    queue: seq<Item>,
    yielded: seq<PaymentRow>,
    consumerEnded: bool)

  /** A loop over a result ends when nothing is left of it, or when reading it raises, which is caught. */
  datatype Step =
    | Insert(row: PaymentRow)
    | ClearIndices
    | Stop
    | TestStopped
    | Fetch(row: PaymentRow)
    | EndOfResult
    | ReadRaises
    | Put
    | Note
    | WakeUp
    | PutPill
    | Get

  ghost predicate IsNewest(rows: seq<PaymentRow>, id: int) {
    forall i :: 0 <= i < |rows| ==> rows[i].id < id
  }

  /** The first row of the result that comes after `cursor`. */
  ghost predicate IsNext(rows: seq<PaymentRow>, cursor: int, row: PaymentRow) {
    && row in rows
    && row.id > cursor
    && forall i :: 0 <= i < |rows| && rows[i].id > cursor ==> row.id <= rows[i].id
  }

  /** The id up to which a query run now sees rows. */
  function Newest(rows: seq<PaymentRow>, index: int): int {
    if rows == [] then index else rows[|rows| - 1].id
  }

  /** The result of a query still holds a row after `cursor`. */
  ghost predicate HasMore(rows: seq<PaymentRow>, cursor: int, upTo: int) {
    exists i :: 0 <= i < |rows| && cursor < rows[i].id <= upTo
  }

  function ClearedRows(rows: seq<PaymentRow>): (r: seq<PaymentRow>)
    ensures |r| == |rows|
    ensures forall i :: 0 <= i < |r| ==> r[i] == Plain(rows[i])
  {
    seq(|rows|, i requires 0 <= i < |rows| => Plain(rows[i]))
  }

  /** A row with its settle index left out. */
  function Plain(row: PaymentRow): PaymentRow {
    row.(payment := row.payment.(settleIndex := 0))
  }

  /** A put blocks while the queue is full; size 0 means no limit. */
  predicate HasRoom(s: Subscription) {
    s.maxQueueSize == 0 || |s.queue| < s.maxQueueSize
  }

  ghost predicate Enabled(s: Subscription, step: Step) {
    match step
    case Insert(row) => IsNewest(s.rows, row.id)
    case ClearIndices => true
    case Stop => true
    case TestStopped => s.pc.AtTest?
    case Fetch(row) => s.pc.Iterating? && IsNext(s.rows, s.pc.cursor, row) && row.id <= s.pc.upTo
    case EndOfResult => s.pc.Iterating? && !HasMore(s.rows, s.pc.cursor, s.pc.upTo)
    case ReadRaises => s.pc.Iterating?
    case Put => s.pc.Putting? && HasRoom(s)
    case Note => s.pc.Noting?
    case WakeUp => s.pc.Waiting?
    case PutPill => s.pc.PuttingPill? && HasRoom(s)
    case Get => s.queue != [] && !s.consumerEnded
  }

  ghost function Apply(s: Subscription, step: Step): Subscription
    requires Enabled(s, step)
  {
    match step
    case Insert(row) => s.(rows := s.rows + [row])
    case ClearIndices => s.(rows := ClearedRows(s.rows))
    case Stop => s.(stopped := true)
    case TestStopped => s.(pc := if s.stopped then PuttingPill else Iterating(s.paymentIndex, Newest(s.rows, s.paymentIndex)))
    case Fetch(row) => s.(pc := Putting(row, s.pc.upTo))
    case EndOfResult => s.(pc := Waiting)
    case ReadRaises => s.(pc := Waiting)
    case Put => s.(queue := s.queue + [Payment(s.pc.row)], pc := Noting(s.pc.row, s.pc.upTo))
    case Note => s.(paymentIndex := s.pc.row.id, pc := Iterating(s.pc.row.id, s.pc.upTo))
    case WakeUp => s.(pc := AtTest)
    case PutPill => s.(queue := s.queue + [PoisonPill], pc := Ended)
    case Get =>
      if s.queue[0].Payment? then s.(queue := s.queue[1..], yielded := s.yielded + [s.queue[0].row])
      else s.(queue := s.queue[1..], consumerEnded := true)
  }

  ghost predicate StepAt(run: seq<Subscription>, i: nat)
    requires i + 1 < |run|
  {
    exists step :: Enabled(run[i], step) && run[i + 1] == Apply(run[i], step)
  }

  ghost predicate IsRun(run: seq<Subscription>) {
    && run != []
    && IsStart(run[0])
    && forall i :: 0 <= i < |run| - 1 ==> StepAt(run, i)
  }

  ghost predicate IsStart(s: Subscription) {
    && IdsGrow(s.rows)
    && s.pc == AtTest && s.paymentIndex == s.initialIndex
    && s.queue == [] && s.yielded == [] && !s.consumerEnded
  }

  ghost predicate IdsGrow(rows: seq<PaymentRow>) {
    forall i, j :: 0 <= i < j < |rows| ==> rows[i].id < rows[j].id
  }

  // ----- What has been delivered -----

  /** The rows with ids above `low` and up to `high`, in table order. */
  function Segment(rows: seq<PaymentRow>, low: int, high: int): seq<PaymentRow> {
    if rows == [] then [] else
    var last := rows[|rows| - 1];
    Segment(rows[..|rows| - 1], low, high) + if low < last.id <= high then [Plain(last)] else []
  }

  /** The rows among some queued items. */
  function Rows(items: seq<Item>): seq<PaymentRow> {
    if items == [] then [] else
    var last := items[|items| - 1];
    Rows(items[..|items| - 1]) + if last.Payment? then [last.row] else []
  }

  /** The id of the last row put in the queue. */
  function LastEnqueued(s: Subscription): int {
    if s.pc.Noting? then s.pc.row.id else s.paymentIndex
  }

  /** Everything put in the queue so far, in order: what was yielded, then what is still queued. */
  function Delivered(s: Subscription): seq<PaymentRow> {
    ClearedRows(s.yielded + Rows(s.queue))
  }

  ghost predicate HasId(rows: seq<PaymentRow>, id: int) {
    exists i :: 0 <= i < |rows| && rows[i].id == id
  }

  /** The fetched row is the next one to deliver. */
  ghost predicate FetchedIsNext(s: Subscription) {
    match s.pc
    case Iterating(cursor, _) => cursor == s.paymentIndex
    case Putting(row, _) => HoldsNext(s.rows, s.paymentIndex, row)
    case _ => true
  }

  /** What is left of a result was in the table when its query ran: it ends at a row, or is over. */
  ghost predicate ResultIsStored(rows: seq<PaymentRow>, pc: ProducerPc) {
    match pc
    case Iterating(cursor, upTo) => upTo <= cursor || HasId(rows, upTo)
    case Putting(row, upTo) => upTo <= row.id || HasId(rows, upTo)
    case Noting(row, upTo) => upTo <= row.id || HasId(rows, upTo)
    case _ => true
  }

  ghost predicate HoldsNext(rows: seq<PaymentRow>, cursor: int, row: PaymentRow) {
    exists next :: IsNext(rows, cursor, next) && Plain(next) == Plain(row)
  }

  /** The pill is put last and only once; after it is read nothing is left. */
  ghost predicate PillIsLast(s: Subscription) {
    && (forall i :: 0 <= i < |s.queue| && s.queue[i].PoisonPill? ==> i == |s.queue| - 1 && s.pc.Ended?)
    && (s.consumerEnded ==> s.queue == [] && s.pc.Ended?)
    && (s.pc.Ended? && !s.consumerEnded ==> s.queue != [] && s.queue[|s.queue| - 1].PoisonPill?)
  }

  ghost predicate Inv(s: Subscription) {
    && IdsGrow(s.rows)
    && (LastEnqueued(s) == s.initialIndex || (LastEnqueued(s) > s.initialIndex && HasId(s.rows, LastEnqueued(s))))
    && FetchedIsNext(s)
    && ResultIsStored(s.rows, s.pc)
    && PillIsLast(s)
    && Delivered(s) == Segment(s.rows, s.initialIndex, LastEnqueued(s))
  }

  // ----- Every step keeps the invariant -----

  lemma {:induction false} SegmentOfEqualBounds(rows: seq<PaymentRow>, index: int)
    ensures Segment(rows, index, index) == []
  {
    if rows != [] {
      SegmentOfEqualBounds(rows[..|rows| - 1], index);
    }
  }

  lemma SegmentKeptByInsert(rows: seq<PaymentRow>, row: PaymentRow, low: int, high: int)
    requires IsNewest(rows, row.id)
    requires high == low || HasId(rows, high)
    ensures Segment(rows + [row], low, high) == Segment(rows, low, high)
  {
    assert (rows + [row])[..|rows|] == rows;
  }

  lemma {:induction false} SegmentKeptByClear(rows: seq<PaymentRow>, low: int, high: int)
    ensures Segment(ClearedRows(rows), low, high) == Segment(rows, low, high)
  {
    if rows != [] {
      var n := |rows| - 1;
      assert ClearedRows(rows)[..n] == ClearedRows(rows[..n]);
      SegmentKeptByClear(rows[..n], low, high);
    }
  }

  /** Moving the upper bound up to the next row adds that row and nothing else. */
  lemma {:induction false} SegmentToNext(rows: seq<PaymentRow>, low: int, high: int, row: PaymentRow)
    requires IdsGrow(rows) && low <= high
    requires IsNext(rows, high, row)
    ensures Segment(rows, low, row.id) == Segment(rows, low, high) + [Plain(row)]
  {
    var n := |rows| - 1;
    if rows[n] == row {
      SegmentBelow(rows[..n], low, high, row.id);
    } else {
      var k :| 0 <= k < |rows| && rows[k] == row;
      assert rows[..n][k] == row;
      SegmentToNext(rows[..n], low, high, row);
    }
  }

  lemma {:induction false} SegmentBelow(rows: seq<PaymentRow>, low: int, high: int, upper: int)
    requires high <= upper
    requires forall i :: 0 <= i < |rows| ==> rows[i].id <= high || upper < rows[i].id
    ensures Segment(rows, low, upper) == Segment(rows, low, high)
  {
    if rows != [] {
      SegmentBelow(rows[..|rows| - 1], low, high, upper);
    }
  }

  lemma RowsOfPut(items: seq<Item>, item: Item)
    ensures Rows(items + [item]) == Rows(items) + if item.Payment? then [item.row] else []
  {
    assert (items + [item])[..|items|] == items;
  }

  lemma {:induction false} RowsOfGet(items: seq<Item>)
    requires items != []
    ensures Rows(items) == (if items[0].Payment? then [items[0].row] else []) + Rows(items[1..])
  {
    if |items| > 1 {
      var n := |items| - 1;
      RowsOfGet(items[..n]);
      assert items[..n][1..] == items[1..][..n - 1];
    } else {
      assert items[..0] == [];
    }
  }

  lemma NextKeptByInsert(rows: seq<PaymentRow>, row: PaymentRow, cursor: int, held: PaymentRow)
    requires IsNewest(rows, row.id) && HoldsNext(rows, cursor, held)
    ensures HoldsNext(rows + [row], cursor, held)
  {
    var next :| IsNext(rows, cursor, next) && Plain(next) == Plain(held);
    assert IsNext(rows + [row], cursor, next);
  }

  lemma NextKeptByClear(rows: seq<PaymentRow>, cursor: int, held: PaymentRow)
    requires HoldsNext(rows, cursor, held)
    ensures HoldsNext(ClearedRows(rows), cursor, held)
  {
    var next :| IsNext(rows, cursor, next) && Plain(next) == Plain(held);
    var k :| 0 <= k < |rows| && rows[k] == next;
    assert ClearedRows(rows)[k] == Plain(next);
    assert IsNext(ClearedRows(rows), cursor, Plain(next));
  }

  lemma IdKept(rows: seq<PaymentRow>, more: seq<PaymentRow>, id: int)
    requires HasId(rows, id)
    requires |rows| <= |more| && forall i :: 0 <= i < |rows| ==> more[i].id == rows[i].id
    ensures HasId(more, id)
  {
    var i :| 0 <= i < |rows| && rows[i].id == id;
    assert more[i].id == id;
  }

  lemma ResultKept(rows: seq<PaymentRow>, more: seq<PaymentRow>, pc: ProducerPc)
    requires ResultIsStored(rows, pc)
    requires |rows| <= |more| && forall i :: 0 <= i < |rows| ==> more[i].id == rows[i].id
    ensures ResultIsStored(more, pc)
  {
    if (pc.Iterating? || pc.Putting? || pc.Noting?) && HasId(rows, pc.upTo) {
      IdKept(rows, more, pc.upTo);
    }
  }

  /** Other rows in the table, that leave the segment delivered so far and the next row as they were. */
  lemma NewRowsKeepInv(s: Subscription, rows: seq<PaymentRow>)
    requires Inv(s)
    requires IdsGrow(rows)
    requires LastEnqueued(s) == s.initialIndex || HasId(rows, LastEnqueued(s))
    requires s.pc.Putting? ==> HoldsNext(rows, s.paymentIndex, s.pc.row)
    requires ResultIsStored(rows, s.pc)
    requires Segment(rows, s.initialIndex, LastEnqueued(s)) == Segment(s.rows, s.initialIndex, LastEnqueued(s))
    ensures Inv(s.(rows := rows))
  {
    assert Delivered(s.(rows := rows)) == Delivered(s);
  }

  lemma InsertKeepsInv(s: Subscription, row: PaymentRow)
    requires Inv(s) && IsNewest(s.rows, row.id)
    ensures Inv(s.(rows := s.rows + [row]))
  {
    SegmentKeptByInsert(s.rows, row, s.initialIndex, LastEnqueued(s));
    if LastEnqueued(s) != s.initialIndex {
      IdKept(s.rows, s.rows + [row], LastEnqueued(s));
    }
    if s.pc.Putting? {
      NextKeptByInsert(s.rows, row, s.paymentIndex, s.pc.row);
    }
    ResultKept(s.rows, s.rows + [row], s.pc);
    NewRowsKeepInv(s, s.rows + [row]);
  }

  /** A row that comes in between polls belongs to the result of the next one. */
  lemma NextPollSeesNewRow(s: Subscription, row: PaymentRow)
    requires Enabled(s, Insert(row)) && s.pc.AtTest? && !s.stopped && s.paymentIndex < row.id
    ensures var polling := Apply(Apply(s, Insert(row)), TestStopped);
            && polling.pc == Iterating(s.paymentIndex, row.id) && row in polling.rows
            && (forall r :: r in s.rows ==> r in polling.rows)
            && HasMore(polling.rows, polling.pc.cursor, polling.pc.upTo)
  {
    var polling := Apply(Apply(s, Insert(row)), TestStopped);
    assert polling.rows[|s.rows|] == row;
  }

  /** Clearing the settle indices is possible at any time, and changes nothing else. */
  lemma ClearingKeepsRows(s: Subscription)
    ensures Enabled(s, ClearIndices)
    ensures var s' := Apply(s, ClearIndices);
            && s'.(rows := s.rows) == s && |s'.rows| == |s.rows|
            && forall i :: 0 <= i < |s.rows| ==>
                 && s'.rows[i].id == s.rows[i].id && s'.rows[i].payment.settleIndex == 0
                 && s'.rows[i].payment.paymentHash == s.rows[i].payment.paymentHash
                 && s'.rows[i].payment.squeakHash == s.rows[i].payment.squeakHash
                 && s'.rows[i].payment.priceMsat == s.rows[i].payment.priceMsat
                 && s'.rows[i].payment.peerAddress == s.rows[i].payment.peerAddress
  {
  }

  lemma ClearKeepsInv(s: Subscription)
    requires Inv(s)
    ensures Inv(s.(rows := ClearedRows(s.rows)))
  {
    SegmentKeptByClear(s.rows, s.initialIndex, LastEnqueued(s));
    if LastEnqueued(s) != s.initialIndex {
      IdKept(s.rows, ClearedRows(s.rows), LastEnqueued(s));
    }
    if s.pc.Putting? {
      NextKeptByClear(s.rows, s.paymentIndex, s.pc.row);
    }
    ResultKept(s.rows, ClearedRows(s.rows), s.pc);
    NewRowsKeepInv(s, ClearedRows(s.rows));
  }

  lemma DeliveredAfterPut(s: Subscription)
    requires Enabled(s, Put)
    ensures Delivered(Apply(s, Put)) == Delivered(s) + [Plain(s.pc.row)]
  {
    RowsOfPut(s.queue, Payment(s.pc.row));
    var before := s.yielded + Rows(s.queue);
    assert s.yielded + Rows(s.queue + [Payment(s.pc.row)]) == before + [s.pc.row];
    assert ClearedRows(before + [s.pc.row]) == ClearedRows(before) + [Plain(s.pc.row)];
  }

  lemma PutKeepsInv(s: Subscription)
    requires Inv(s) && Enabled(s, Put)
    ensures Inv(Apply(s, Put))
  {
    var row := s.pc.row;
    var next :| IsNext(s.rows, s.paymentIndex, next) && Plain(next) == Plain(row);
    assert next.id == Plain(next).id == row.id;
    SegmentToNext(s.rows, s.initialIndex, s.paymentIndex, next);
    DeliveredAfterPut(s);
    assert HasId(s.rows, row.id) by {
      var k :| 0 <= k < |s.rows| && s.rows[k] == next;
      assert s.rows[k].id == row.id;
    }
  }

  lemma PutPillKeepsInv(s: Subscription)
    requires Inv(s) && Enabled(s, PutPill)
    ensures Inv(Apply(s, PutPill))
  {
    RowsOfPut(s.queue, PoisonPill);
  }

  lemma GetKeepsInv(s: Subscription)
    requires Inv(s) && Enabled(s, Get)
    ensures Inv(Apply(s, Get))
  {
    RowsOfGet(s.queue);
    assert s.queue == [s.queue[0]] + s.queue[1..];
    if s.queue[0].Payment? {
      assert s.yielded + ([s.queue[0].row] + Rows(s.queue[1..])) == (s.yielded + [s.queue[0].row]) + Rows(s.queue[1..]);
    } else {
      assert s.queue[1..] == [];
    }
  }

  predicate OnlyMovesOn(step: Step) {
    step.Stop? || step.TestStopped? || step.Fetch? || step.EndOfResult? || step.ReadRaises? || step.Note? || step.WakeUp?
  }

  /** The steps of the producer that put nothing in the queue. */
  lemma MoveKeepsInv(s: Subscription, step: Step)
    requires Inv(s) && Enabled(s, step) && OnlyMovesOn(step)
    ensures Inv(Apply(s, step))
  {
    var w := Apply(s, step);
    assert LastEnqueued(w) == LastEnqueued(s) && Delivered(w) == Delivered(s);
    if step.Fetch? {
      assert HoldsNext(s.rows, s.paymentIndex, step.row);
    }
    if step.TestStopped? && s.rows != [] {
      assert s.rows[|s.rows| - 1].id == Newest(s.rows, s.paymentIndex);
    }
  }

  lemma StepKeepsInv(s: Subscription, step: Step)
    requires Inv(s) && Enabled(s, step)
    ensures Inv(Apply(s, step))
  {
    match step
    case Insert(row) => InsertKeepsInv(s, row);
    case ClearIndices => ClearKeepsInv(s);
    case Put => PutKeepsInv(s);
    case PutPill => PutPillKeepsInv(s);
    case Get => GetKeepsInv(s);
    case _ => MoveKeepsInv(s, step);
  }

  /**
   In every state of every run, the rows yielded followed by the rows queued
   are exactly the payments with ids above the initial index and up to the last
   one enqueued, in order, none missing and none twice.
   */
  lemma {:induction false} DeliversExactSegment(run: seq<Subscription>, n: nat)
    requires IsRun(run) && n < |run|
    ensures Inv(run[n])
    ensures Delivered(run[n]) == Segment(run[n].rows, run[n].initialIndex, LastEnqueued(run[n]))
  {
    if n == 0 {
      SegmentOfEqualBounds(run[0].rows, run[0].initialIndex);
    } else {
      DeliversExactSegment(run, n - 1);
      assert StepAt(run, n - 1);
      var step :| Enabled(run[n - 1], step) && run[n] == Apply(run[n - 1], step);
      StepKeepsInv(run[n - 1], step);
    }
  }

  /** Once the consumer has read the pill, it has yielded every row that was ever enqueued. */
  lemma PillMeansAllYielded(run: seq<Subscription>, n: nat)
    requires IsRun(run) && n < |run| && run[n].consumerEnded
    ensures ClearedRows(run[n].yielded) == Segment(run[n].rows, run[n].initialIndex, run[n].paymentIndex)
    ensures run[n].queue == [] && run[n].pc.Ended?
  {
    DeliversExactSegment(run, n);
    assert run[n].yielded + Rows([]) == run[n].yielded;
  }

  /** When nothing is left of a result, every row above the initial index that its query saw has been enqueued. */
  lemma FinishedPollHasItsResult(run: seq<Subscription>, n: nat)
    requires IsRun(run) && n < |run| && Enabled(run[n], EndOfResult)
    ensures var cursor, upTo := run[n].pc.cursor, run[n].pc.upTo;
            Delivered(run[n]) == Segment(run[n].rows, run[n].initialIndex, if upTo < cursor then cursor else upTo)
  {
    DeliversExactSegment(run, n);
    if run[n].pc.cursor <= run[n].pc.upTo {
      SegmentBelow(run[n].rows, run[n].initialIndex, run[n].pc.cursor, run[n].pc.upTo);
    }
  }

  /** If no row has come in since, that is every row above the initial index. */
  lemma FinishedPollIsCaughtUp(run: seq<Subscription>, n: nat)
    requires IsRun(run) && n < |run| && run[n].pc.Iterating?
    requires forall i :: 0 <= i < |run[n].rows| ==> run[n].rows[i].id <= run[n].pc.cursor
    ensures forall upper :: upper >= run[n].pc.cursor ==>
              Delivered(run[n]) == Segment(run[n].rows, run[n].initialIndex, upper)
  {
    DeliversExactSegment(run, n);
    forall upper | upper >= run[n].pc.cursor
      ensures Delivered(run[n]) == Segment(run[n].rows, run[n].initialIndex, upper)
    {
      SegmentBelow(run[n].rows, run[n].initialIndex, run[n].pc.cursor, upper);
    }
  }

  // ----- The two loops -----

  function Items(rows: seq<PaymentRow>): (r: seq<Item>)
    ensures |r| == |rows|
  {
    seq(|rows|, i requires 0 <= i < |rows| => Payment(rows[i]))
  }

  /** The queue and the two loops on it, each run as far as it gets without the other. */
  class ReceivedPaymentsSubscriptionClient {
    const initialIndex: int
    const maxQueueSize: nat
    var stopped: bool
    var q: seq<Item>

    constructor (initialIndex: int, maxQueueSize: nat)
      ensures this.initialIndex == initialIndex && this.maxQueueSize == maxQueueSize
      ensures !stopped && q == []
    {
      this.initialIndex, this.maxQueueSize := initialIndex, maxQueueSize;
      stopped, q := false, [];
    }

    predicate IsFull()
      reads this`q
    {
      maxQueueSize > 0 && |q| >= maxQueueSize
    }

    /**
     One poll. `payments` is what the query yields before it ends or raises. It puts the rows in order until
     they are all queued, or waits at a full queue with `put` of them queued; the next poll starts after the
     last row that was put.
     */
    method EnqueueLatest(payments: seq<PaymentRow>, paymentIndex: int) returns (nextIndex: int, put: nat)
      modifies `q
      ensures put <= |payments| && q == old(q) + Items(payments[..put])
      ensures put == |payments| <==> payments == [] || maxQueueSize == 0 || old(|q|) + |payments| <= maxQueueSize
      ensures put < |payments| ==> IsFull()
      ensures nextIndex == if put == 0 then paymentIndex else payments[put - 1].id
    {
      nextIndex, put := paymentIndex, 0;
      while put < |payments| && !IsFull()
        invariant put <= |payments| && q == old(q) + Items(payments[..put])
        invariant nextIndex == if put == 0 then paymentIndex else payments[put - 1].id
        invariant put > 0 ==> maxQueueSize == 0 || |q| <= maxQueueSize
        decreases |payments| - put
      {
        q := q + [Payment(payments[put])];
        nextIndex, put := payments[put].id, put + 1;
        assert Items(payments[..put]) == Items(payments[..put - 1]) + [Payment(payments[put - 1])];
      }
    }

    /** Yields the queued payments up to the poison pill, and ends there; without a pill it waits at an empty queue. */
    method GetReceivedPayments() returns (yielded: seq<PaymentRow>, ended: bool)
      modifies `q
      ensures ended == (PoisonPill in old(q))
      ensures old(q) == Items(yielded) + (if ended then [PoisonPill] else []) + q
      ensures !ended ==> q == []
    {
      yielded, ended := [], false;
      while q != []
        invariant old(q) == Items(yielded) + q
        decreases |q|
      {
        var payment := q[0];
        assert q == [payment] + q[1..];
        q := q[1..];
        if payment.PoisonPill? {
          ended := true;
          assert PoisonPill in old(q);
          return;
        }
        assert Items(yielded + [payment.row]) == Items(yielded) + [payment];
        yielded := yielded + [payment.row];
      }
      assert PoisonPill !in Items(yielded);
    }
  }
}
