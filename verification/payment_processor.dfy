/**
 The payment processor and its tasks as objects (`squeaknode/node/payment_processor.py`), one thread at a
 time. What the database writes below amount to when threads interleave is the subject of `PaymentLedger`
 and `StopHandshake`.
 */
module PaymentProcessing {
  import opened Basics
  import opened SqueakCore
  import opened PaymentTables
  import opened SqueakDatabase

  /** An item of the lightning node's invoice stream. */
  datatype InvoiceUpdate = InvoiceUpdate(paymentHash: Hash, settled: bool, settleIndex: nat)

  /** The two tables a payment touches. */
  datatype Books = Books(offers: map<Hash, SentOffer>, received: seq<ReceivedPayment>)

  /** What dealing with one invoice does: only a settled invoice for a stored offer counts. */
  function Process(b: Books, u: InvoiceUpdate): Books {
    if u.settled && u.paymentHash in b.offers then
      var p := PaymentFor(b.offers[u.paymentHash], u.settleIndex);
      Books(SetSentOfferPaid(b.offers, p.paymentHash, true), InsertReceivedPayment(b.received, p))
    else
      b
  }

  function ProcessAll(b: Books, us: seq<InvoiceUpdate>): Books {
    if us == [] then b else Process(ProcessAll(b, us[..|us| - 1]), us[|us| - 1])
  }

  /** How many of the invoices are for a stored offer: each of these takes two writes. */
  function Sales(offers: map<Hash, SentOffer>, us: seq<InvoiceUpdate>): nat {
    if us == [] then 0
    else Sales(offers, us[..|us| - 1]) + if us[|us| - 1].settled && us[|us| - 1].paymentHash in offers then 1 else 0
  }

  lemma {:induction false} SalesGrow(offers: map<Hash, SentOffer>, us: seq<InvoiceUpdate>, i: nat)
    requires i <= |us|
    ensures Sales(offers, us[..i]) <= Sales(offers, us)
    decreases |us|
  {
    if i < |us| {
      var front := us[..|us| - 1];
      assert front[..i] == us[..i];
      SalesGrow(offers, front, i);
    } else {
      assert us[..i] == us;
    }
  }

  ghost predicate OffersKeyed(b: Books) {
    forall h :: h in b.offers ==> b.offers[h].paymentHash == h
  }

  /** A paid offer has its payment row; no payment hash has two rows. */
  ghost predicate Consistent(b: Books) {
    && OffersKeyed(b) && UniquePaymentHashes(b.received)
    && forall h :: h in b.offers && b.offers[h].paid ==> HasPayment(b.received, h)
  }

  /** The books have nothing left to learn from this invoice. */
  ghost predicate UpToDate(b: Books, u: InvoiceUpdate) {
    u.settled && u.paymentHash in b.offers ==> b.offers[u.paymentHash].paid && HasPayment(b.received, u.paymentHash)
  }

  lemma ClearKeepsHashes(received: seq<ReceivedPayment>)
    ensures PaymentHashes(ClearSettleIndices(received)) == PaymentHashes(received)
  {
    assert forall h :: h in PaymentHashes(ClearSettleIndices(received)) <==> h in PaymentHashes(received);
  }

  /** A new payment takes the cursor above zero; one that is stored already changes nothing. */
  lemma InsertMovesCursor(received: seq<ReceivedPayment>, p: ReceivedPayment)
    requires p.settleIndex > 0
    ensures PaymentHashes(InsertReceivedPayment(received, p)) == PaymentHashes(received) + {p.paymentHash}
    ensures HasPayment(received, p.paymentHash) ==> InsertReceivedPayment(received, p) == received
    ensures !HasPayment(received, p.paymentHash) ==> LatestSettleIndex(InsertReceivedPayment(received, p)) > 0
    ensures LatestSettleIndex(received) > 0 ==> LatestSettleIndex(InsertReceivedPayment(received, p)) > 0
  {
    var now := InsertReceivedPayment(received, p);
    if !HasPayment(received, p.paymentHash) {
      assert now[|received|] == p;
    }
  }

  function InsertAll(received: seq<ReceivedPayment>, payments: seq<ReceivedPayment>): seq<ReceivedPayment> {
    if payments == [] then received
    else InsertReceivedPayment(InsertAll(received, payments[..|payments| - 1]), payments[|payments| - 1])
  }

  /** Those that find a write left. */
  function AtMost(writesLeft: nat, payments: seq<ReceivedPayment>): seq<ReceivedPayment> {
    if |payments| <= writesLeft then payments else payments[..writesLeft]
  }

  lemma NextInserted(received: seq<ReceivedPayment>, writesLeft: nat, payments: seq<ReceivedPayment>, i: nat)
    requires i < |payments|
    ensures InsertAll(received, AtMost(writesLeft, payments[..i + 1]))
         == if i < writesLeft then InsertReceivedPayment(InsertAll(received, AtMost(writesLeft, payments[..i])), payments[i])
            else InsertAll(received, AtMost(writesLeft, payments[..i]))
  {
    assert payments[..i + 1][..i] == payments[..i];
    if i >= writesLeft {
      assert AtMost(writesLeft, payments[..i + 1]) == payments[..writesLeft] == AtMost(writesLeft, payments[..i]);
    }
  }

  /** No payment is lost, and the cursor is at zero exactly if no new payment has been recorded. */
  ghost predicate ReplaysNew(received: seq<ReceivedPayment>, now: seq<ReceivedPayment>) {
    && PaymentHashes(received) <= PaymentHashes(now)
    && (LatestSettleIndex(now) == 0 <==> PaymentHashes(now) == PaymentHashes(received))
  }

  lemma {:induction false} ReplayStart(received: seq<ReceivedPayment>, payments: seq<ReceivedPayment>)
    requires forall k :: 0 <= k < |payments| ==> payments[k].settleIndex > 0
    ensures ReplaysNew(received, InsertAll(ClearSettleIndices(received), payments))
  {
    if payments == [] {
      ClearKeepsHashes(received);
    } else {
      var front, last := payments[..|payments| - 1], payments[|payments| - 1];
      ReplayStart(received, front);
      InsertMovesCursor(InsertAll(ClearSettleIndices(received), front), last);
    }
  }

  lemma ReplayStarts(received: seq<ReceivedPayment>, writesLeft: nat, payments: seq<ReceivedPayment>)
    requires forall k :: 0 <= k < |payments| ==> payments[k].settleIndex > 0
    ensures ReplaysNew(received, InsertAll(ClearSettleIndices(received), AtMost(writesLeft, payments)))
  {
    ReplayStart(received, AtMost(writesLeft, payments));
  }

  class PaymentProcessorTask {
    const db: SqueakDb
    var stopped: bool
    /** The newest subscription, and which subscriptions have been cancelled. */
    var paymentsResult: Option<nat>
    var cancelled: set<nat>

    constructor (db: SqueakDb)
      ensures this.db == db && !stopped && paymentsResult == None && cancelled == {}
    {
      this.db := db;
      stopped, paymentsResult, cancelled := false, None, {};
    }

    method StopProcessing()
      modifies this
      ensures stopped && paymentsResult == old(paymentsResult)
      ensures cancelled == old(cancelled) + (if paymentsResult.Some? then {paymentsResult.value} else {})
    {
      stopped := true;
      if paymentsResult.Some? {
        cancelled := cancelled + {paymentsResult.value};
      }
    }

    ghost function TheBooks(): Books
      reads db
    {
      Books(db.sentOffers, db.receivedPayments)
    }

    /** Where the next subscription starts. */
    method GetLatestSettleIndex() returns (latest: nat)
      ensures forall k :: 0 <= k < |db.receivedPayments| ==> db.receivedPayments[k].settleIndex <= latest
      ensures latest == 0 || exists k :: 0 <= k < |db.receivedPayments| && db.receivedPayments[k].settleIndex == latest
    {
      latest := LatestSettleIndex(db.receivedPayments);
    }

    /** Two writes. If it raises it has done neither, or only recorded the payment. */
    method HandleReceivedPayment(payment: ReceivedPayment) returns (r: Outcome<()>)
      modifies db`writesLeft, db`receivedPayments, db`sentOffers
      ensures r.Returned? ==> TheBooks() == Books(SetSentOfferPaid(old(db.sentOffers), payment.paymentHash, true),
                                                  InsertReceivedPayment(old(db.receivedPayments), payment))
      ensures r.Raised? ==> db.sentOffers == old(db.sentOffers)
      ensures r.Returned? <==> old(db.writesLeft) >= 2
      ensures db.writesLeft == if r.Returned? then old(db.writesLeft) - 2 else 0
      ensures r.Raised? ==>
                db.receivedPayments == if old(db.writesLeft) == 0 then old(db.receivedPayments)
                                       else InsertReceivedPayment(old(db.receivedPayments), payment)
      ensures old(Consistent(TheBooks())) ==> Consistent(TheBooks())
    {
      var saved := db.SaveReceivedPayment(payment);
      if saved.Raised? {
        return Raised;
      }
      r := db.MarkSentOfferPaid(payment.paymentHash);
    }

    /** The `for` loop over the stream, up to the point where the stream ends or a write fails. */
    method ProcessStream(updates: seq<InvoiceUpdate>) returns (r: Outcome<()>, ghost done: nat)
      requires OffersKeyed(TheBooks())
      modifies db`writesLeft, db`receivedPayments, db`sentOffers
      ensures done <= |updates| && (r.Returned? ==> done == |updates|)
      ensures r.Returned? ==> TheBooks() == ProcessAll(old(TheBooks()), updates)
      ensures r.Raised? ==> done < |updates| && db.sentOffers == ProcessAll(old(TheBooks()), updates[..done]).offers
      ensures r.Returned? <==> old(db.writesLeft) >= 2 * Sales(old(db.sentOffers), updates)
      ensures r.Raised? ==>
                var sales := Sales(old(db.sentOffers), updates[..done]);
                && Sales(old(db.sentOffers), updates[..done + 1]) == sales + 1
                && 2 * sales <= old(db.writesLeft) <= 2 * sales + 1
                && db.receivedPayments
                   == ProcessAll(old(TheBooks()), updates[..if old(db.writesLeft) == 2 * sales then done else done + 1]).received
      ensures old(Consistent(TheBooks())) ==> Consistent(TheBooks())
      ensures ScanAdds(old(TheBooks()), updates, TheBooks())
    {
      ghost var start, writesLeft := TheBooks(), db.writesLeft;
      done := 0;
      var i := 0;
      while i < |updates|
        invariant 0 <= i <= |updates| && done == i
        invariant OffersKeyed(TheBooks())
        invariant TheBooks() == ProcessAll(start, updates[..i])
        invariant db.sentOffers.Keys == start.offers.Keys
        invariant db.writesLeft == writesLeft - 2 * Sales(start.offers, updates[..i])
      {
        var u := updates[i];
        assert updates[..i + 1][..i] == updates[..i];
        SalesGrow(start.offers, updates, i + 1);
        if u.settled && u.paymentHash in db.sentOffers {
          var payment := PaymentFor(db.sentOffers[u.paymentHash], u.settleIndex);
          var handled := HandleReceivedPayment(payment);
          if handled.Raised? {
            CutScanAdds(start, updates, i, if writesLeft == 2 * Sales(start.offers, updates[..i]) then i else i + 1);
            return Raised, i;
          }
        }
        i, done := i + 1, i + 1;
      }
      CutScanAdds(start, updates, i, i);
      assert updates[..i] == updates;
      return Returned(()), i;
    }
  }

  class PaymentProcessor {
    const db: SqueakDb
    var currentTask: PaymentProcessorTask?
    ghost var started: set<PaymentProcessorTask>

    /** Of all the tasks ever started, at most the current one has not been told to stop. */
    ghost predicate Valid()
      reads this, started
    {
      && (currentTask != null ==> currentTask in started)
      && (forall t :: t in started && t != currentTask ==> t.stopped)
      && (forall t :: t in started ==> t.db == db)
    }

    constructor (db: SqueakDb)
      ensures Valid() && this.db == db && currentTask == null && started == {}
    {
      this.db := db;
      currentTask, started := null, {};
    }

    method StartProcessing()
      requires Valid()
      modifies this, currentTask
      ensures Valid() && currentTask != null && fresh(currentTask) && !currentTask.stopped
      ensures started == old(started) + {currentTask}
      ensures old(currentTask) != null ==> old(currentTask).stopped
      ensures old(currentTask) != null && old(currentTask).paymentsResult.Some? ==>
                old(currentTask).paymentsResult.value in old(currentTask).cancelled
    {
      if currentTask != null {
        currentTask.StopProcessing();
      }
      currentTask := new PaymentProcessorTask(db);
      started := started + {currentTask};
    }

    method StopProcessing()
      requires Valid()
      modifies currentTask
      ensures Valid() && forall t :: t in started ==> t.stopped
    {
      if currentTask != null {
        currentTask.StopProcessing();
      }
    }

    /** What the task being replaced still records, as far as its writes are accepted. */
    method RecordMeanwhile(ghost received: seq<ReceivedPayment>, payments: seq<ReceivedPayment>)
      requires db.receivedPayments == ClearSettleIndices(received)
      requires forall k :: 0 <= k < |payments| ==> payments[k].settleIndex > 0
      modifies db`writesLeft, db`receivedPayments
      ensures db.receivedPayments == InsertAll(old(db.receivedPayments), AtMost(old(db.writesLeft), payments))
      ensures ReplaysNew(received, db.receivedPayments)
    {
      ghost var cleared, writesLeft := db.receivedPayments, db.writesLeft;
      ReplayStarts(received, writesLeft, payments);
      for i := 0 to |payments|
        invariant db.writesLeft == (if i < writesLeft then writesLeft - i else 0)
        invariant db.receivedPayments == InsertAll(cleared, AtMost(writesLeft, payments[..i]))
      {
        var saved := db.SaveReceivedPayment(payments[i]);
        NextInserted(cleared, writesLeft, payments, i);
      }
      assert payments[..|payments|] == payments;
    }

    /**
     `reprocess_received_payments`. The task being replaced runs until it is stopped: `recordedMeanwhile` are the
     payments it records after the clear. The next subscription starts at zero exactly if none of them was new.
     */
    method ReprocessReceivedPayments(recordedMeanwhile: seq<ReceivedPayment>) returns (r: Outcome<()>)
      requires Valid()
      requires forall k :: 0 <= k < |recordedMeanwhile| ==> recordedMeanwhile[k].settleIndex > 0
      modifies this, currentTask, db`writesLeft, db`receivedPayments
      ensures Valid()
      ensures r.Returned? <==> old(db.writesLeft) > 0
      ensures r.Returned? ==>
                db.receivedPayments
                == InsertAll(ClearSettleIndices(old(db.receivedPayments)), AtMost(old(db.writesLeft) - 1, recordedMeanwhile))
      ensures r.Returned? ==> currentTask != null && fresh(currentTask)
      ensures r.Returned? ==> ReplaysNew(old(db.receivedPayments), db.receivedPayments)
      ensures r.Raised? ==> currentTask == old(currentTask) && db.receivedPayments == old(db.receivedPayments)
    {
      ghost var received := db.receivedPayments;
      r := db.ClearReceivedPaymentSettleIndices();
      if r.Raised? {
        return;
      }
      RecordMeanwhile(received, recordedMeanwhile);
      StartProcessing();
    }
  }

  // ----- Results -----
  lemma ProcessKeepsConsistent(b: Books, u: InvoiceUpdate)
    requires Consistent(b)
    ensures Consistent(Process(b, u)) && UpToDate(Process(b, u), u)
    ensures Process(b, u).offers.Keys == b.offers.Keys && b.received <= Process(b, u).received
  {
  }

  lemma UpToDateStays(b: Books, u: InvoiceUpdate, v: InvoiceUpdate)
    requires Consistent(b) && UpToDate(b, u)
    ensures UpToDate(Process(b, v), u)
  {
  }

  /** The row says what the stored offer says, and carries the index of one of the invoices. */
  ghost predicate IsSaleOf(offers: map<Hash, SentOffer>, us: seq<InvoiceUpdate>, row: ReceivedPayment) {
    exists k :: 0 <= k < |us| && us[k].settled && us[k].paymentHash in offers
      && row.paymentHash == us[k].paymentHash && row.settleIndex == us[k].settleIndex
      && row.squeakHash == offers[us[k].paymentHash].squeakHash && row.priceMsat == offers[us[k].paymentHash].priceMsat
      && row.peerAddress == offers[us[k].paymentHash].peerAddress
  }

  /** The same offers, up to whether they are paid. */
  ghost predicate SameOffers(was: map<Hash, SentOffer>, now: map<Hash, SentOffer>) {
    now.Keys == was.Keys && forall h :: h in was ==> now[h].(paid := was[h].paid) == was[h]
  }

  /** The offers are the same up to whether they are paid, earlier payments are kept, and each new one is a sale. */
  ghost predicate ScanAdds(b: Books, us: seq<InvoiceUpdate>, now: Books) {
    && SameOffers(b.offers, now.offers) && b.received <= now.received
    && forall r :: |b.received| <= r < |now.received| ==> IsSaleOf(b.offers, us, now.received[r])
  }

  lemma SaleStays(offers: map<Hash, SentOffer>, us: seq<InvoiceUpdate>, n: nat, row: ReceivedPayment)
    requires n <= |us| && IsSaleOf(offers, us[..n], row)
    ensures IsSaleOf(offers, us, row)
  {
    var k :| 0 <= k < n && us[..n][k].settled && us[..n][k].paymentHash in offers
      && row.paymentHash == us[..n][k].paymentHash && row.settleIndex == us[..n][k].settleIndex
      && row.squeakHash == offers[us[..n][k].paymentHash].squeakHash && row.priceMsat == offers[us[..n][k].paymentHash].priceMsat
      && row.peerAddress == offers[us[..n][k].paymentHash].peerAddress;
    assert us[k] == us[..n][k];
  }

  lemma ProcessAddsSale(b: Books, u: InvoiceUpdate)
    requires OffersKeyed(b)
    ensures var now := Process(b, u);
            && SameOffers(b.offers, now.offers) && b.received <= now.received
            && (now.received == b.received || (|now.received| == |b.received| + 1 && IsSaleOf(b.offers, [u], now.received[|b.received|])))
  {
    assert [u][0] == u;
  }

  /** Each row that a scan adds is a sale: the offer's own squeak, price and buyer, under the index of the invoice. */
  lemma {:induction false} NewRowsAreSales(b: Books, us: seq<InvoiceUpdate>)
    requires OffersKeyed(b)
    ensures ScanAdds(b, us, ProcessAll(b, us))
  {
    if us != [] {
      var n := |us| - 1;
      var was, now := ProcessAll(b, us[..n]), ProcessAll(b, us);
      NewRowsAreSales(b, us[..n]);
      ProcessAddsSale(was, us[n]);
      forall r | |b.received| <= r < |now.received| ensures IsSaleOf(b.offers, us, now.received[r]) {
        if r < |was.received| {
          SaleStays(b.offers, us, n, now.received[r]);
        } else {
          assert IsSaleOf(was.offers, [us[n]], now.received[r]);
          assert us[n].paymentHash in b.offers;
        }
      }
    }
  }

  lemma CutIsConsistent(b: Books, us: seq<InvoiceUpdate>, m: nat, n: nat)
    requires Consistent(b) && m <= n <= |us|
    ensures Consistent(Books(ProcessAll(b, us[..m]).offers, ProcessAll(b, us[..n]).received))
  {
    var early, late := ProcessAll(b, us[..m]), ProcessAll(b, us[..n]);
    ScanCatchesUp(b, us[..m]);
    ScanCatchesUp(b, us[..n]);
    assert early.received <= late.received by {
      ScanGrows(b, us, m, n);
    }
    forall h | HasPayment(early.received, h) ensures HasPayment(late.received, h) {
      var k :| 0 <= k < |early.received| && early.received[k].paymentHash == h;
      assert late.received[k].paymentHash == h;
    }
  }

  lemma {:induction false} ScanGrows(b: Books, us: seq<InvoiceUpdate>, m: nat, n: nat)
    requires Consistent(b) && m <= n <= |us|
    ensures ProcessAll(b, us[..m]).received <= ProcessAll(b, us[..n]).received
  {
    if m < n {
      ScanGrows(b, us, m, n - 1);
      assert us[..n][..n - 1] == us[..n - 1];
      ScanCatchesUp(b, us[..n - 1]);
      ProcessKeepsConsistent(ProcessAll(b, us[..n - 1]), us[n - 1]);
    }
  }

  /** The same of a scan cut short, the offers after the first `m` invoices, the payments after the first `n`. */
  lemma CutScanAdds(b: Books, us: seq<InvoiceUpdate>, m: nat, n: nat)
    requires OffersKeyed(b) && m <= n <= |us|
    ensures ScanAdds(b, us, Books(ProcessAll(b, us[..m]).offers, ProcessAll(b, us[..n]).received))
    ensures Consistent(b) ==> Consistent(Books(ProcessAll(b, us[..m]).offers, ProcessAll(b, us[..n]).received))
  {
    if Consistent(b) {
      CutIsConsistent(b, us, m, n);
    }
    NewRowsAreSales(b, us[..m]);
    NewRowsAreSales(b, us[..n]);
    var received := ProcessAll(b, us[..n]).received;
    forall r | |b.received| <= r < |received| ensures IsSaleOf(b.offers, us, received[r]) {
      SaleStays(b.offers, us, n, received[r]);
    }
  }

  /** After a scan, the books are up to date with every invoice scanned, and have lost nothing. */
  lemma {:induction false} ScanCatchesUp(b: Books, us: seq<InvoiceUpdate>)
    requires Consistent(b)
    ensures Consistent(ProcessAll(b, us)) && ProcessAll(b, us).offers.Keys == b.offers.Keys
    ensures b.received <= ProcessAll(b, us).received
    ensures forall k :: 0 <= k < |us| ==> UpToDate(ProcessAll(b, us), us[k])
    ensures forall u :: UpToDate(b, u) ==> UpToDate(ProcessAll(b, us), u)
  {
    if us != [] {
      var front, last := us[..|us| - 1], us[|us| - 1];
      var b1 := ProcessAll(b, front);
      ScanCatchesUp(b, front);
      ProcessKeepsConsistent(b1, last);
      forall u | UpToDate(b1, u) ensures UpToDate(Process(b1, last), u) {
        UpToDateStays(b1, u, last);
      }
      forall k | 0 <= k < |us| ensures UpToDate(Process(b1, last), us[k]) {
        if k < |front| {
          assert us[k] == front[k];
        }
      }
    }
  }

  lemma {:induction false} UpToDateScanIsIdle(b: Books, us: seq<InvoiceUpdate>)
    requires Consistent(b) && forall k :: 0 <= k < |us| ==> UpToDate(b, us[k])
    ensures ProcessAll(b, us) == b
  {
    if us != [] {
      var last := us[|us| - 1];
      UpToDateScanIsIdle(b, us[..|us| - 1]);
      if last.settled && last.paymentHash in b.offers {
        assert b.offers[last.paymentHash].(paid := true) == b.offers[last.paymentHash];
        assert SetSentOfferPaid(b.offers, last.paymentHash, true) == b.offers;
      }
    }
  }

  /** The same invoice is among those scanned, as settled. */
  ghost predicate WasScanned(us: seq<InvoiceUpdate>, u: InvoiceUpdate) {
    exists k :: 0 <= k < |us| && us[k].paymentHash == u.paymentHash && us[k].settled
  }

  /**
   Replays never double-count: after a scan of some invoices, any number of further scans over any of the
   same invoices, in any order and with any settle indices, change nothing at all.
   */
  lemma ReplayIsIdle(b: Books, us: seq<InvoiceUpdate>, replay: seq<InvoiceUpdate>)
    requires Consistent(b)
    requires forall j :: 0 <= j < |replay| ==> WasScanned(us, replay[j])
    ensures ProcessAll(ProcessAll(b, us), replay) == ProcessAll(b, us)
  {
    var b1 := ProcessAll(b, us);
    ScanCatchesUp(b, us);
    forall j | 0 <= j < |replay| ensures UpToDate(b1, replay[j]) {
      assert WasScanned(us, replay[j]);
      var k :| 0 <= k < |us| && us[k].paymentHash == replay[j].paymentHash && us[k].settled;
      assert UpToDate(b1, us[k]);
    }
    UpToDateScanIsIdle(b1, replay);
  }
}
