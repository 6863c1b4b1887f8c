/** What holds over whole runs of the payment ledger. */
module PaymentRuns {
  import opened Basics
  import opened PaymentTables
  import opened PaymentLedger

  ghost function ActionAt(run: seq<Ledger>, retentionS: nat, k: nat): (a: Action)
    requires IsRun(run, retentionS) && k + 1 < |run|
    ensures Enabled(run[k], a) && run[k + 1] == Apply(run[k], a, retentionS)
  {
    assert StepAt(run, retentionS, k);
    var a :| Enabled(run[k], a) && run[k + 1] == Apply(run[k], a, retentionS);
    a
  }

  lemma {:induction false} RunKeepsInv(run: seq<Ledger>, retentionS: nat, k: nat)
    requires IsRun(run, retentionS) && k < |run|
    ensures Inv(run[k], retentionS)
  {
    if k > 0 {
      RunKeepsInv(run, retentionS, k - 1);
      StepKeepsInv(run[k - 1], ActionAt(run, retentionS, k - 1), retentionS);
    }
  }

  /** Some task looks up the offer of the invoice at `i` in the step from state `j`. */
  ghost predicate ScannedAt(run: seq<Ledger>, retentionS: nat, j: nat, i: nat) {
    && j + 1 < |run|
    && exists t :: Enabled(run[j], Deliver(t, i)) && run[j + 1] == Apply(run[j], Deliver(t, i), retentionS)
  }

  /** Each time the invoice at `i` was looked up before state `k`, its offer was stored. */
  ghost predicate FoundWheneverScanned(run: seq<Ledger>, retentionS: nat, k: nat, i: nat) {
    forall j :: 0 <= j < k && ScannedAt(run, retentionS, j, i) ==> run[j].settled[i].paymentHash in run[j].offers
  }

  /** Each look-up of the invoice at `i` before state `k` came within the retention interval after it settled. */
  ghost predicate ScannedInTime(run: seq<Ledger>, retentionS: nat, k: nat, i: nat) {
    forall j :: 0 <= j < k && ScannedAt(run, retentionS, j, i) ==>
      run[j].nowMs <= run[j].settled[i].atMs + retentionS * 1000
  }

  lemma RunStep(run: seq<Ledger>, retentionS: nat, k: nat)
    requires IsRun(run, retentionS) && k + 1 < |run|
    ensures Evolves(run[k], run[k + 1])
    ensures forall h :: h in run[k + 1].saved && IsSettled(run[k].settled, h) ==> h in run[k].saved
  {
    RunKeepsInv(run, retentionS, k);
    StepEvolves(run[k], ActionAt(run, retentionS, k), retentionS);
    SavedBeforeStep(run[k], ActionAt(run, retentionS, k), retentionS);
  }

  lemma SavedBeforeStep(s: Ledger, a: Action, retentionS: nat)
    requires Enabled(s, a)
    ensures forall h :: h in Apply(s, a, retentionS).saved && IsSettled(s.settled, h) ==> h in s.saved
  {
  }

  lemma {:induction false} SettledStays(run: seq<Ledger>, retentionS: nat, j: nat, k: nat, i: nat)
    requires IsRun(run, retentionS) && j <= k < |run| && i in run[j].settled
    ensures i in run[k].settled && run[k].settled[i] == run[j].settled[i]
    ensures forall h :: h in run[j].saved ==> h in run[k].saved && run[k].saved[h] == run[j].saved[h]
    ensures run[j].settled[i].paymentHash in run[k].saved ==> run[j].settled[i].paymentHash in run[j].saved
  {
    if j < k {
      SettledStays(run, retentionS, j, k - 1, i);
      RunStep(run, retentionS, k - 1);
      assert IsSettled(run[k - 1].settled, run[j].settled[i].paymentHash);
    }
  }

  /** `missed` records nothing but scans that found no offer. */
  lemma {:induction false} MissedWasAbsent(run: seq<Ledger>, retentionS: nat, k: nat, i: nat)
    requires IsRun(run, retentionS) && k < |run| && i in run[k].missed
    ensures exists j :: 0 <= j < k && ScannedAt(run, retentionS, j, i) && run[j].settled[i].paymentHash !in run[j].offers
  {
    if k > 0 {
      var a := ActionAt(run, retentionS, k - 1);
      if i in run[k - 1].missed {
        MissedWasAbsent(run, retentionS, k - 1, i);
      } else {
        assert a == Deliver(a.t, i);
        assert ScannedAt(run, retentionS, k - 1, i);
      }
    }
  }

  /**
   No payment skipped, none counted twice. Whatever tasks ran, overlapped, failed or were restarted with
   cleared indices: an invoice for a saved offer, with a settle index at or below the stored cursor, has
   exactly one payment row, which carries the offer's own squeak, price and buyer, and the invoice's index or,
   after a clear, zero -- provided its offer was stored whenever a scan looked for it.
   */
  lemma GapFreeCursor(run: seq<Ledger>, retentionS: nat, k: nat, i: nat)
    requires IsRun(run, retentionS) && k < |run|
    requires i in run[k].settled && i <= LatestSettleIndex(run[k].received)
    requires run[k].settled[i].paymentHash in run[k].saved
    requires FoundWheneverScanned(run, retentionS, k, i)
    ensures var h := run[k].settled[i].paymentHash;
            && CountPayments(run[k].received, h) == 1
            && forall r :: 0 <= r < |run[k].received| && run[k].received[r].paymentHash == h ==>
                 var row, sold := run[k].received[r], run[k].saved[h];
                 && row.squeakHash == sold.squeakHash && row.priceMsat == sold.priceMsat && row.peerAddress == sold.peerAddress
                 && (row.settleIndex == i || row.settleIndex == 0)
  {
    RunKeepsInv(run, retentionS, k);
    UniqueCount(run[k].received, run[k].settled[i].paymentHash);
    assert Accounted(run[k], i);
    if i in run[k].missed {
      MissedWasAbsent(run, retentionS, k, i);
    }
  }

  lemma StoredInWindow(run: seq<Ledger>, retentionS: nat, k: nat, i: nat)
    requires IsRun(run, retentionS) && k < |run| && i in run[k].settled
    requires run[k].settled[i].paymentHash in run[k].saved
    requires run[k].nowMs <= run[k].settled[i].atMs + retentionS * 1000
    ensures run[k].settled[i].paymentHash in run[k].offers
  {
    RunKeepsInv(run, retentionS, k);
  }

  lemma SettledNow(s: Ledger, a: Action, retentionS: nat, i: nat)
    requires Enabled(s, a) && i !in s.settled && i in Apply(s, a, retentionS).settled
    ensures Apply(s, a, retentionS).settled[i].atMs == s.nowMs
  {
  }

  /** The offer of an invoice that settles in the step from state `j` is still stored while the retention interval has not passed. */
  lemma OfferOutlivesWindow(run: seq<Ledger>, retentionS: nat, j: nat, k: nat, i: nat)
    requires IsRun(run, retentionS) && j < k < |run| && i !in run[j].settled && i in run[j + 1].settled
    requires i in run[k].settled && run[k].settled[i].paymentHash in run[k].saved
    requires run[k].nowMs <= run[j].nowMs + retentionS * 1000
    ensures run[k].settled[i].paymentHash in run[k].offers
  {
    SettledNow(run[j], ActionAt(run, retentionS, j), retentionS, i);
    SettledStays(run, retentionS, j + 1, k, i);
    StoredInWindow(run, retentionS, k, i);
  }

  /** Scanning in time is enough for the offer to be found, whatever the clock and the deletions did. */
  lemma InTimeIsFound(run: seq<Ledger>, retentionS: nat, k: nat, i: nat)
    requires IsRun(run, retentionS) && k < |run| && i in run[k].settled
    requires run[k].settled[i].paymentHash in run[k].saved
    requires ScannedInTime(run, retentionS, k, i)
    ensures FoundWheneverScanned(run, retentionS, k, i)
  {
    forall j | 0 <= j < k && ScannedAt(run, retentionS, j, i)
      ensures run[j].settled[i].paymentHash in run[j].offers
    {
      SettledStays(run, retentionS, j, k, i);
      StoredInWindow(run, retentionS, j, i);
    }
  }

  /** At every point of every run, and so at every crash, an offer marked paid has its payment stored. */
  lemma PaidOfferHasPayment(run: seq<Ledger>, retentionS: nat, k: nat, h: Hash)
    requires IsRun(run, retentionS) && k < |run| && h in run[k].offers && run[k].offers[h].paid
    ensures CountPayments(run[k].received, h) == 1
  {
    RunKeepsInv(run, retentionS, k);
    UniqueCount(run[k].received, h);
  }

  /** A stream that has dealt with every settled invoice. */
  ghost predicate Drained(s: Ledger, pc: TaskPc) {
    pc.Streaming? && forall i :: i in s.settled ==> i <= pc.pos
  }

  /** A replay from index 0 that has drained its stream has marked every stored offer with a recorded payment. */
  lemma FullReplayHeals(run: seq<Ledger>, retentionS: nat, k: nat, t: nat, h: Hash)
    requires IsRun(run, retentionS) && k < |run|
    requires t in run[k].tasks && Drained(run[k], run[k].tasks[t]) && run[k].tasks[t].start == 0
    requires h in run[k].offers
    ensures run[k].offers[h].paid <==> HasPayment(run[k].received, h)
  {
    RunKeepsInv(run, retentionS, k);
    if HasPayment(run[k].received, h) {
      var r :| 0 <= r < |run[k].received| && run[k].received[r].paymentHash == h;
      assert PaymentOk(run[k], run[k].received[r]);
      var i :| i in run[k].settled && run[k].settled[i].paymentHash == h;
    }
  }

  /** Clearing the indices loses neither a payment nor a price. */
  lemma {:induction false} ClearKeepsSum(received: seq<ReceivedPayment>)
    ensures SumPrices(ClearSettleIndices(received)) == SumPrices(received)
    ensures PaymentHashes(ClearSettleIndices(received)) == PaymentHashes(received)
  {
    if received != [] {
      var n := |received| - 1;
      ClearKeepsSum(received[..n]);
      assert ClearSettleIndices(received)[..n] == ClearSettleIndices(received[..n]);
    }
  }

  /** The payment hashes of the saved offers whose invoices have settled: what the seller is owed for. */
  ghost function SoldHashes(s: Ledger): (hs: set<Hash>)
    ensures hs <= s.saved.Keys
    ensures forall h :: h in hs <==> h in s.saved && IsSettled(s.settled, h)
  {
    set i | i in s.settled && s.settled[i].paymentHash in s.saved :: s.settled[i].paymentHash
  }

  /** The seller never records more than was settled, offer by offer. */
  lemma ReceivedWithinSold(s: Ledger, retentionS: nat)
    requires Inv(s, retentionS)
    ensures PaymentHashes(s.received) <= SoldHashes(s)
    ensures SumPrices(s.received) == TotalPrice(PaymentHashes(s.received), s.saved)
  {
    forall h | h in PaymentHashes(s.received) ensures h in SoldHashes(s) {
      var r :| 0 <= r < |s.received| && s.received[r].paymentHash == h;
      assert PaymentOk(s, s.received[r]);
    }
    SumIsTotal(s.received, s.saved);
  }

  /**
   Conservation. Once some stream has drained, and provided every look-up found its offer, the seller has
   recorded exactly the settled offers, and its total is the total of their prices.
   */
  lemma DrainedTotal(run: seq<Ledger>, retentionS: nat, k: nat, t: nat)
    requires IsRun(run, retentionS) && k < |run|
    requires t in run[k].tasks && Drained(run[k], run[k].tasks[t])
    requires forall i :: i in run[k].settled && run[k].settled[i].paymentHash in run[k].saved ==>
               FoundWheneverScanned(run, retentionS, k, i)
    ensures PaymentHashes(run[k].received) == SoldHashes(run[k])
    ensures SumPrices(run[k].received) == TotalPrice(SoldHashes(run[k]), run[k].saved)
  {
    var s := run[k];
    RunKeepsInv(run, retentionS, k);
    ReceivedWithinSold(s, retentionS);
    forall h | h in SoldHashes(s) ensures h in PaymentHashes(s.received) {
      var i :| i in s.settled && s.settled[i].paymentHash == h;
      assert TaskOk(s, s.tasks[t]) && Accounted(s, i);
      assert FoundWheneverScanned(run, retentionS, k, i);
      if i in s.missed {
        MissedWasAbsent(run, retentionS, k, i);
      }
    }
  }
}
