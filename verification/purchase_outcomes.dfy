/**
 What becomes of each purchase in a run of the two nodes: it is still to be recorded, it has been recorded,
 or its task crashed between paying and recording. Nothing brings such a purchase back.
 */
module PurchaseOutcomes {
  import opened Basics
  import opened SqueakCore
  import opened PaymentTables
  import opened PaymentLedger
  import opened PaymentRuns
  import opened TwoNodes

  ghost predicate Happens(shop: Shop, run: seq<System>, events: seq<Event>, k: nat)
    requires ValidShop(shop)
  {
    k < |events| && k + 1 < |run| && Possible(shop, run[k], events[k]) && run[k + 1] == After(shop, run[k], events[k])
  }

  /** A run of the two nodes together with its events. */
  ghost predicate IsRunOf(shop: Shop, run: seq<System>, events: seq<Event>)
    requires ValidShop(shop)
  {
    && |run| == |events| + 1
    && Init(run[0].ledger) && run[0].buyer == NewBuyer()
    && forall k: nat :: k < |events| ==> Happens(shop, run, events, k)
  }

  lemma RunOfIsRun(shop: Shop, run: seq<System>, events: seq<Event>)
    requires ValidShop(shop) && IsRunOf(shop, run, events)
    ensures IsSystemRun(shop, run)
  {
    forall k: nat | k + 1 < |run| ensures EventAt(shop, run, k) {
      assert Happens(shop, run, events, k);
    }
  }

  /** Task `t` has paid the invoice of `h` and not yet recorded it. */
  predicate IsOpen(s: System, t: nat, h: Hash) {
    OpenFor(s, t) == Some(h)
  }

  /** The event ends task `t` while it holds the payment of `h`. */
  predicate Loses(s: System, e: Event, t: nat, h: Hash) {
    e == Crash(t) && IsOpen(s, t, h)
  }

  ghost predicate CrashedBetween(run: seq<System>, events: seq<Event>, j: nat, k: nat, t: nat, h: Hash) {
    exists i :: j < i < k && i < |run| && i < |events| && Loses(run[i], events[i], t, h)
  }

  ghost predicate NobodyHolds(s: System, h: Hash) {
    forall t :: !IsOpen(s, t, h)
  }

  // ----- One event -----

  lemma PayOpens(shop: Shop, s: System, e: Event)
    requires ValidShop(shop) && BuyerInv(shop, s) && Possible(shop, s, e) && e.Pay?
    ensures IsOpen(After(shop, s, e), e.t, e.paymentHash)
    ensures e.paymentHash !in After(shop, s, e).buyer.payments
  {
    BuyerStep(shop, s, e);
    assert PurchaseOk(shop, After(shop, s, e), After(shop, s, e).buyer.tasks[e.t]);
  }

  /** What a write does to an open purchase. */
  lemma OpenWrite(b: Buyer, e: Event, c: Computed, t: nat, h: Hash)
    requires CanWrite(b, e) && t in b.tasks && b.tasks[t].Paid? && b.tasks[t].offer.paymentHash == h && h !in b.payments
    requires e == StorePayment(t) ==> c.paid.Returned? && c.paid.value.paymentHash == h
    requires e.StorePayment? && e.t != t && c.paid.Returned? ==> c.paid.value.paymentHash != h
    ensures var b' := Write(b, e, c);
            if e == StorePayment(t) then h in b'.payments
            else h !in b'.payments && (if e == Crash(t) then t !in b'.tasks else t in b'.tasks && b'.tasks[t] == b.tasks[t])
  {
  }

  /** An open purchase stays open, is recorded, or is lost by a crash. */
  lemma OpenStep(shop: Shop, s: System, e: Event, t: nat, h: Hash)
    requires ValidShop(shop) && BuyerInv(shop, s) && Possible(shop, s, e) && IsOpen(s, t, h)
    ensures var s' := After(shop, s, e);
            && IsSettled(s'.ledger.settled, h)
            && (Loses(s, e, t, h) ==> !IsOpen(s', t, h) && h !in s'.buyer.payments)
            && (e == StorePayment(t) ==> h in s'.buyer.payments)
            && (!Loses(s, e, t, h) && e != StorePayment(t) ==> IsOpen(s', t, h))
  {
    assert PurchaseOk(shop, s, s.buyer.tasks[t]);
    LedgerDoesFollow(shop, s, e);
    ComputesOk(shop, s, e);
    OpenWrite(s.buyer, e, Compute(shop, s, e), t, h);
  }

  lemma RecordedStays(shop: Shop, s: System, e: Event, h: Hash)
    requires ValidShop(shop) && BuyerInv(shop, s) && Possible(shop, s, e) && h in s.buyer.payments
    ensures h in After(shop, s, e).buyer.payments
  {
    ComputesOk(shop, s, e);
    PaymentsGrow(s.buyer, e, Compute(shop, s, e));
  }

  /** Paid, unrecorded and held by nobody, an invoice stays so: it cannot be paid again. */
  lemma LostStays(shop: Shop, s: System, e: Event, h: Hash)
    requires ValidShop(shop) && BuyerInv(shop, s) && Possible(shop, s, e)
    requires IsSettled(s.ledger.settled, h) && h !in s.buyer.payments && NobodyHolds(s, h)
    ensures var s' := After(shop, s, e);
            IsSettled(s'.ledger.settled, h) && h !in s'.buyer.payments && NobodyHolds(s', h)
  {
    var s', c := After(shop, s, e), Compute(shop, s, e);
    LedgerDoesFollow(shop, s, e);
    ComputesOk(shop, s, e);
    PaymentsGrow(s.buyer, e, c);
    if e.StorePayment? {
      assert !IsOpen(s, e.t, h);
    }
    forall t ensures !IsOpen(s', t, h) {
      assert !IsOpen(s, t, h);
      if OpenFor(s', t).Some? {
        assert t in s.buyer.tasks ==> PurchaseOk(shop, s, s.buyer.tasks[t]);
        OpenStays(shop, s, e, c, s'.ledger, t);
      }
    }
  }

  /** A crash of the one task that holds a purchase leaves nobody holding it. */
  lemma LossIsTotal(shop: Shop, s: System, e: Event, t: nat, h: Hash)
    requires ValidShop(shop) && BuyerInv(shop, s) && Possible(shop, s, e) && Loses(s, e, t, h)
    ensures NobodyHolds(After(shop, s, e), h)
  {
    forall u ensures !IsOpen(After(shop, s, e), u, h) {
      assert IsOpen(s, u, h) ==> u == t;
    }
  }

  // ----- Whole runs -----

  /** Since it was paid at `j`, the purchase of `h` by task `t` is open, recorded or lost, and only one of these. */
  ghost predicate OutcomeAt(run: seq<System>, events: seq<Event>, j: nat, k: nat, t: nat, h: Hash)
    requires k < |run|
  {
    && IsSettled(run[k].ledger.settled, h)
    && (IsOpen(run[k], t, h) ==> h !in run[k].buyer.payments && !CrashedBetween(run, events, j, k, t, h))
    && (h in run[k].buyer.payments ==> !CrashedBetween(run, events, j, k, t, h))
    && (CrashedBetween(run, events, j, k, t, h) ==> h !in run[k].buyer.payments && NobodyHolds(run[k], h))
    && (IsOpen(run[k], t, h) || h in run[k].buyer.payments || CrashedBetween(run, events, j, k, t, h))
  }

  lemma CrashedNext(run: seq<System>, events: seq<Event>, j: nat, k: nat, t: nat, h: Hash)
    requires j < k < |run| && k < |events|
    ensures CrashedBetween(run, events, j, k + 1, t, h) <==>
              CrashedBetween(run, events, j, k, t, h) || Loses(run[k], events[k], t, h)
  {
  }

  /** A recorded purchase is open in no task, so no crash can lose it. */
  lemma RecordedIsNotOpen(shop: Shop, s: System, t: nat, h: Hash)
    requires ValidShop(shop) && BuyerInv(shop, s) && h in s.buyer.payments
    ensures !IsOpen(s, t, h)
  {
    if t in s.buyer.tasks {
      assert PurchaseOk(shop, s, s.buyer.tasks[t]);
    }
  }

  lemma OutcomeStep(shop: Shop, run: seq<System>, events: seq<Event>, j: nat, k: nat, t: nat, h: Hash)
    requires ValidShop(shop) && j < k && Happens(shop, run, events, k) && BuyerInv(shop, run[k])
    requires OutcomeAt(run, events, j, k, t, h)
    ensures OutcomeAt(run, events, j, k + 1, t, h)
  {
    var s, e := run[k], events[k];
    CrashedNext(run, events, j, k, t, h);
    BuyerStep(shop, s, e);
    if IsOpen(s, t, h) {
      OpenStep(shop, s, e, t, h);
      if Loses(s, e, t, h) {
        LossIsTotal(shop, s, e, t, h);
      }
      if h in run[k + 1].buyer.payments {
        RecordedIsNotOpen(shop, run[k + 1], t, h);
      }
    } else if h in s.buyer.payments {
      RecordedStays(shop, s, e, h);
      RecordedIsNotOpen(shop, run[k + 1], t, h);
      LedgerDoesFollow(shop, s, e);
    } else {
      LostStays(shop, s, e, h);
    }
  }

  lemma BuyerInvHolds(shop: Shop, run: seq<System>, events: seq<Event>, k: nat)
    requires ValidShop(shop) && IsRunOf(shop, run, events) && k < |run|
    ensures BuyerInv(shop, run[k])
  {
    RunOfIsRun(shop, run, events);
    SystemKeepsInv(shop, run, k);
  }

  lemma OutcomeStarts(shop: Shop, run: seq<System>, events: seq<Event>, j: nat, t: nat, h: Hash)
    requires ValidShop(shop) && Happens(shop, run, events, j) && BuyerInv(shop, run[j])
    requires events[j].Pay? && events[j].t == t && events[j].paymentHash == h
    ensures OutcomeAt(run, events, j, j + 1, t, h)
  {
    PayOpens(shop, run[j], events[j]);
    LedgerDoesFollow(shop, run[j], events[j]);
  }

  lemma FirstOutcome(shop: Shop, run: seq<System>, events: seq<Event>, j: nat, t: nat, h: Hash)
    requires ValidShop(shop) && IsRunOf(shop, run, events) && j < |events|
    requires events[j].Pay? && events[j].t == t && events[j].paymentHash == h
    ensures OutcomeAt(run, events, j, j + 1, t, h)
  {
    BuyerInvHolds(shop, run, events, j);
    assert Happens(shop, run, events, j);
    OutcomeStarts(shop, run, events, j, t, h);
  }

  lemma NextOutcome(shop: Shop, run: seq<System>, events: seq<Event>, j: nat, k: nat, t: nat, h: Hash)
    requires ValidShop(shop) && IsRunOf(shop, run, events) && j < k < |events|
    requires OutcomeAt(run, events, j, k, t, h)
    ensures OutcomeAt(run, events, j, k + 1, t, h)
  {
    BuyerInvHolds(shop, run, events, k);
    assert Happens(shop, run, events, k);
    OutcomeStep(shop, run, events, j, k, t, h);
  }

  lemma {:induction false} PurchaseOutcome(shop: Shop, run: seq<System>, events: seq<Event>, j: nat, k: nat, t: nat, h: Hash, i: nat)
    requires ValidShop(shop) && IsRunOf(shop, run, events) && j < k < |run|
    requires events[j] == Pay(t, h, i)
    ensures OutcomeAt(run, events, j, k, t, h)
  {
    if k == j + 1 {
      FirstOutcome(shop, run, events, j, t, h);
    } else {
      PurchaseOutcome(shop, run, events, j, k - 1, t, h, i);
      NextOutcome(shop, run, events, j, k - 1, t, h);
    }
  }

  /**
   An invoice the buyer has paid is in its payment table if and only if its task is no longer about to record
   it and no crash hit that task before it did. A purchase lost in a crash is recorded in no later state, and
   no task ever saves its key.
   */
  lemma RecordedExactlyWhen(shop: Shop, run: seq<System>, events: seq<Event>, j: nat, k: nat, t: nat, h: Hash, i: nat)
    requires ValidShop(shop) && IsRunOf(shop, run, events) && j < k < |run|
    requires events[j] == Pay(t, h, i)
    ensures h in run[k].buyer.payments <==>
              !IsOpen(run[k], t, h) && !CrashedBetween(run, events, j, k, t, h)
    ensures CrashedBetween(run, events, j, k, t, h) ==>
              forall u :: u in run[k].buyer.tasks && !run[k].buyer.tasks[u].Paid? ==>
                run[k].buyer.tasks[u].payment.paymentHash != h
  {
    PurchaseOutcome(shop, run, events, j, k, t, h, i);
    RunOfIsRun(shop, run, events);
    SystemKeepsInv(shop, run, k);
    if h in run[k].buyer.payments {
      RecordedIsNotOpen(shop, run[k], t, h);
    }
    forall u | CrashedBetween(run, events, j, k, t, h) && u in run[k].buyer.tasks && !run[k].buyer.tasks[u].Paid?
      ensures run[k].buyer.tasks[u].payment.paymentHash != h
    {
      assert PurchaseOk(shop, run[k], run[k].buyer.tasks[u]);
    }
  }

  // ----- The two ledgers -----

  /** The buyer paid the invoice of `h` before `k`, the task has gone on to record it, and no crash came first. */
  ghost predicate BoughtAndRecorded(run: seq<System>, events: seq<Event>, k: nat, h: Hash)
    requires k < |run|
  {
    exists j, t, i :: 0 <= j < k && j < |events| && events[j] == Pay(t, h, i)
      && !IsOpen(run[k], t, h) && !CrashedBetween(run, events, j, k, t, h)
  }

  ghost predicate PaidBefore(events: seq<Event>, k: nat, h: Hash) {
    exists j, t, i :: 0 <= j < k && j < |events| && events[j] == Pay(t, h, i)
  }

  /** Whatever is held or recorded was paid by this buyer. */
  lemma {:induction false} HeldWasPaid(shop: Shop, run: seq<System>, events: seq<Event>, k: nat, h: Hash)
    requires ValidShop(shop) && IsRunOf(shop, run, events) && k < |run|
    requires h in run[k].buyer.payments || !NobodyHolds(run[k], h)
    ensures PaidBefore(events, k, h)
  {
    if k > 0 {
      var s, e := run[k - 1], events[k - 1];
      assert Happens(shop, run, events, k - 1);
      assert BuyerInv(shop, s) by {
        BuyerInvHolds(shop, run, events, k - 1);
      }
      if h in s.buyer.payments || !NobodyHolds(s, h) {
        HeldWasPaid(shop, run, events, k - 1, h);
        var j, t, i :| 0 <= j < k - 1 && j < |events| && events[j] == Pay(t, h, i);
        assert 0 <= j < k && events[j] == Pay(t, h, i);
      } else {
        HoldingStarts(shop, s, e, h);
        assert events[k - 1] == Pay(e.t, h, e.index);
      }
    }
  }

  /** Only a payment of `h` makes a task hold it. */
  lemma NewHolder(b: Buyer, e: Event, c: Computed, t: nat, h: Hash)
    requires CanWrite(b, e) && !(t in b.tasks && b.tasks[t].Paid? && b.tasks[t].offer.paymentHash == h)
    requires e.Pay? ==> b.offers[e.paymentHash].paymentHash == e.paymentHash
    requires var tasks := Write(b, e, c).tasks; t in tasks && tasks[t].Paid? && tasks[t].offer.paymentHash == h
    ensures e.Pay? && e.paymentHash == h
  {
  }

  lemma HoldingStarts(shop: Shop, s: System, e: Event, h: Hash)
    requires ValidShop(shop) && BuyerInv(shop, s) && Possible(shop, s, e)
    requires h !in s.buyer.payments && NobodyHolds(s, h)
    requires h in After(shop, s, e).buyer.payments || !NobodyHolds(After(shop, s, e), h)
    ensures e.Pay? && e.paymentHash == h
  {
    var s', c := After(shop, s, e), Compute(shop, s, e);
    ComputesOk(shop, s, e);
    PaymentsGrow(s.buyer, e, c);
    if e.StorePayment? {
      assert !IsOpen(s, e.t, h);
    }
    if t :| IsOpen(s', t, h) {
      assert !IsOpen(s, t, h);
      NewHolder(s.buyer, e, c, t, h);
    }
  }

  lemma RecordedMeansBought(shop: Shop, run: seq<System>, events: seq<Event>, k: nat, h: Hash)
    requires ValidShop(shop) && IsRunOf(shop, run, events) && k < |run|
    ensures h in run[k].buyer.payments <==> BoughtAndRecorded(run, events, k, h)
  {
    if h in run[k].buyer.payments {
      HeldWasPaid(shop, run, events, k, h);
      var j, t, i :| 0 <= j < k && j < |events| && events[j] == Pay(t, h, i);
      RecordedExactlyWhen(shop, run, events, j, k, t, h, i);
    }
    if BoughtAndRecorded(run, events, k, h) {
      var j, t, i :| 0 <= j < k && j < |events| && events[j] == Pay(t, h, i)
        && !IsOpen(run[k], t, h) && !CrashedBetween(run, events, j, k, t, h);
      RecordedExactlyWhen(shop, run, events, j, k, t, h, i);
    }
  }

  /**
   When the seller's stream has drained, and every look-up found its offer, the seller has received what the
   buyer has recorded spending if and only if every settled sale was paid by this buyer, in a task that has
   recorded it and did not crash first. Otherwise the seller has received more.
   */
  lemma SumsAgreeExactlyWhen(shop: Shop, run: seq<System>, events: seq<Event>, k: nat, t: nat)
    requires ValidShop(shop) && IsRunOf(shop, run, events) && k < |run|
    requires t in run[k].ledger.tasks && Drained(run[k].ledger, run[k].ledger.tasks[t])
    requires forall i :: i in run[k].ledger.settled && run[k].ledger.settled[i].paymentHash in run[k].ledger.saved ==>
               FoundWheneverScanned(LedgerRun(run), shop.retentionS, k, i)
    ensures Spent(run[k].buyer.payments) <= SumPrices(run[k].ledger.received)
    ensures Spent(run[k].buyer.payments) == SumPrices(run[k].ledger.received)
       <==> forall h :: h in SoldHashes(run[k].ledger) ==> BoughtAndRecorded(run, events, k, h)
  {
    RunOfIsRun(shop, run, events);
    TwoNodeConservation(shop, run, k, t);
    PaymentsAreSold(shop, run, k);
    forall h ensures h in run[k].buyer.payments <==> BoughtAndRecorded(run, events, k, h) {
      RecordedMeansBought(shop, run, events, k, h);
    }
  }

  lemma PaymentsAreSold(shop: Shop, run: seq<System>, k: nat)
    requires ValidShop(shop) && IsSystemRun(shop, run) && k < |run|
    ensures run[k].buyer.payments.Keys <= SoldHashes(run[k].ledger)
  {
    SystemKeepsInv(shop, run, k);
    forall h | h in run[k].buyer.payments ensures h in SoldHashes(run[k].ledger) {
      assert PaymentMatches(shop, run[k].ledger, run[k].buyer.payments[h]);
    }
  }

  // ----- The key -----

  function PurchaseHash(pc: PurchasePc): Hash {
    if pc.Paid? then pc.offer.paymentHash else pc.payment.paymentHash
  }

  /** Task `t` has the purchase of `h` in hand, anywhere between paying and saving the key. */
  predicate Carries(s: System, t: nat, h: Hash) {
    t in s.buyer.tasks && PurchaseHash(s.buyer.tasks[t]) == h
  }

  function PurchaseSqueak(pc: PurchasePc): Hash {
    if pc.Paid? then pc.offer.squeakHash else pc.payment.squeakHash
  }

  /** Three ways in which task `t` ends with the purchase of `h` in hand: it saves the key, it finds no squeak to save it to, or it crashes. */
  predicate Saves(s: System, e: Event, t: nat, h: Hash) {
    e == SaveKey(t) && Carries(s, t, h) && PurchaseSqueak(s.buyer.tasks[t]) in s.buyer.squeaks
  }

  predicate IsRefused(s: System, e: Event, t: nat, h: Hash) {
    e == SaveKey(t) && Carries(s, t, h) && PurchaseSqueak(s.buyer.tasks[t]) !in s.buyer.squeaks
  }

  predicate Drops(s: System, e: Event, t: nat, h: Hash) {
    e == Crash(t) && Carries(s, t, h)
  }

  ghost predicate SavedBetween(run: seq<System>, events: seq<Event>, j: nat, k: nat, t: nat, h: Hash) {
    exists i :: j < i < k && i < |run| && i < |events| && Saves(run[i], events[i], t, h)
  }

  ghost predicate RefusedBetween(run: seq<System>, events: seq<Event>, j: nat, k: nat, t: nat, h: Hash) {
    exists i :: j < i < k && i < |run| && i < |events| && IsRefused(run[i], events[i], t, h)
  }

  ghost predicate DroppedBetween(run: seq<System>, events: seq<Event>, j: nat, k: nat, t: nat, h: Hash) {
    exists i :: j < i < k && i < |run| && i < |events| && Drops(run[i], events[i], t, h)
  }

  /** What a write does to a purchase in hand. */
  lemma CarryWrite(b: Buyer, e: Event, c: Computed, t: nat, h: Hash)
    requires CanWrite(b, e) && t in b.tasks && PurchaseHash(b.tasks[t]) == h
    requires e == StorePayment(t) ==> c.paid.Returned? && c.paid.value.paymentHash == h && h !in b.payments
    ensures var tasks := Write(b, e, c).tasks;
            if e == SaveKey(t) || e == Crash(t) then t !in tasks else t in tasks && PurchaseHash(tasks[t]) == h
  {
  }

  /** A purchase comes into hand only when it is paid. */
  lemma NewCarrier(b: Buyer, e: Event, c: Computed, t: nat, h: Hash)
    requires CanWrite(b, e) && !(t in b.tasks && PurchaseHash(b.tasks[t]) == h)
    requires e == StorePayment(t) && c.paid.Returned? ==> c.paid.value.paymentHash == b.tasks[t].offer.paymentHash
    requires e.Pay? ==> b.offers[e.paymentHash].paymentHash == e.paymentHash != h
    ensures var tasks := Write(b, e, c).tasks; !(t in tasks && PurchaseHash(tasks[t]) == h)
  {
  }

  /** The purchase of `h` by task `t` is in hand, has had its key saved or refused, or was dropped by a crash before that. */
  ghost predicate KeyOutcomeAt(run: seq<System>, events: seq<Event>, j: nat, k: nat, t: nat, h: Hash)
    requires k < |run|
  {
    var saved, refused := SavedBetween(run, events, j, k, t, h), RefusedBetween(run, events, j, k, t, h);
    var dropped := DroppedBetween(run, events, j, k, t, h);
    && IsSettled(run[k].ledger.settled, h)
    && (Carries(run[k], t, h) || saved || refused || dropped)
    && (Carries(run[k], t, h) ==> !saved && !refused && !dropped)
    && !(saved && refused) && !(saved && dropped) && !(refused && dropped)
  }

  lemma KeyEventsNext(run: seq<System>, events: seq<Event>, j: nat, k: nat, t: nat, h: Hash)
    requires j < k < |run| && k < |events|
    ensures SavedBetween(run, events, j, k + 1, t, h) <==>
              SavedBetween(run, events, j, k, t, h) || Saves(run[k], events[k], t, h)
    ensures RefusedBetween(run, events, j, k + 1, t, h) <==>
              RefusedBetween(run, events, j, k, t, h) || IsRefused(run[k], events[k], t, h)
    ensures DroppedBetween(run, events, j, k + 1, t, h) <==>
              DroppedBetween(run, events, j, k, t, h) || Drops(run[k], events[k], t, h)
  {
  }

  lemma CarryStep(shop: Shop, s: System, e: Event, t: nat, h: Hash)
    requires ValidShop(shop) && BuyerInv(shop, s) && Possible(shop, s, e) && IsSettled(s.ledger.settled, h)
    ensures var s' := After(shop, s, e);
            && IsSettled(s'.ledger.settled, h)
            && (Carries(s', t, h) <==> Carries(s, t, h) && e != SaveKey(t) && e != Crash(t))
  {
    var c := Compute(shop, s, e);
    LedgerDoesFollow(shop, s, e);
    ComputesOk(shop, s, e);
    if t in s.buyer.tasks {
      assert PurchaseOk(shop, s, s.buyer.tasks[t]);
    }
    if Carries(s, t, h) {
      CarryWrite(s.buyer, e, c, t, h);
    } else {
      NewCarrier(s.buyer, e, c, t, h);
    }
  }

  lemma KeyOutcomeStep(shop: Shop, run: seq<System>, events: seq<Event>, j: nat, k: nat, t: nat, h: Hash)
    requires ValidShop(shop) && IsRunOf(shop, run, events) && j < k < |events|
    requires KeyOutcomeAt(run, events, j, k, t, h)
    ensures KeyOutcomeAt(run, events, j, k + 1, t, h)
  {
    BuyerInvHolds(shop, run, events, k);
    assert Happens(shop, run, events, k);
    KeyEventsNext(run, events, j, k, t, h);
    CarryStep(shop, run[k], events[k], t, h);
  }

  lemma KeyOutcomeStarts(shop: Shop, run: seq<System>, events: seq<Event>, j: nat, t: nat, h: Hash)
    requires ValidShop(shop) && IsRunOf(shop, run, events) && j < |events|
    requires events[j].Pay? && events[j].t == t && events[j].paymentHash == h
    ensures KeyOutcomeAt(run, events, j, j + 1, t, h)
  {
    FirstOutcome(shop, run, events, j, t, h);
    BuyerInvHolds(shop, run, events, j);
    assert Happens(shop, run, events, j);
    PayOpens(shop, run[j], events[j]);
  }

  lemma {:induction false} KeyOutcome(shop: Shop, run: seq<System>, events: seq<Event>, j: nat, k: nat, t: nat, h: Hash, i: nat)
    requires ValidShop(shop) && IsRunOf(shop, run, events) && j < k < |run|
    requires events[j] == Pay(t, h, i)
    ensures KeyOutcomeAt(run, events, j, k, t, h)
  {
    if k == j + 1 {
      KeyOutcomeStarts(shop, run, events, j, t, h);
    } else {
      KeyOutcome(shop, run, events, j, k - 1, t, h, i);
      KeyOutcomeStep(shop, run, events, j, k - 1, t, h);
    }
  }

  lemma SaveKeyWrites(b: Buyer, e: Event, c: Computed)
    requires CanWrite(b, e) && e.SaveKey? && c.accepted && b.tasks[e.t].payment.squeakHash in b.squeaks
    ensures var payment := b.tasks[e.t].payment;
            payment.squeakHash in Write(b, e, c).keys && Write(b, e, c).keys[payment.squeakHash] == payment.secretKey
  {
  }

  /** The last write of a purchase saves the seller's key, if the squeak is still stored. */
  lemma SaveKeySaves(shop: Shop, s: System, e: Event, t: nat, h: Hash)
    requires ValidShop(shop) && BuyerInv(shop, s) && Possible(shop, s, e) && Saves(s, e, t, h)
    ensures var g := PurchaseSqueak(s.buyer.tasks[t]);
            && g in shop.keys && g in After(shop, s, e).buyer.keys && After(shop, s, e).buyer.keys[g] == shop.keys[g]
  {
    PaymentOfTask(shop, s, t);
    SaveKeyWrites(s.buyer, e, Compute(shop, s, e));
  }

  /** What a task has recorded is the payment of a sale. */
  lemma PaymentOfTask(shop: Shop, s: System, t: nat)
    requires ValidShop(shop) && BuyerInv(shop, s) && t in s.buyer.tasks && !s.buyer.tasks[t].Paid?
    ensures PaymentMatches(shop, s.ledger, s.buyer.tasks[t].payment)
  {
    assert PurchaseOk(shop, s, s.buyer.tasks[t]);
  }

  /** The event puts a key to squeak `g`: the last write of a purchase of it, or a key that a peer gave away. */
  predicate PutsKey(s: System, e: Event, g: Hash) {
    && g in s.buyer.squeaks
    && ((e.SaveKey? && e.t in s.buyer.tasks && PurchaseSqueak(s.buyer.tasks[e.t]) == g) || (e.FreeKey? && e.squeakHash == g))
  }

  lemma KeyStep(shop: Shop, s: System, e: Event, g: Hash)
    requires ValidShop(shop) && BuyerInv(shop, s) && Possible(shop, s, e)
    ensures g in After(shop, s, e).buyer.keys <==> PutsKey(s, e, g) || (g in s.buyer.keys && e != Delete(g))
  {
    KeyWrite(s.buyer, e, Compute(shop, s, e), g);
    if e.SaveKey? {
      PaymentOfTask(shop, s, e.t);
    }
  }

  lemma KeyWrite(b: Buyer, e: Event, c: Computed, g: Hash)
    requires CanWrite(b, e)
    ensures g in Write(b, e, c).keys <==>
              || (g in b.squeaks && e.SaveKey? && c.accepted && PurchaseSqueak(b.tasks[e.t]) == g)
              || (g in b.squeaks && e.FreeKey? && e.squeakHash == g)
              || (g in b.keys && e != Delete(g))
  {
  }

  ghost predicate PutAndKept(run: seq<System>, events: seq<Event>, k: nat, g: Hash) {
    exists i :: 0 <= i < k && i < |run| && i < |events| && PutsKey(run[i], events[i], g) && !DeletedBetween(events, i, k, g)
  }

  ghost predicate DeletedBetween(events: seq<Event>, i: nat, k: nat, g: Hash) {
    exists m :: i < m < k && m < |events| && events[m] == Delete(g)
  }

  lemma PutAndKeptNext(run: seq<System>, events: seq<Event>, k: nat, g: Hash)
    requires k < |run| && k < |events|
    ensures PutAndKept(run, events, k + 1, g) <==>
              PutsKey(run[k], events[k], g) || (PutAndKept(run, events, k, g) && events[k] != Delete(g))
  {
    if PutsKey(run[k], events[k], g) {
      assert !DeletedBetween(events, k, k + 1, g);
    }
    if PutAndKept(run, events, k, g) && events[k] != Delete(g) {
      var i :| 0 <= i < k && PutsKey(run[i], events[i], g) && !DeletedBetween(events, i, k, g);
      assert !DeletedBetween(events, i, k + 1, g);
    }
    if PutAndKept(run, events, k + 1, g) && !PutsKey(run[k], events[k], g) {
      var i :| 0 <= i < k + 1 && PutsKey(run[i], events[i], g) && !DeletedBetween(events, i, k + 1, g);
      assert !DeletedBetween(events, i, k, g);
    }
  }

  /**
   The buyer holds the key of a squeak if and only if the last write of a purchase, or a peer that gave it away, put it
   to the stored squeak, and the squeak has not been deleted since.
   */
  lemma {:induction false} KeyIsHeldExactlyWhen(shop: Shop, run: seq<System>, events: seq<Event>, k: nat, g: Hash)
    requires ValidShop(shop) && IsRunOf(shop, run, events) && k < |run|
    ensures g in run[k].buyer.keys <==> PutAndKept(run, events, k, g)
  {
    if k > 0 {
      KeyIsHeldExactlyWhen(shop, run, events, k - 1, g);
      PutAndKeptNext(run, events, k - 1, g);
      NextKeyStep(shop, run, events, k - 1, g);
    }
  }

  lemma NextKeyStep(shop: Shop, run: seq<System>, events: seq<Event>, k: nat, g: Hash)
    requires ValidShop(shop) && IsRunOf(shop, run, events) && k < |events|
    ensures g in run[k + 1].buyer.keys <==> PutsKey(run[k], events[k], g) || (g in run[k].buyer.keys && events[k] != Delete(g))
  {
    BuyerInvHolds(shop, run, events, k);
    assert Happens(shop, run, events, k);
    KeyStep(shop, run[k], events[k], g);
  }

  /**
   A purchase saves its key if and only if its task is done with it, no crash hit the task while it had the purchase in
   hand, whether before the payment was recorded or after, and the squeak was still stored at the last write. Unless the
   squeak has been deleted since, the key is then held.
   */
  lemma KeyIsSavedExactlyWhen(shop: Shop, run: seq<System>, events: seq<Event>, j: nat, k: nat, t: nat, h: Hash, i: nat)
    requires ValidShop(shop) && IsRunOf(shop, run, events) && j < k < |run|
    requires events[j] == Pay(t, h, i)
    ensures SavedBetween(run, events, j, k, t, h) <==>
              !Carries(run[k], t, h) && !DroppedBetween(run, events, j, k, t, h) && !RefusedBetween(run, events, j, k, t, h)
    ensures SavedBetween(run, events, j, k, t, h) ==>
              exists g :: IsFor(run[k], h, g) && (g in run[k].buyer.keys || DeletedBetween(events, j, k, g))
  {
    KeyOutcome(shop, run, events, j, k, t, h, i);
    if SavedBetween(run, events, j, k, t, h) {
      SavedIsHeld(shop, run, events, j, k, t, h);
    }
  }

  lemma SavedIsHeld(shop: Shop, run: seq<System>, events: seq<Event>, j: nat, k: nat, t: nat, h: Hash)
    requires ValidShop(shop) && IsRunOf(shop, run, events) && j < k < |run| && SavedBetween(run, events, j, k, t, h)
    ensures exists g :: IsFor(run[k], h, g) && (g in run[k].buyer.keys || DeletedBetween(events, j, k, g))
  {
    var n :| j < n < k && Saves(run[n], events[n], t, h);
    var g := PurchaseSqueak(run[n].buyer.tasks[t]);
    assert IsFor(run[n], h, g) && PutsKey(run[n], events[n], g) by {
      BuyerInvHolds(shop, run, events, n);
      assert Happens(shop, run, events, n);
      PaymentOfTask(shop, run[n], t);
      SavesFor(shop, run[n], events[n], t, h);
    }
    SaleStays(shop, run, events, n, k, h, g);
    KeyIsHeldExactlyWhen(shop, run, events, k, g);
    if !DeletedBetween(events, j, k, g) {
      assert !DeletedBetween(events, n, k, g);
      assert PutAndKept(run, events, k, g);
    }
  }

  /** Invoice `h` is for squeak `g`. */
  predicate IsFor(s: System, h: Hash, g: Hash) {
    h in s.ledger.saved && s.ledger.saved[h].squeakHash == g
  }

  lemma SavesFor(shop: Shop, s: System, e: Event, t: nat, h: Hash)
    requires Saves(s, e, t, h) && s.buyer.tasks[t].Marked? && PaymentMatches(shop, s.ledger, s.buyer.tasks[t].payment)
    ensures IsFor(s, h, PurchaseSqueak(s.buyer.tasks[t])) && PutsKey(s, e, PurchaseSqueak(s.buyer.tasks[t]))
  {
  }

  lemma {:induction false} SaleStays(shop: Shop, run: seq<System>, events: seq<Event>, n: nat, k: nat, h: Hash, g: Hash)
    requires ValidShop(shop) && IsRunOf(shop, run, events) && n <= k < |run| && IsFor(run[n], h, g)
    ensures IsFor(run[k], h, g)
  {
    if n < k {
      SaleStays(shop, run, events, n, k - 1, h, g);
      assert Happens(shop, run, events, k - 1);
      SaleStaysNext(shop, run[k - 1], events[k - 1], h, g);
    }
  }

  lemma SaleStaysNext(shop: Shop, s: System, e: Event, h: Hash, g: Hash)
    requires ValidShop(shop) && Possible(shop, s, e) && IsFor(s, h, g)
    ensures IsFor(After(shop, s, e), h, g)
  {
    LedgerDoesFollow(shop, s, e);
  }

  // ----- A purchase that is lost -----

  lemma Continue(shop: Shop, run: seq<System>, events: seq<Event>, e: Event, s: System)
    returns (run': seq<System>, events': seq<Event>)
    requires ValidShop(shop) && IsRunOf(shop, run, events) && Possible(shop, run[|run| - 1], e)
    requires s == After(shop, run[|run| - 1], e)
    ensures IsRunOf(shop, run', events') && run' == run + [s] && events' == events + [e]
  {
    run', events' := run + [s], events + [e];
    forall k: nat | k < |events'| ensures Happens(shop, run', events', k) {
      if k < |events| {
        assert Happens(shop, run, events, k);
      }
    }
  }

  /** One sale at a given time; only payments, tasks and the buyer still change. */
  function OneSale(o: SentOffer, nowMs: nat, settled: bool, received: seq<ReceivedPayment>, tasks: map<nat, TaskPc>, buyer: Buyer): System {
    System(Ledger(nowMs, if settled then map[1 := Settlement(o.paymentHash, nowMs)] else map[],
                  map[o.paymentHash := o], received, tasks, map[o.paymentHash := o], map[]), buyer)
  }

  ghost predicate IsForSale(shop: Shop, o: SentOffer, nowMs: nat, payReq: PayReq)
    requires ValidShop(shop)
  {
    && HonestOffer(shop, o) && !o.paid && nowMs < (o.invoiceTime + o.invoiceExpiry) * 1000
    && payReq.paymentHash == o.paymentHash && payReq.numMsat == o.priceMsat
  }

  /** A buyer that stores a squeak and offers and has nothing in hand. */
  function Idle(squeakHash: Hash, offers: map<Hash, ReceivedOffer>): Buyer {
    NewBuyer().(squeaks := {squeakHash}, offers := offers)
  }

  function OfferEvents(o: SentOffer, payReq: PayReq, seller: PeerAddress): seq<Event> {
    [Seller(SaveOffer(o)), Download(o.squeakHash), Receive(o.paymentHash, payReq, seller, None)]
  }

  /** The seller makes an offer; the buyer stores the squeak and receives the offer. */
  lemma OfferReceived(shop: Shop, o: SentOffer, nowMs: nat, payReq: PayReq, seller: PeerAddress)
    returns (run: seq<System>, events: seq<Event>, offers: map<Hash, ReceivedOffer>)
    requires ValidShop(shop) && IsForSale(shop, o, nowMs, payReq)
    ensures IsRunOf(shop, run, events)
    ensures events == OfferEvents(o, payReq, seller)
    ensures run[|run| - 1] == OneSale(o, nowMs, false, [], map[], Idle(o.squeakHash, offers)) && o.paymentHash in offers
  {
    var got := UnpackOffer(shop.squeaks[o.squeakHash], PackageOffer(o, None, None), payReq, seller, false).value;
    offers := map[o.paymentHash := got];
    run, events := [System(Ledger(nowMs, map[], map[], [], map[], map[], map[]), NewBuyer())], [];
    run, events := Continue(shop, run, events, Seller(SaveOffer(o)), OneSale(o, nowMs, false, [], map[], NewBuyer()));
    run, events := Continue(shop, run, events, Download(o.squeakHash), OneSale(o, nowMs, false, [], map[], Idle(o.squeakHash, map[])));
    run, events := Continue(shop, run, events, Receive(o.paymentHash, payReq, seller, None),
                            OneSale(o, nowMs, false, [], map[], Idle(o.squeakHash, offers)));
  }

  /** The buyer pays the offer it has received and crashes. */
  lemma PaidAndCrashed(shop: Shop, o: SentOffer, nowMs: nat, payReq: PayReq, seller: PeerAddress)
    returns (run: seq<System>, events: seq<Event>, offers: map<Hash, ReceivedOffer>)
    requires ValidShop(shop) && IsForSale(shop, o, nowMs, payReq)
    ensures IsRunOf(shop, run, events)
    ensures events == OfferEvents(o, payReq, seller) + [Pay(0, o.paymentHash, 1)] + [Crash(0)]
    ensures run[|run| - 1] == OneSale(o, nowMs, true, [], map[], Idle(o.squeakHash, offers))
  {
    var h, preimage := o.paymentHash, OfferPreimage(shop.primitives, shop.keys[o.squeakHash], o.nonce);
    run, events, offers := OfferReceived(shop, o, nowMs, payReq, seller);
    run, events := Continue(shop, run, events, Pay(0, h, 1),
                            OneSale(o, nowMs, true, [], map[], Idle(o.squeakHash, offers).(tasks := map[0 := Paid(offers[h], preimage)])));
    run, events := Continue(shop, run, events, Crash(0), OneSale(o, nowMs, true, [], map[], Idle(o.squeakHash, offers)));
  }

  /** The seller's task finds the sale. */
  lemma SaleFound(shop: Shop, o: SentOffer, nowMs: nat, buyer: Buyer, run: seq<System>, events: seq<Event>)
    returns (run': seq<System>, events': seq<Event>)
    requires ValidShop(shop) && IsRunOf(shop, run, events)
    requires run[|run| - 1] == OneSale(o, nowMs, true, [], map[], buyer)
    ensures IsRunOf(shop, run', events') && events <= events'
    ensures run'[|run'| - 1] == OneSale(o, nowMs, true, [], map[0 := Yielded(0, 1, PaymentFor(o, 1))], buyer)
  {
    run', events' := Continue(shop, run, events, Seller(StartTask(0)), OneSale(o, nowMs, true, [], map[0 := Top], buyer));
    run', events' := Continue(shop, run', events', Seller(ReadCursor(0)),
                              OneSale(o, nowMs, true, [], map[0 := Streaming(0, 0)], buyer));
    run', events' := Continue(shop, run', events', Seller(Deliver(0, 1)),
                              OneSale(o, nowMs, true, [], map[0 := Yielded(0, 1, PaymentFor(o, 1))], buyer));
  }

  /** It records and marks the sale. */
  lemma SaleRecorded(shop: Shop, o: SentOffer, nowMs: nat, buyer: Buyer, run: seq<System>, events: seq<Event>)
    returns (run': seq<System>, events': seq<Event>)
    requires ValidShop(shop) && IsRunOf(shop, run, events)
    requires run[|run| - 1] == OneSale(o, nowMs, true, [], map[0 := Yielded(0, 1, PaymentFor(o, 1))], buyer)
    ensures IsRunOf(shop, run', events') && events <= events'
    ensures var s := run'[|run'| - 1];
            && s.buyer == buyer && s.ledger.received == [PaymentFor(o, 1)]
            && 0 in s.ledger.tasks && Drained(s.ledger, s.ledger.tasks[0])
  {
    var recorded := OneSale(o, nowMs, true, [PaymentFor(o, 1)], map[0 := Recorded(0, 1, o.paymentHash)], buyer);
    run', events' := Continue(shop, run, events, Seller(Insert(0)), recorded);
    run', events' := Continue(shop, run', events', Seller(MarkPaid(0)), After(shop, recorded, Seller(MarkPaid(0))));
  }

  /**
   The loss is real. For any honest offer there is a run in which the buyer pays and crashes before recording,
   and the seller's stream drains: the seller has received the price, and the buyer has recorded no spending
   and holds no key.
   */
  lemma LostPurchase(shop: Shop, o: SentOffer, nowMs: nat, payReq: PayReq, seller: PeerAddress)
    returns (run: seq<System>, events: seq<Event>)
    requires ValidShop(shop) && IsForSale(shop, o, nowMs, payReq)
    ensures IsRunOf(shop, run, events)
    ensures OfferEvents(o, payReq, seller) + [Pay(0, o.paymentHash, 1)] + [Crash(0)] <= events
    ensures var s := run[|run| - 1];
            && 0 in s.ledger.tasks && Drained(s.ledger, s.ledger.tasks[0])
            && SumPrices(s.ledger.received) == o.priceMsat > 0
            && Spent(s.buyer.payments) == 0 && s.buyer.keys == map[]
  {
    var offers;
    run, events, offers := PaidAndCrashed(shop, o, nowMs, payReq, seller);
    run, events := SaleFound(shop, o, nowMs, Idle(o.squeakHash, offers), run, events);
    run, events := SaleRecorded(shop, o, nowMs, Idle(o.squeakHash, offers), run, events);
    assert [PaymentFor(o, 1)][..0] == [];
  }

  /** The buyer has paid the offer it received. */
  lemma PaidRun(shop: Shop, o: SentOffer, nowMs: nat, payReq: PayReq, seller: PeerAddress)
    returns (run: seq<System>, events: seq<Event>, offers: map<Hash, ReceivedOffer>)
    requires ValidShop(shop) && IsForSale(shop, o, nowMs, payReq)
    ensures IsRunOf(shop, run, events) && BuyerInv(shop, run[|run| - 1])
    ensures events == OfferEvents(o, payReq, seller) + [Pay(0, o.paymentHash, 1)]
    ensures o.paymentHash in offers
    ensures var preimage := OfferPreimage(shop.primitives, shop.keys[o.squeakHash], o.nonce);
            run[|run| - 1] == OneSale(o, nowMs, true, [], map[],
                                      Idle(o.squeakHash, offers).(tasks := map[0 := Paid(offers[o.paymentHash], preimage)]))
  {
    var h, preimage := o.paymentHash, OfferPreimage(shop.primitives, shop.keys[o.squeakHash], o.nonce);
    run, events, offers := OfferReceived(shop, o, nowMs, payReq, seller);
    run, events := Continue(shop, run, events, Pay(0, h, 1),
                            OneSale(o, nowMs, true, [], map[], Idle(o.squeakHash, offers).(tasks := map[0 := Paid(offers[h], preimage)])));
    var m: nat := |run| - 1;
    BuyerInvHolds(shop, run, events, m);
  }

  /** The only purchase in hand is recorded. */
  lemma RecordOnly(shop: Shop, s: System, o: ReceivedOffer, preimage: Bytes) returns (recorded: System)
    requires ValidShop(shop) && BuyerInv(shop, s)
    requires s.buyer.tasks == map[0 := Paid(o, preimage)] && s.buyer.payments == map[] && s.buyer.keys == map[]
    ensures o.squeakHash in shop.keys
    ensures Possible(shop, s, StorePayment(0)) && recorded == After(shop, s, StorePayment(0))
    ensures var b := recorded.buyer;
            && b.keys == map[] && b.tasks.Keys == {0} && b.tasks[0].Stored? && b.tasks[0].payment.squeakHash == o.squeakHash
            && o.paymentHash in b.payments && b.payments[o.paymentHash].secretKey == shop.keys[o.squeakHash]
  {
    assert PurchaseOk(shop, s, s.buyer.tasks[0]);
    HonestPurchase(shop, s, o, preimage);
    recorded := After(shop, s, StorePayment(0));
  }

  /** The buyer has paid the offer and recorded the payment, with the key in it. */
  lemma RecordedRun(shop: Shop, o: SentOffer, nowMs: nat, payReq: PayReq, seller: PeerAddress)
    returns (run: seq<System>, events: seq<Event>)
    requires ValidShop(shop) && IsForSale(shop, o, nowMs, payReq)
    ensures IsRunOf(shop, run, events)
    ensures events == OfferEvents(o, payReq, seller) + [Pay(0, o.paymentHash, 1)] + [StorePayment(0)]
    ensures var b := run[|run| - 1].buyer;
            && b.keys == map[] && b.tasks.Keys == {0} && b.tasks[0].Stored? && b.tasks[0].payment.squeakHash == o.squeakHash
            && o.paymentHash in b.payments && b.payments[o.paymentHash].secretKey == shop.keys[o.squeakHash]
  {
    var offers;
    run, events, offers := PaidRun(shop, o, nowMs, payReq, seller);
    var s, offer := run[|run| - 1], offers[o.paymentHash];
    var preimage := OfferPreimage(shop.primitives, shop.keys[o.squeakHash], o.nonce);
    assert OfferMatches(shop, s.ledger, s.buyer.offers[o.paymentHash]) && offer.paymentHash == o.paymentHash;
    var recorded := RecordOnly(shop, s, offer, preimage);
    run, events := Continue(shop, run, events, StorePayment(0), recorded);
  }

  /**
   A recorded purchase can miss its key. For any honest offer there is a run in which the buyer pays, records the
   payment, with the key in it, and crashes before saving the key.
   */
  lemma RecordedWithoutKey(shop: Shop, o: SentOffer, nowMs: nat, payReq: PayReq, seller: PeerAddress)
    returns (run: seq<System>, events: seq<Event>)
    requires ValidShop(shop) && IsForSale(shop, o, nowMs, payReq)
    ensures IsRunOf(shop, run, events)
    ensures events == OfferEvents(o, payReq, seller) + [Pay(0, o.paymentHash, 1)] + [StorePayment(0)] + [Crash(0)]
    ensures var b := run[|run| - 1].buyer;
            && b.tasks == map[] && b.keys == map[]
            && o.paymentHash in b.payments && b.payments[o.paymentHash].secretKey == shop.keys[o.squeakHash]
  {
    run, events := RecordedRun(shop, o, nowMs, payReq, seller);
    run, events := Continue(shop, run, events, Crash(0), After(shop, run[|run| - 1], Crash(0)));
  }

  /** The squeak deleted before the last write, the key is refused: the task ends without it, and nothing has crashed. */
  lemma DeleteAndSave(shop: Shop, s: System, g: Hash) returns (marked: System, deleted: System)
    requires ValidShop(shop) && s.buyer.tasks.Keys == {0} && s.buyer.tasks[0].Stored? && s.buyer.tasks[0].payment.squeakHash == g
    requires g in shop.squeaks && s.buyer.keys == map[]
    ensures Possible(shop, s, MarkOffer(0)) && marked == After(shop, s, MarkOffer(0))
    ensures Possible(shop, marked, Delete(g)) && deleted == After(shop, marked, Delete(g))
    ensures Possible(shop, deleted, SaveKey(0))
    ensures var b := After(shop, deleted, SaveKey(0)).buyer;
            b.tasks == map[] && b.keys == map[] && b.payments == s.buyer.payments
  {
    marked := After(shop, s, MarkOffer(0));
    deleted := After(shop, marked, Delete(g));
  }

  /**
   And without a crash. For any honest offer there is a run in which the buyer pays, records the payment and marks the
   offer, and the squeak is deleted before the key is saved: the key is refused.
   */
  lemma RefusedKey(shop: Shop, o: SentOffer, nowMs: nat, payReq: PayReq, seller: PeerAddress)
    returns (run: seq<System>, events: seq<Event>)
    requires ValidShop(shop) && IsForSale(shop, o, nowMs, payReq)
    ensures IsRunOf(shop, run, events)
    ensures events == OfferEvents(o, payReq, seller) + [Pay(0, o.paymentHash, 1)] + [StorePayment(0)]
                      + [MarkOffer(0)] + [Delete(o.squeakHash)] + [SaveKey(0)]
    ensures var b := run[|run| - 1].buyer;
            && b.tasks == map[] && b.keys == map[]
            && o.paymentHash in b.payments && b.payments[o.paymentHash].secretKey == shop.keys[o.squeakHash]
  {
    run, events := RecordedRun(shop, o, nowMs, payReq, seller);
    var marked, deleted := DeleteAndSave(shop, run[|run| - 1], o.squeakHash);
    run, events := Continue(shop, run, events, MarkOffer(0), marked);
    run, events := Continue(shop, run, events, Delete(o.squeakHash), deleted);
    run, events := Continue(shop, run, events, SaveKey(0), After(shop, deleted, SaveKey(0)));
  }
}
