/**
 Any number of payment-processor tasks, interleaved at every database access with each other, with
 stream errors, crashes, index clears, new sales and the deletion of expired offers
 (`squeaknode/node/payment_processor.py`).

 The lightning node is the map `settled` from settle index to settled invoice. Its contract: indices
 grow as invoices settle, a payment hash settles at most once and never after its invoice expired, and
 a subscription from `k` delivers the settled invoices above `k` in increasing order.
 `saved` and `missed` only record the past of a run; no step reads them.
 */
module PaymentLedger {
  import opened Basics
  import opened SqueakCore
  import opened PaymentTables

  datatype Settlement = Settlement(paymentHash: Hash, atMs: nat)

  /** Where a task stands between two accesses to the database. */
  datatype TaskPc =
    | Top
      /** Subscribed from `start`; invoices up to `pos` have been dealt with. */
    | Streaming(start: nat, pos: nat)
      /** The stream found the offer of the invoice at `pos` and yielded the payment. */
    | Yielded(start: nat, pos: nat, payment: ReceivedPayment)
      /** The payment row is in; the offer is still to be marked. */
    | Recorded(start: nat, pos: nat, paymentHash: Hash)

  datatype Ledger = Ledger(
    nowMs: nat,
    settled: map<nat, Settlement>,
    offers: map<Hash, SentOffer>,
    received: seq<ReceivedPayment>,
    tasks: map<nat, TaskPc>,
    saved: map<Hash, SentOffer>,
    missed: map<nat, nat>)

  datatype Action =
    | StartTask(t: nat)
    | ReadCursor(t: nat)
    | Deliver(t: nat, index: nat)
    | Insert(t: nat)
    | MarkPaid(t: nat)
    | StreamFails(t: nat)
    | EndTask(t: nat)
    | ClearIndices
    | SaveOffer(offer: SentOffer)
    | DeleteExpired
    | Settle(index: nat, paymentHash: Hash)
    | Tick(ms: nat)

  ghost predicate NextSettled(settled: map<nat, Settlement>, pos: nat, i: nat) {
    i in settled && pos < i && forall j :: j in settled && pos < j ==> i <= j
  }

  ghost predicate IsSettled(settled: map<nat, Settlement>, h: Hash) {
    exists i :: i in settled && settled[i].paymentHash == h
  }

  ghost predicate Enabled(s: Ledger, a: Action) {
    match a
    case StartTask(t) => t !in s.tasks
    case ReadCursor(t) => t in s.tasks && s.tasks[t].Top?
    case Deliver(t, i) => t in s.tasks && s.tasks[t].Streaming? && NextSettled(s.settled, s.tasks[t].pos, i)
    case Insert(t) => t in s.tasks && s.tasks[t].Yielded?
    case MarkPaid(t) => t in s.tasks && s.tasks[t].Recorded?
    case StreamFails(t) => t in s.tasks && s.tasks[t].Streaming?
    case EndTask(t) => t in s.tasks
    case ClearIndices => true
    case SaveOffer(o) => o.paymentHash !in s.saved && !IsSettled(s.settled, o.paymentHash) && !o.paid
    case DeleteExpired => true
    case Settle(i, h) =>
      && 0 < i && (forall j :: j in s.settled ==> j < i)
      && !IsSettled(s.settled, h)
      && (h in s.saved ==> s.nowMs < ExpiryMs(s.saved[h]))
    case Tick(ms) => true
  }

  ghost function Apply(s: Ledger, a: Action, retentionS: nat): Ledger
    requires Enabled(s, a)
  {
    match a
    case StartTask(t) => s.(tasks := s.tasks[t := Top])
    case ReadCursor(t) =>
      var latest := LatestSettleIndex(s.received);
      s.(tasks := s.tasks[t := Streaming(latest, latest)])
    case Deliver(t, i) =>
      var h, start := s.settled[i].paymentHash, s.tasks[t].start;
      if h in s.offers then
        s.(tasks := s.tasks[t := Yielded(start, i, PaymentFor(s.offers[h], i))])
      else
        s.(tasks := s.tasks[t := Streaming(start, i)], missed := s.missed[i := s.nowMs])
    case Insert(t) =>
      var pc := s.tasks[t];
      s.(received := InsertReceivedPayment(s.received, pc.payment),
         tasks := s.tasks[t := Recorded(pc.start, pc.pos, pc.payment.paymentHash)])
    case MarkPaid(t) =>
      var pc := s.tasks[t];
      s.(offers := SetSentOfferPaid(s.offers, pc.paymentHash, true),
         tasks := s.tasks[t := Streaming(pc.start, pc.pos)])
    case StreamFails(t) => s.(tasks := s.tasks[t := Top])
    case EndTask(t) => s.(tasks := s.tasks - {t})
    case ClearIndices => s.(received := ClearSettleIndices(s.received))
    case SaveOffer(o) => s.(offers := s.offers[o.paymentHash := o], saved := s.saved[o.paymentHash := o])
    case DeleteExpired => s.(offers := DeleteExpiredSentOffers(s.offers, s.nowMs, retentionS))
    case Settle(i, h) => s.(settled := s.settled[i := Settlement(h, s.nowMs)])
    case Tick(ms) => s.(nowMs := s.nowMs + ms)
  }

  ghost predicate Init(s: Ledger) {
    s.settled == map[] && s.offers == map[] && s.received == [] && s.tasks == map[] && s.saved == map[] && s.missed == map[]
  }

  ghost predicate StepAt(run: seq<Ledger>, retentionS: nat, k: nat) {
    k + 1 < |run| && exists a :: Enabled(run[k], a) && run[k + 1] == Apply(run[k], a, retentionS)
  }

  ghost predicate IsRun(run: seq<Ledger>, retentionS: nat) {
    && run != [] && Init(run[0])
    && forall k: nat :: k + 1 < |run| ==> StepAt(run, retentionS, k)
  }

  // ----- Invariant -----
  /** The invoice at `i` has its payment, or some scan found no offer for it. */
  ghost predicate Accounted(s: Ledger, i: nat)
    requires i in s.settled
  {
    HasPayment(s.received, s.settled[i].paymentHash) || i in s.missed
  }

  ghost predicate AccountedBelow(s: Ledger, bound: nat) {
    forall i :: i in s.settled && i < bound ==> Accounted(s, i)
  }

  /** A stored offer is an offer that was saved, up to its paid flag; a saved one that is gone was past its deadline. */
  ghost predicate OffersOk(s: Ledger, retentionS: nat) {
    && (forall h :: h in s.offers ==> h in s.saved && s.offers[h].(paid := false) == s.saved[h])
    && (forall h :: h in s.saved ==>
          && s.saved[h].paymentHash == h && !s.saved[h].paid
          && (h in s.offers || DeadlineMs(s.saved[h], retentionS) <= s.nowMs))
  }

  ghost predicate SettledOk(s: Ledger) {
    && (forall i :: i in s.settled ==> 0 < i && s.settled[i].atMs <= s.nowMs)
    && (forall i, j :: i in s.settled && j in s.settled && s.settled[i].paymentHash == s.settled[j].paymentHash ==> i == j)
    && (forall i :: i in s.settled && s.settled[i].paymentHash in s.saved ==>
          s.settled[i].atMs < ExpiryMs(s.saved[s.settled[i].paymentHash]))
  }

  /** A payment says what the saved offer said, for an invoice that settled. */
  ghost predicate PaymentOk(s: Ledger, p: ReceivedPayment) {
    && p.paymentHash in s.saved
    && p == PaymentFor(s.saved[p.paymentHash], p.settleIndex)
    && IsSettled(s.settled, p.paymentHash)
    && (p.settleIndex == 0 || (p.settleIndex in s.settled && s.settled[p.settleIndex].paymentHash == p.paymentHash))
  }

  ghost predicate ReceivedOk(s: Ledger) {
    && UniquePaymentHashes(s.received)
    && (forall k :: 0 <= k < |s.received| ==> PaymentOk(s, s.received[k]))
  }

  ghost predicate CursorOk(s: Ledger) {
    AccountedBelow(s, LatestSettleIndex(s.received) + 1)
  }

  ghost predicate PaidOk(s: Ledger) {
    forall h :: h in s.offers && s.offers[h].paid ==> HasPayment(s.received, h)
  }

  ghost predicate MissedOk(s: Ledger, retentionS: nat) {
    forall i :: i in s.missed ==>
      && i in s.settled && s.missed[i] <= s.nowMs
      && (s.settled[i].paymentHash in s.saved ==> DeadlineMs(s.saved[s.settled[i].paymentHash], retentionS) <= s.missed[i])
  }

  /** Every stored offer whose invoice lies strictly between the bounds is marked paid. */
  ghost predicate MarkedBetween(s: Ledger, start: nat, bound: nat) {
    forall i :: i in s.settled && start < i < bound && s.settled[i].paymentHash in s.offers ==>
      s.offers[s.settled[i].paymentHash].paid
  }

  ghost predicate TaskOk(s: Ledger, pc: TaskPc) {
    match pc
    case Top => true
    case Streaming(start, pos) =>
      && (pos == 0 || pos in s.settled) && AccountedBelow(s, pos + 1) && MarkedBetween(s, start, pos + 1)
    case Yielded(start, pos, p) =>
      && pos in s.settled && s.settled[pos].paymentHash == p.paymentHash && p.settleIndex == pos
      && PaymentOk(s, p) && AccountedBelow(s, pos) && MarkedBetween(s, start, pos)
    case Recorded(start, pos, h) =>
      && pos in s.settled && s.settled[pos].paymentHash == h && HasPayment(s.received, h)
      && AccountedBelow(s, pos + 1) && MarkedBetween(s, start, pos)
  }

  ghost predicate TasksOk(s: Ledger) {
    forall t :: t in s.tasks ==> TaskOk(s, s.tasks[t])
  }

  ghost predicate Inv(s: Ledger, retentionS: nat) {
    OffersOk(s, retentionS) && SettledOk(s) && ReceivedOk(s) && CursorOk(s) && PaidOk(s) && MissedOk(s, retentionS) && TasksOk(s)
  }

  lemma LatestIsSettled(s: Ledger)
    requires ReceivedOk(s)
    ensures LatestSettleIndex(s.received) == 0 || LatestSettleIndex(s.received) in s.settled
  {
  }

  // ----- Preservation -----
  /** What every step does to the parts of the ledger that the tasks rely on. */
  ghost predicate Evolves(s: Ledger, s': Ledger) {
    && s.nowMs <= s'.nowMs
    && (forall i :: i in s.settled ==> i in s'.settled && s'.settled[i] == s.settled[i])
    && (forall i :: i in s'.settled && i !in s.settled ==> 0 < i && forall j :: j in s.settled ==> j < i)
    && (forall h :: h in s.saved ==> h in s'.saved && s'.saved[h] == s.saved[h])
    && (forall h :: HasPayment(s.received, h) ==> HasPayment(s'.received, h))
    && (forall i :: i in s.missed ==> i in s'.missed)
    && (forall h :: h in s'.offers && IsSettled(s.settled, h) ==>
          h in s.offers && (s.offers[h].paid ==> s'.offers[h].paid))
  }

  lemma StepEvolves(s: Ledger, a: Action, retentionS: nat)
    requires Enabled(s, a)
    ensures Evolves(s, Apply(s, a, retentionS))
  {
    if a.Settle? || a.SaveOffer? || a.DeleteExpired? {
    } else if a.Insert? || a.ClearIndices? {
    } else {
    }
  }

  lemma TaskStaysOk(s: Ledger, s': Ledger, pc: TaskPc)
    requires TaskOk(s, pc) && Evolves(s, s')
    ensures TaskOk(s', pc)
  {
    match pc
    case Top =>
    case Streaming(start, pos) =>
      MarkedStays(s, s', start, pos + 1);
    case Yielded(start, pos, p) =>
      PaymentStaysOk(s, s', p);
      MarkedStays(s, s', start, pos);
    case Recorded(start, pos, h) =>
      MarkedStays(s, s', start, pos);
  }

  lemma MarkedStays(s: Ledger, s': Ledger, start: nat, bound: nat)
    requires MarkedBetween(s, start, bound) && Evolves(s, s')
    requires bound <= 1 || bound - 1 in s.settled || bound in s.settled
    ensures MarkedBetween(s', start, bound)
  {
    forall i | i in s'.settled && start < i < bound && s'.settled[i].paymentHash in s'.offers
      ensures s'.offers[s'.settled[i].paymentHash].paid
    {
      assert i in s.settled;
      assert IsSettled(s.settled, s.settled[i].paymentHash);
    }
  }

  lemma SaveKeepsOffers(s: Ledger, o: SentOffer, retentionS: nat)
    requires OffersOk(s, retentionS) && Enabled(s, SaveOffer(o))
    ensures OffersOk(Apply(s, SaveOffer(o), retentionS), retentionS)
  {
  }

  lemma DeleteKeepsOffers(s: Ledger, retentionS: nat)
    requires OffersOk(s, retentionS)
    ensures OffersOk(Apply(s, DeleteExpired, retentionS), retentionS)
  {
  }

  lemma MarkKeepsOffers(s: Ledger, t: nat, retentionS: nat)
    requires OffersOk(s, retentionS) && Enabled(s, MarkPaid(t))
    ensures OffersOk(Apply(s, MarkPaid(t), retentionS), retentionS)
  {
  }

  lemma StepKeepsOffers(s: Ledger, a: Action, retentionS: nat)
    requires OffersOk(s, retentionS) && Enabled(s, a)
    ensures OffersOk(Apply(s, a, retentionS), retentionS)
  {
    match a
    case SaveOffer(o) => SaveKeepsOffers(s, o, retentionS);
    case DeleteExpired => DeleteKeepsOffers(s, retentionS);
    case MarkPaid(t) => MarkKeepsOffers(s, t, retentionS);
    case _ =>
      assert Apply(s, a, retentionS).offers == s.offers && Apply(s, a, retentionS).saved == s.saved;
  }

  lemma StepKeepsSettled(s: Ledger, a: Action, retentionS: nat)
    requires SettledOk(s) && Enabled(s, a)
    ensures SettledOk(Apply(s, a, retentionS))
  {
  }

  lemma StepKeepsPaid(s: Ledger, a: Action, retentionS: nat)
    requires Inv(s, retentionS) && Enabled(s, a)
    ensures PaidOk(Apply(s, a, retentionS))
  {
  }

  lemma StepKeepsMissed(s: Ledger, a: Action, retentionS: nat)
    requires OffersOk(s, retentionS) && MissedOk(s, retentionS) && TasksOk(s) && Enabled(s, a)
    ensures MissedOk(Apply(s, a, retentionS), retentionS)
  {
    match a
    case SaveOffer(_) =>
    case DeleteExpired =>
    case MarkPaid(_) =>
    case Settle(_, _) =>
    case Deliver(_, _) =>
    case _ =>
  }

  lemma PaymentStaysOk(s: Ledger, s': Ledger, p: ReceivedPayment)
    requires PaymentOk(s, p) && Evolves(s, s')
    ensures PaymentOk(s', p) && PaymentOk(s', p.(settleIndex := 0))
  {
    var i :| i in s.settled && s.settled[i].paymentHash == p.paymentHash;
    assert i in s'.settled;
  }

  /** Every row of the new table is an old row, perhaps with its index cleared, or the payment of the acting task. */
  lemma ReceivedStep(s: Ledger, a: Action, retentionS: nat)
    requires Enabled(s, a) && UniquePaymentHashes(s.received)
    ensures var received := Apply(s, a, retentionS).received;
            && UniquePaymentHashes(received)
            && forall k :: 0 <= k < |received| ==>
                 || (k < |s.received| && (received[k] == s.received[k] || received[k] == s.received[k].(settleIndex := 0)))
                 || (a.Insert? && received[k] == s.tasks[a.t].payment)
  {
  }

  lemma StepKeepsReceived(s: Ledger, a: Action, retentionS: nat)
    requires ReceivedOk(s) && TasksOk(s) && Enabled(s, a)
    ensures ReceivedOk(Apply(s, a, retentionS))
  {
    var s' := Apply(s, a, retentionS);
    StepEvolves(s, a, retentionS);
    ReceivedStep(s, a, retentionS);
    forall k | 0 <= k < |s'.received| ensures PaymentOk(s', s'.received[k]) {
      if a.Insert? && s'.received[k] == s.tasks[a.t].payment {
        assert TaskOk(s, s.tasks[a.t]);
        PaymentStaysOk(s, s', s.tasks[a.t].payment);
      } else {
        PaymentStaysOk(s, s', s.received[k]);
      }
    }
  }

  lemma AccountedStays(s: Ledger, s': Ledger, bound: nat)
    requires AccountedBelow(s, bound) && Evolves(s, s')
    requires bound <= 1 || bound - 1 in s.settled || bound in s.settled
    ensures AccountedBelow(s', bound)
  {
  }

  lemma CursorMoves(s: Ledger, a: Action, retentionS: nat)
    requires Enabled(s, a)
    ensures var latest, latest' := LatestSettleIndex(s.received), LatestSettleIndex(Apply(s, a, retentionS).received);
            latest' == latest || (a.ClearIndices? && latest' == 0) || (a.Insert? && latest' == s.tasks[a.t].payment.settleIndex)
  {
  }

  lemma CursorStays(s: Ledger, s': Ledger)
    requires Evolves(s, s') && CursorOk(s)
    requires LatestSettleIndex(s.received) == 0 || LatestSettleIndex(s.received) in s.settled
    requires LatestSettleIndex(s'.received) <= LatestSettleIndex(s.received)
    ensures CursorOk(s')
  {
    AccountedStays(s, s', LatestSettleIndex(s.received) + 1);
  }

  lemma CursorRises(s: Ledger, s': Ledger, pos: nat)
    requires Evolves(s, s') && pos in s.settled && AccountedBelow(s, pos)
    requires LatestSettleIndex(s'.received) == pos && HasPayment(s'.received, s.settled[pos].paymentHash)
    ensures CursorOk(s')
  {
    AccountedStays(s, s', pos);
  }

  /** The cursor only rises to an index below which everything is accounted for. */
  lemma StepKeepsCursor(s: Ledger, a: Action, retentionS: nat)
    requires Inv(s, retentionS) && Enabled(s, a)
    ensures CursorOk(Apply(s, a, retentionS))
  {
    StepEvolves(s, a, retentionS);
    CursorMoves(s, a, retentionS);
    LatestIsSettled(s);
    var s' := Apply(s, a, retentionS);
    if LatestSettleIndex(s'.received) <= LatestSettleIndex(s.received) {
      CursorStays(s, s');
    } else {
      assert TaskOk(s, s.tasks[a.t]);
      CursorRises(s, s', s.tasks[a.t].pos);
    }
  }

  lemma StepKeepsTasks(s: Ledger, a: Action, retentionS: nat)
    requires Inv(s, retentionS) && Enabled(s, a)
    ensures TasksOk(Apply(s, a, retentionS))
  {
    var s' := Apply(s, a, retentionS);
    StepEvolves(s, a, retentionS);
    forall t | t in s'.tasks ensures TaskOk(s', s'.tasks[t]) {
      if t in s.tasks && s'.tasks[t] == s.tasks[t] {
        TaskStaysOk(s, s', s.tasks[t]);
      } else {
        ActingTaskOk(s, a, retentionS, t);
      }
    }
  }

  lemma ReaderOk(s: Ledger, t: nat, retentionS: nat)
    requires ReceivedOk(s) && CursorOk(s) && Enabled(s, ReadCursor(t))
    ensures TaskOk(Apply(s, ReadCursor(t), retentionS), Apply(s, ReadCursor(t), retentionS).tasks[t])
  {
    LatestIsSettled(s);
  }

  /** Nothing settled lies between the last invoice and the one delivered. */
  lemma DelivererOk(s: Ledger, t: nat, i: nat, retentionS: nat)
    requires OffersOk(s, retentionS) && SettledOk(s) && Enabled(s, Deliver(t, i)) && TaskOk(s, s.tasks[t])
    ensures TaskOk(Apply(s, Deliver(t, i), retentionS), Apply(s, Deliver(t, i), retentionS).tasks[t])
    ensures var pc, h := Apply(s, Deliver(t, i), retentionS).tasks[t], s.settled[i].paymentHash;
            && (pc.Yielded? || pc.Streaming?) && pc.pos == i && pc.start == s.tasks[t].start
            && (pc.Yielded? <==> h in s.offers)
            && (pc.Yielded? ==>
                  && pc.payment.paymentHash == h && pc.payment.settleIndex == i
                  && pc.payment.squeakHash == s.offers[h].squeakHash && pc.payment.priceMsat == s.offers[h].priceMsat
                  && pc.payment.peerAddress == s.offers[h].peerAddress)
  {
    assert forall j :: j in s.settled && j < i ==> j <= s.tasks[t].pos;
    assert IsSettled(s.settled, s.settled[i].paymentHash);
  }

  /** After a failure a task subscribes anew, from the greatest index stored by then, and not from where it was. */
  lemma FailedStreamRestarts(s: Ledger, t: nat, retentionS: nat)
    requires Enabled(s, StreamFails(t))
    ensures var failed := Apply(s, StreamFails(t), retentionS);
            && failed.received == s.received && failed.offers == s.offers && Enabled(failed, ReadCursor(t))
            && var pc := Apply(failed, ReadCursor(t), retentionS).tasks[t];
               && pc.Streaming? && pc.start == pc.pos
               && (forall k :: 0 <= k < |s.received| ==> s.received[k].settleIndex <= pc.pos)
               && (pc.pos == 0 || exists k :: 0 <= k < |s.received| && s.received[k].settleIndex == pc.pos)
  {
  }

  /**
   A deletion, however much later, takes exactly the offers whose invoice has been expired for the retention interval,
   and nothing else.
   */
  lemma DeletionIsTimely(s: Ledger, ms: nat, retentionS: nat)
    ensures Enabled(s, Tick(ms)) && Enabled(Apply(s, Tick(ms), retentionS), DeleteExpired)
    ensures var left := Apply(Apply(s, Tick(ms), retentionS), DeleteExpired, retentionS);
            && left.(offers := s.offers, nowMs := s.nowMs) == s && left.nowMs == s.nowMs + ms
            && forall h :: h in left.offers <==>
                 h in s.offers && s.nowMs + ms < (s.offers[h].invoiceTime + s.offers[h].invoiceExpiry + retentionS) * 1000
  {
  }

  lemma InserterOk(s: Ledger, t: nat, retentionS: nat)
    requires Enabled(s, Insert(t)) && TaskOk(s, s.tasks[t])
    ensures TaskOk(Apply(s, Insert(t), retentionS), Apply(s, Insert(t), retentionS).tasks[t])
  {
  }

  lemma MarkerOk(s: Ledger, t: nat, retentionS: nat)
    requires SettledOk(s) && Enabled(s, MarkPaid(t)) && TaskOk(s, s.tasks[t])
    ensures TaskOk(Apply(s, MarkPaid(t), retentionS), Apply(s, MarkPaid(t), retentionS).tasks[t])
  {
  }

  lemma ActingTaskOk(s: Ledger, a: Action, retentionS: nat, t: nat)
    requires Inv(s, retentionS) && Enabled(s, a)
    requires t in Apply(s, a, retentionS).tasks
    requires t !in s.tasks || s.tasks[t] != Apply(s, a, retentionS).tasks[t]
    ensures TaskOk(Apply(s, a, retentionS), Apply(s, a, retentionS).tasks[t])
  {
    match a
    case ReadCursor(_) => ReaderOk(s, t, retentionS);
    case Deliver(_, i) => DelivererOk(s, t, i, retentionS);
    case Insert(_) => InserterOk(s, t, retentionS);
    case MarkPaid(_) => MarkerOk(s, t, retentionS);
    case _ =>
  }

  lemma StepKeepsInv(s: Ledger, a: Action, retentionS: nat)
    requires Inv(s, retentionS) && Enabled(s, a)
    ensures Inv(Apply(s, a, retentionS), retentionS)
  {
    StepKeepsOffers(s, a, retentionS);
    StepKeepsSettled(s, a, retentionS);
    StepKeepsPaid(s, a, retentionS);
    StepKeepsMissed(s, a, retentionS);
    StepKeepsReceived(s, a, retentionS);
    StepKeepsCursor(s, a, retentionS);
    StepKeepsTasks(s, a, retentionS);
  }
}
