/**
 Restarting the payment processor with cleared settle indices (`squeaknode/node/squeak_controller.py`,
 `reprocess_received_payments`) while the task it replaces may still be running.
 */
module PaymentRestarts {
  import opened Basics
  import opened SqueakCore
  import opened PaymentTables
  import opened PaymentLedger
  import opened PaymentRuns

  ghost predicate Takes(run: seq<Ledger>, actions: seq<Action>, retentionS: nat, k: nat) {
    && k < |actions| && k + 1 < |run|
    && Enabled(run[k], actions[k]) && run[k + 1] == Apply(run[k], actions[k], retentionS)
  }

  /** A run together with the actions it takes. */
  ghost predicate IsRunBy(run: seq<Ledger>, actions: seq<Action>, retentionS: nat) {
    && |run| == |actions| + 1 && Init(run[0])
    && forall k: nat :: k < |actions| ==> Takes(run, actions, retentionS, k)
  }

  lemma RunByIsRun(run: seq<Ledger>, actions: seq<Action>, retentionS: nat)
    requires IsRunBy(run, actions, retentionS)
    ensures IsRun(run, retentionS)
  {
    forall k: nat | k + 1 < |run| ensures StepAt(run, retentionS, k) {
      assert Takes(run, actions, retentionS, k);
    }
  }

  /** The action inserts a payment whose hash was not stored. */
  ghost predicate StoresNew(s: Ledger, a: Action) {
    a.Insert? && a.t in s.tasks && s.tasks[a.t].Yielded? && !HasPayment(s.received, s.tasks[a.t].payment.paymentHash)
  }

  ghost predicate StoresNewBetween(run: seq<Ledger>, actions: seq<Action>, j: nat, k: nat) {
    exists i :: j < i < k && i < |run| && i < |actions| && StoresNew(run[i], actions[i])
  }

  /** Without a clear, the cursor stays unless the step stores a new payment, which takes it above zero. */
  lemma CursorStep(s: Ledger, a: Action, retentionS: nat)
    requires Inv(s, retentionS) && Enabled(s, a) && !a.ClearIndices?
    ensures var latest := LatestSettleIndex(Apply(s, a, retentionS).received);
            if StoresNew(s, a) then latest > 0 else latest == LatestSettleIndex(s.received)
  {
    if StoresNew(s, a) {
      var p, received := s.tasks[a.t].payment, Apply(s, a, retentionS).received;
      assert TaskOk(s, s.tasks[a.t]);
      assert received[|received| - 1] == p && p.settleIndex > 0;
    }
  }

  lemma StoresNewNext(run: seq<Ledger>, actions: seq<Action>, j: nat, k: nat)
    requires j < k < |run| && k < |actions|
    ensures StoresNewBetween(run, actions, j, k + 1) <==>
              StoresNewBetween(run, actions, j, k) || StoresNew(run[k], actions[k])
  {
  }

  lemma CursorNext(run: seq<Ledger>, actions: seq<Action>, retentionS: nat, k: nat)
    requires IsRunBy(run, actions, retentionS) && k < |actions| && actions[k] != ClearIndices
    ensures LatestSettleIndex(run[k + 1].received) == 0 <==>
              LatestSettleIndex(run[k].received) == 0 && !StoresNew(run[k], actions[k])
  {
    RunByIsRun(run, actions, retentionS);
    RunKeepsInv(run, retentionS, k);
    assert Takes(run, actions, retentionS, k);
    CursorStep(run[k], actions[k], retentionS);
  }

  lemma ClearedNext(run: seq<Ledger>, actions: seq<Action>, retentionS: nat, j: nat)
    requires IsRunBy(run, actions, retentionS) && j < |actions| && actions[j] == ClearIndices
    ensures LatestSettleIndex(run[j + 1].received) == 0 && !StoresNewBetween(run, actions, j, j + 1)
  {
    assert Takes(run, actions, retentionS, j);
  }

  /** After a clear, the stored cursor is zero exactly as long as no task stores a new payment. */
  lemma {:induction false} CursorAfterClear(run: seq<Ledger>, actions: seq<Action>, retentionS: nat, j: nat, k: nat)
    requires IsRunBy(run, actions, retentionS) && j < k < |run|
    requires actions[j] == ClearIndices && forall i :: j < i < k ==> actions[i] != ClearIndices
    ensures LatestSettleIndex(run[k].received) == 0 <==> !StoresNewBetween(run, actions, j, k)
  {
    if k == j + 1 {
      ClearedNext(run, actions, retentionS, j);
    } else {
      var m: nat := k - 1;
      assert LatestSettleIndex(run[m].received) == 0 <==> !StoresNewBetween(run, actions, j, m) by {
        CursorAfterClear(run, actions, retentionS, j, m);
      }
      CursorNext(run, actions, retentionS, m);
      StoresNewNext(run, actions, j, m);
    }
  }

  /**
   After a clear at `j`, a task that reads its cursor at `k` replays from zero if and only if no task, such as
   the one being replaced, has stored a new payment in between.
   */
  lemma ReplayStartsAtZeroExactlyWhen(run: seq<Ledger>, actions: seq<Action>, retentionS: nat, j: nat, k: nat, t: nat)
    requires IsRunBy(run, actions, retentionS) && j < k < |actions|
    requires actions[j] == ClearIndices && forall i :: j < i < k ==> actions[i] != ClearIndices
    requires actions[k] == ReadCursor(t)
    ensures t in run[k + 1].tasks && run[k + 1].tasks[t].Streaming?
    ensures run[k + 1].tasks[t].start == 0 <==> !StoresNewBetween(run, actions, j, k)
  {
    assert Takes(run, actions, retentionS, k);
    CursorAfterClear(run, actions, retentionS, j, k);
  }

  ghost predicate AllAtTop(s: Ledger) {
    forall u :: u in s.tasks ==> s.tasks[u].Top?
  }

  lemma {:induction false} NobodyFetches(run: seq<Ledger>, actions: seq<Action>, retentionS: nat, j: nat, k: nat)
    requires IsRunBy(run, actions, retentionS) && j < k < |run| && AllAtTop(run[j])
    requires actions[j] == ClearIndices && forall i :: j < i < k ==> !actions[i].ReadCursor?
    ensures AllAtTop(run[k]) && !StoresNewBetween(run, actions, j, k)
  {
    if k > j + 1 {
      NobodyFetches(run, actions, retentionS, j, k - 1);
      StoresNewNext(run, actions, j, k - 1);
    }
    assert Takes(run, actions, retentionS, k - 1);
  }

  /**
   What can be checked beforehand: if at the clear no task holds a payment or an open stream, the first task to
   read its cursor afterwards replays from zero.
   */
  lemma QuietClearReplaysFromZero(run: seq<Ledger>, actions: seq<Action>, retentionS: nat, j: nat, k: nat, t: nat)
    requires IsRunBy(run, actions, retentionS) && j < k < |actions| && AllAtTop(run[j])
    requires actions[j] == ClearIndices && forall i :: j < i < k ==> actions[i] != ClearIndices && !actions[i].ReadCursor?
    requires actions[k] == ReadCursor(t)
    ensures t in run[k + 1].tasks && run[k + 1].tasks[t] == Streaming(0, 0)
  {
    NobodyFetches(run, actions, retentionS, j, k);
    ReplayStartsAtZeroExactlyWhen(run, actions, retentionS, j, k, t);
    assert Takes(run, actions, retentionS, k);
  }

  /** The stream of `t` ends, by an error or with its task. */
  predicate Interrupts(a: Action, t: nat) {
    a == StreamFails(t) || a == EndTask(t)
  }

  ghost predicate StreamsFrom(s: Ledger, t: nat, start: nat) {
    t in s.tasks && !s.tasks[t].Top? && s.tasks[t].start == start
  }

  lemma StartStep(s: Ledger, a: Action, retentionS: nat, t: nat, start: nat)
    requires Enabled(s, a) && StreamsFrom(s, t, start) && !Interrupts(a, t)
    ensures StreamsFrom(Apply(s, a, retentionS), t, start)
  {
  }

  lemma {:induction false} StartStays(run: seq<Ledger>, actions: seq<Action>, retentionS: nat, k: nat, m: nat, t: nat, start: nat)
    requires IsRunBy(run, actions, retentionS) && k <= m < |run|
    requires StreamsFrom(run[k], t, start)
    requires forall i :: k <= i < m ==> !Interrupts(actions[i], t)
    ensures StreamsFrom(run[m], t, start)
    decreases m - k
  {
    if k < m {
      StartStays(run, actions, retentionS, k, m - 1, t, start);
      assert Takes(run, actions, retentionS, m - 1);
      StartStep(run[m - 1], actions[m - 1], retentionS, t, start);
    }
  }

  /**
   Reprocessing heals. If nothing new was stored between the clear and the new task's read, and the new
   stream drains without being interrupted, every stored offer is marked paid exactly if its payment is recorded.
   */
  lemma ReprocessingHeals(
      run: seq<Ledger>, actions: seq<Action>, retentionS: nat, j: nat, k: nat, m: nat, t: nat, h: Hash)
    requires IsRunBy(run, actions, retentionS) && j < k < m < |run|
    requires actions[j] == ClearIndices && forall i :: j < i < k ==> actions[i] != ClearIndices
    requires actions[k] == ReadCursor(t) && !StoresNewBetween(run, actions, j, k)
    requires forall i :: k < i < m ==> !Interrupts(actions[i], t)
    requires t in run[m].tasks && Drained(run[m], run[m].tasks[t]) && h in run[m].offers
    ensures run[m].offers[h].paid <==> HasPayment(run[m].received, h)
  {
    ReplayStartsAtZeroExactlyWhen(run, actions, retentionS, j, k, t);
    StartStays(run, actions, retentionS, k + 1, m, t, 0);
    RunByIsRun(run, actions, retentionS);
    FullReplayHeals(run, retentionS, m, t, h);
  }

  // ----- A replay that heals nothing -----
  /** Both offers saved and settled; only payments and tasks still change. */
  function Sold(a: SentOffer, b: SentOffer, nowMs: nat, received: seq<ReceivedPayment>, tasks: map<nat, TaskPc>): Ledger {
    var offers := map[a.paymentHash := a][b.paymentHash := b];
    Ledger(nowMs, map[1 := Settlement(a.paymentHash, nowMs)][2 := Settlement(b.paymentHash, nowMs)],
           offers, received, tasks, offers, map[])
  }

  ghost predicate TwoSales(a: SentOffer, b: SentOffer, nowMs: nat) {
    && a.paymentHash != b.paymentHash && !a.paid && !b.paid
    && nowMs < (a.invoiceTime + a.invoiceExpiry) * 1000 && nowMs < (b.invoiceTime + b.invoiceExpiry) * 1000
  }

  lemma ExtendRun(run: seq<Ledger>, actions: seq<Action>, retentionS: nat, a: Action, s: Ledger)
    returns (run': seq<Ledger>, actions': seq<Action>)
    requires IsRunBy(run, actions, retentionS)
    requires Enabled(run[|run| - 1], a) && s == Apply(run[|run| - 1], a, retentionS)
    ensures IsRunBy(run', actions', retentionS)
    ensures run' == run + [s] && actions' == actions + [a]
  {
    run', actions' := run + [s], actions + [a];
    forall k: nat | k < |actions'| ensures Takes(run', actions', retentionS, k) {
      if k < |actions| {
        assert Takes(run, actions, retentionS, k);
      }
    }
  }

  /** Two keys are offered for sale. */
  lemma OffersRun(a: SentOffer, b: SentOffer, nowMs: nat, retentionS: nat) returns (run: seq<Ledger>, actions: seq<Action>)
    requires TwoSales(a, b, nowMs)
    ensures IsRunBy(run, actions, retentionS)
    ensures var offers := map[a.paymentHash := a][b.paymentHash := b];
            run[|run| - 1] == Ledger(nowMs, map[], offers, [], map[], offers, map[])
  {
    var one, two := map[a.paymentHash := a], map[a.paymentHash := a][b.paymentHash := b];
    run, actions := [Ledger(nowMs, map[], map[], [], map[], map[], map[])], [];
    run, actions := ExtendRun(run, actions, retentionS, SaveOffer(a), Ledger(nowMs, map[], one, [], map[], one, map[]));
    run, actions := ExtendRun(run, actions, retentionS, SaveOffer(b), Ledger(nowMs, map[], two, [], map[], two, map[]));
  }

  /** Both are sold. */
  lemma SalesRun(a: SentOffer, b: SentOffer, nowMs: nat, retentionS: nat) returns (run: seq<Ledger>, actions: seq<Action>)
    requires TwoSales(a, b, nowMs)
    ensures IsRunBy(run, actions, retentionS)
    ensures run[|run| - 1] == Sold(a, b, nowMs, [], map[])
  {
    var offers, first := map[a.paymentHash := a][b.paymentHash := b], map[1 := Settlement(a.paymentHash, nowMs)];
    run, actions := OffersRun(a, b, nowMs, retentionS);
    run, actions := ExtendRun(run, actions, retentionS, Settle(1, a.paymentHash),
                              Ledger(nowMs, first, offers, [], map[], offers, map[]));
    run, actions := ExtendRun(run, actions, retentionS, Settle(2, b.paymentHash), Sold(a, b, nowMs, [], map[]));
  }

  lemma LatestOfOne(p: ReceivedPayment)
    ensures LatestSettleIndex([p]) == p.settleIndex
  {
    assert [p][..0] == [];
  }

  lemma LatestOfTwo(p: ReceivedPayment, q: ReceivedPayment)
    ensures LatestSettleIndex([p, q]) == if q.settleIndex > p.settleIndex then q.settleIndex else p.settleIndex
  {
    assert [p, q][..1] == [p];
    LatestOfOne(p);
  }

  /** The first task finds the first sale. */
  lemma FoundRun(a: SentOffer, b: SentOffer, nowMs: nat, retentionS: nat) returns (run: seq<Ledger>, actions: seq<Action>)
    requires TwoSales(a, b, nowMs)
    ensures IsRunBy(run, actions, retentionS)
    ensures run[|run| - 1] == Sold(a, b, nowMs, [], map[0 := Yielded(0, 1, PaymentFor(a, 1))])
  {
    run, actions := SalesRun(a, b, nowMs, retentionS);
    run, actions := ExtendRun(run, actions, retentionS, StartTask(0), Sold(a, b, nowMs, [], map[0 := Top]));
    run, actions := ExtendRun(run, actions, retentionS, ReadCursor(0), Sold(a, b, nowMs, [], map[0 := Streaming(0, 0)]));
    run, actions := ExtendRun(run, actions, retentionS, Deliver(0, 1),
                              Sold(a, b, nowMs, [], map[0 := Yielded(0, 1, PaymentFor(a, 1))]));
  }

  /** It records the sale and ends before marking it. */
  lemma UnmarkedRun(a: SentOffer, b: SentOffer, nowMs: nat, retentionS: nat) returns (run: seq<Ledger>, actions: seq<Action>)
    requires TwoSales(a, b, nowMs)
    ensures IsRunBy(run, actions, retentionS)
    ensures run[|run| - 1] == Sold(a, b, nowMs, [PaymentFor(a, 1)], map[])
  {
    var pa := PaymentFor(a, 1);
    run, actions := FoundRun(a, b, nowMs, retentionS);
    run, actions := ExtendRun(run, actions, retentionS, Insert(0),
                              Sold(a, b, nowMs, [pa], map[0 := Recorded(0, 1, a.paymentHash)]));
    run, actions := ExtendRun(run, actions, retentionS, EndTask(0), Sold(a, b, nowMs, [pa], map[]));
  }

  /** A second task, which starts after the first sale, finds the other one. */
  lemma SecondTaskRun(a: SentOffer, b: SentOffer, nowMs: nat, retentionS: nat)
    returns (run: seq<Ledger>, actions: seq<Action>)
    requires TwoSales(a, b, nowMs)
    ensures IsRunBy(run, actions, retentionS)
    ensures run[|run| - 1] == Sold(a, b, nowMs, [PaymentFor(a, 1)], map[1 := Yielded(1, 2, PaymentFor(b, 2))])
  {
    var pa := PaymentFor(a, 1);
    run, actions := UnmarkedRun(a, b, nowMs, retentionS);
    run, actions := ExtendRun(run, actions, retentionS, StartTask(1), Sold(a, b, nowMs, [pa], map[1 := Top]));
    LatestOfOne(pa);
    run, actions := ExtendRun(run, actions, retentionS, ReadCursor(1), Sold(a, b, nowMs, [pa], map[1 := Streaming(1, 1)]));
    run, actions := ExtendRun(run, actions, retentionS, Deliver(1, 2),
                              Sold(a, b, nowMs, [pa], map[1 := Yielded(1, 2, PaymentFor(b, 2))]));
  }

  /** The indices are cleared and a new task starts while the second still holds its payment. */
  lemma ClearedRun(a: SentOffer, b: SentOffer, nowMs: nat, retentionS: nat)
    returns (run: seq<Ledger>, actions: seq<Action>, j: nat)
    requires TwoSales(a, b, nowMs)
    ensures IsRunBy(run, actions, retentionS) && j + 2 == |actions| && actions[j..] == [ClearIndices, StartTask(2)]
    ensures run[|run| - 1]
         == Sold(a, b, nowMs, [PaymentFor(a, 0)], map[1 := Yielded(1, 2, PaymentFor(b, 2)), 2 := Top])
  {
    var pa, holding := PaymentFor(a, 0), Yielded(1, 2, PaymentFor(b, 2));
    run, actions := SecondTaskRun(a, b, nowMs, retentionS);
    j := |actions|;
    assert ClearSettleIndices([PaymentFor(a, 1)]) == [pa];
    run, actions := ExtendRun(run, actions, retentionS, ClearIndices, Sold(a, b, nowMs, [pa], map[1 := holding]));
    run, actions := ExtendRun(run, actions, retentionS, StartTask(2), Sold(a, b, nowMs, [pa], map[1 := holding, 2 := Top]));
  }

  /** The second task stores its payment before the new one has read its cursor. */
  lemma LateRecordRun(a: SentOffer, b: SentOffer, nowMs: nat, retentionS: nat)
    returns (run: seq<Ledger>, actions: seq<Action>, j: nat)
    requires TwoSales(a, b, nowMs)
    ensures IsRunBy(run, actions, retentionS) && j + 3 == |actions|
    ensures actions[j..] == [ClearIndices, StartTask(2), Insert(1)]
    ensures run[|run| - 1]
         == Sold(a, b, nowMs, [PaymentFor(a, 0), PaymentFor(b, 2)], map[1 := Recorded(1, 2, b.paymentHash), 2 := Top])
  {
    run, actions, j := ClearedRun(a, b, nowMs, retentionS);
    run, actions := ExtendRun(run, actions, retentionS, Insert(1),
                              Sold(a, b, nowMs, [PaymentFor(a, 0), PaymentFor(b, 2)],
                                   map[1 := Recorded(1, 2, b.paymentHash), 2 := Top]));
  }

  /**
   The race is real. For any two sales there is a run in which the old task stores its payment after the clear:
   the new task starts above zero, its stream is drained at once, and a recorded sale stays unmarked.
   */
  lemma ReprocessingMissesUnmarkedOffer(a: SentOffer, b: SentOffer, nowMs: nat, retentionS: nat)
    returns (run: seq<Ledger>, actions: seq<Action>, j: nat)
    requires TwoSales(a, b, nowMs)
    ensures IsRunBy(run, actions, retentionS) && j + 4 == |actions|
    ensures actions[j..] == [ClearIndices, StartTask(2), Insert(1), ReadCursor(2)]
    ensures var s := run[|run| - 1];
            && 2 in s.tasks && Drained(s, s.tasks[2]) && s.tasks[2].start > 0
            && a.paymentHash in s.offers && HasPayment(s.received, a.paymentHash) && !s.offers[a.paymentHash].paid
  {
    var pa, pb, done := PaymentFor(a, 0), PaymentFor(b, 2), Recorded(1, 2, b.paymentHash);
    run, actions, j := LateRecordRun(a, b, nowMs, retentionS);
    LatestOfTwo(pa, pb);
    run, actions := ExtendRun(run, actions, retentionS, ReadCursor(2),
                              Sold(a, b, nowMs, [pa, pb], map[1 := done, 2 := Streaming(2, 2)]));
    assert run[|run| - 1].received[0].paymentHash == a.paymentHash;
  }
}
