/** Payment summaries, and why they agree with the payment pages. */
module Summaries {
  import opened Basics
  import opened Paging
  import opened ScreenLists
  import opened Totals

  /** The columns of a sent or received payment that summaries and pages use. Rows are keyed by payment hash. */
  datatype Payment = Payment(squeakHash: Hash, priceMsat: int, createdMs: int)

  /** The count of the rows, and the sum of their prices, which is null when there is none. */
  datatype Summary = Summary(count: nat, totalMsat: Option<int>)

  function Prices(table: map<Hash, Payment>): map<Hash, int> {
    map h | h in table :: table[h].priceMsat
  }

  ghost function Summarize(hashes: set<Hash>, table: map<Hash, Payment>): Summary
    requires hashes <= table.Keys
  {
    Summary(|hashes|, if hashes == {} then None else Some(Total(hashes, Prices(table))))
  }

  function ForSqueak(table: map<Hash, Payment>, squeakHash: Hash): set<Hash> {
    set h | h in table && table[h].squeakHash == squeakHash
  }

  ghost function PaymentSummary(table: map<Hash, Payment>): Summary {
    Summarize(table.Keys, table)
  }

  ghost function PaymentSummaryForSqueak(table: map<Hash, Payment>, squeakHash: Hash): Summary {
    Summarize(ForSqueak(table, squeakHash), table)
  }

  // ----- Per-squeak summaries add up -----

  function Amount(summary: Summary): int {
    if summary.totalMsat.Some? then summary.totalMsat.value else 0
  }

  /** The counts of the per-squeak summaries of some squeaks, added up. */
  ghost function AddedCount(table: map<Hash, Payment>, squeaks: seq<Hash>): int {
    if squeaks == [] then 0
    else PaymentSummaryForSqueak(table, squeaks[0]).count + AddedCount(table, squeaks[1..])
  }

  /** The amounts of the per-squeak summaries of some squeaks, added up. */
  ghost function AddedAmount(table: map<Hash, Payment>, squeaks: seq<Hash>): int {
    if squeaks == [] then 0
    else Amount(PaymentSummaryForSqueak(table, squeaks[0])) + AddedAmount(table, squeaks[1..])
  }

  function ForSqueaks(table: map<Hash, Payment>, squeaks: seq<Hash>): set<Hash> {
    set h | h in table && table[h].squeakHash in squeaks
  }

  lemma FirstSqueakApart(table: map<Hash, Payment>, squeaks: seq<Hash>)
    requires NoRepeats(squeaks) && squeaks != []
    ensures NoRepeats(squeaks[1..])
    ensures |ForSqueaks(table, squeaks)|
         == PaymentSummaryForSqueak(table, squeaks[0]).count + |ForSqueaks(table, squeaks[1..])|
    ensures Total(ForSqueaks(table, squeaks), Prices(table))
         == Amount(PaymentSummaryForSqueak(table, squeaks[0])) + Total(ForSqueaks(table, squeaks[1..]), Prices(table))
  {
    var p, q := ForSqueak(table, squeaks[0]), ForSqueaks(table, squeaks[1..]);
    assert squeaks == [squeaks[0]] + squeaks[1..];
    assert squeaks[0] !in squeaks[1..];
    assert ForSqueaks(table, squeaks) == p + q;
    TotalOfUnion(p, q, Prices(table));
  }

  lemma {:induction false} SqueaksAddUp(table: map<Hash, Payment>, squeaks: seq<Hash>)
    requires NoRepeats(squeaks)
    ensures AddedCount(table, squeaks) == |ForSqueaks(table, squeaks)|
    ensures AddedAmount(table, squeaks) == Total(ForSqueaks(table, squeaks), Prices(table))
  {
    if squeaks == [] {
      assert ForSqueaks(table, squeaks) == {};
    } else {
      SqueaksAddUp(table, squeaks[1..]);
      FirstSqueakApart(table, squeaks);
    }
  }

  /** The unfiltered summary is the per-squeak summaries added up over the distinct squeak hashes. */
  lemma SummaryIsSumOverSqueaks(table: map<Hash, Payment>, squeaks: seq<Hash>)
    requires NoRepeats(squeaks)
    requires forall h :: h in table ==> table[h].squeakHash in squeaks
    ensures AddedCount(table, squeaks) == PaymentSummary(table).count
    ensures AddedAmount(table, squeaks) == Amount(PaymentSummary(table))
  {
    assert ForSqueaks(table, squeaks) == table.Keys;
    SqueaksAddUp(table, squeaks);
  }

  // ----- Pages add up -----

  function SumOfPrices(list: seq<Entry<Payment>>): int {
    if list == [] then 0 else list[0].value.priceMsat + SumOfPrices(list[1..])
  }

  lemma {:induction false} ListTotal(rank: Ranking, table: map<Hash, Payment>, list: seq<Entry<Payment>>, hashes: set<Hash>)
    requires hashes <= table.Keys
    requires IsDescending(rank, Hashes(list))
    requires ShowsTable(list, table)
    requires forall h :: h in Hashes(list) <==> h in hashes
    ensures SumOfPrices(list) == Total(hashes, Prices(table))
  {
    if list == [] {
      assert hashes == {};
    } else {
      var first := list[0].hash;
      assert Hashes(list)[1..] == Hashes(list[1..]) && Hashes(list)[0] == first;
      forall h ensures h in Hashes(list[1..]) <==> h in hashes - {first} {
        NotInTail(rank, Hashes(list), h);
      }
      ListTotal(rank, table, list[1..], hashes - {first});
      TotalWithout(hashes, Prices(table), first);
    }
  }

  /** Created times of the rows, as the pages sort by them. */
  ghost predicate Stamps(created: Hash -> int, table: map<Hash, Payment>) {
    forall h :: h in table ==> |h| == 32 && created(h) == table[h].createdMs
  }

  predicate IsStampedBefore(h: Hash, createdMs: int, nowMs: int) {
    createdMs < nowMs || (createdMs == nowMs && h != MaxHash())
  }

  /** Enough pages show every row below the first cursor, and sum to the total of those rows. */
  lemma EnoughPages(rank: Ranking, table: map<Hash, Payment>, first: Key, limit: nat, k: nat)
    requires IsRanking(rank)
    requires k * limit >= |table|
    ensures var list := Fetched(rank, table, first, limit, k);
            |list| == |Below(rank, table, first)| && SumOfPrices(list) == Total(Below(rank, table, first), Prices(table))
  {
    var list := Fetched(rank, table, first, limit, k);
    var seen := Below(rank, table, first);
    EnoughPagesShowAll(rank, table, first, limit, k);
    PagesShowTheTable(rank, table, first, limit, k);
    ListTotal(rank, table, list, seen);
  }

  /** The first request sees the whole table exactly when no row is stamped later than it. */
  lemma AllAreSeen(created: Hash -> int, table: map<Hash, Payment>, nowMs: int)
    requires Stamps(created, table)
    ensures Below(RankBy(PaymentPosition(created)), table, FirstPaymentCursor(nowMs)) <= table.Keys
    ensures Below(RankBy(PaymentPosition(created)), table, FirstPaymentCursor(nowMs)) == table.Keys
       <==> forall h :: h in table ==> IsStampedBefore(h, table[h].createdMs, nowMs)
  {
    var seen := Below(RankBy(PaymentPosition(created)), table, FirstPaymentCursor(nowMs));
    forall h | h in table ensures h in seen <==> IsStampedBefore(h, table[h].createdMs, nowMs) {
      BelowFirstPaymentCursor(created, nowMs, h);
    }
  }

  /**
   Enough pages of a fixed table, put together, have the count and sum of the
   summary exactly when no row is stamped later than the first request. (A row
   stamped at that very millisecond is missed if its hash is the greatest.)
   */
  lemma PagesAgreeWithSummary(created: Hash -> int, table: map<Hash, Payment>, nowMs: int, limit: nat, k: nat)
    requires Stamps(created, table)
    requires k * limit >= |table|
    ensures IsRanking(RankBy(PaymentPosition(created)))
    ensures var list := Fetched(RankBy(PaymentPosition(created)), table, FirstPaymentCursor(nowMs), limit, k);
            && (|list| == PaymentSummary(table).count <==>
                  forall h :: h in table ==> IsStampedBefore(h, table[h].createdMs, nowMs))
            && (|list| == PaymentSummary(table).count ==> SumOfPrices(list) == Amount(PaymentSummary(table)))
            && (PaymentSummary(table).totalMsat == None <==> table == map[])
  {
    var rank := RankBy(PaymentPosition(created));
    PositionThenHashIsRanking(PaymentPosition(created), 1);
    EnoughPages(rank, table, FirstPaymentCursor(nowMs), limit, k);
    AllAreSeen(created, table, nowMs);
    SubsetSize(Below(rank, table, FirstPaymentCursor(nowMs)), table.Keys);
  }

  // ----- The lists on screen -----

  /** The part of the web page's state that holds payments, and its reducers. */
  class PaymentsSlice {
    var sentPaymentsAreLoading: bool
    var sentPayments: seq<Entry<Payment>>
    var receivedPaymentsAreLoading: bool
    var receivedPayments: seq<Entry<Payment>>

    constructor ()
      ensures !sentPaymentsAreLoading && sentPayments == []
      ensures !receivedPaymentsAreLoading && receivedPayments == []
    {
      sentPaymentsAreLoading, sentPayments := false, [];
      receivedPaymentsAreLoading, receivedPayments := false, [];
    }

    function Received(): Screen<Payment>
      reads this
    {
      Screen(receivedPayments, receivedPaymentsAreLoading)
    }

    function Sent(): Screen<Payment>
      reads this
    {
      Screen(sentPayments, sentPaymentsAreLoading)
    }

    method ClearReceivedPayments()
      modifies `receivedPayments, `receivedPaymentsAreLoading
      ensures Received() == Screen([], false)
      ensures forall rank: Ranking, first :: NextCursor(rank, receivedPayments, first) == first
    {
      receivedPaymentsAreLoading, receivedPayments := false, [];
    }

    method FetchReceivedPaymentsPending()
      modifies `receivedPaymentsAreLoading
      ensures Received() == Pending(old(Received()))
    {
      receivedPaymentsAreLoading := true;
    }

    /** The page of received payments is mounted. */
    method OpenReceivedPayments()
      modifies `receivedPayments, `receivedPaymentsAreLoading
      ensures Received() == Opened(old(Received()))
      ensures forall rank: Ranking, first :: NextCursor(rank, receivedPayments, first) == first
    {
      ClearReceivedPayments();
      FetchReceivedPaymentsPending();
    }

    method FetchReceivedPaymentsFulfilled(page: seq<Entry<Payment>>)
      modifies `receivedPayments, `receivedPaymentsAreLoading
      ensures Received() == Fulfilled(old(Received()), page)
      ensures SumOfPrices(receivedPayments) == SumOfPrices(old(receivedPayments)) + SumOfPrices(page)
    {
      SumOfConcat(receivedPayments, page);
      receivedPayments := receivedPayments + page;
      receivedPaymentsAreLoading := false;
    }

    method ClearSentPayments()
      modifies `sentPayments, `sentPaymentsAreLoading
      ensures Sent() == Screen([], false)
      ensures forall rank: Ranking, first :: NextCursor(rank, sentPayments, first) == first
    {
      sentPaymentsAreLoading, sentPayments := false, [];
    }

    method FetchSentPaymentsPending()
      modifies `sentPaymentsAreLoading
      ensures Sent() == Pending(old(Sent()))
    {
      sentPaymentsAreLoading := true;
    }

    /** The page of sent payments is mounted. */
    method OpenSentPayments()
      modifies `sentPayments, `sentPaymentsAreLoading
      ensures Sent() == Opened(old(Sent()))
      ensures forall rank: Ranking, first :: NextCursor(rank, sentPayments, first) == first
    {
      ClearSentPayments();
      FetchSentPaymentsPending();
    }

    method FetchSentPaymentsFulfilled(page: seq<Entry<Payment>>)
      modifies `sentPayments, `sentPaymentsAreLoading
      ensures Sent() == Fulfilled(old(Sent()), page)
      ensures SumOfPrices(sentPayments) == SumOfPrices(old(sentPayments)) + SumOfPrices(page)
    {
      SumOfConcat(sentPayments, page);
      sentPayments := sentPayments + page;
      sentPaymentsAreLoading := false;
    }
  }

  lemma {:induction false} SumOfConcat(p: seq<Entry<Payment>>, q: seq<Entry<Payment>>)
    ensures SumOfPrices(p + q) == SumOfPrices(p) + SumOfPrices(q)
  {
    if p == [] {
      assert p + q == q;
    } else {
      assert (p + q)[1..] == p[1..] + q;
      SumOfConcat(p[1..], q);
    }
  }
}
