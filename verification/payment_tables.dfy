/**
 The seller's payment tables and what the statements of `squeaknode/db/squeak_db.py` do to them.

 `sent_offer` is keyed by its unique column `payment_hash`. `received_payment` keeps the order in
 which its rows were inserted, and its unique column is `UniquePaymentHashes`.
 */
module PaymentTables {
  import opened Basics
  import opened SqueakCore
  import opened Totals

  datatype ReceivedPayment = ReceivedPayment(
    squeakHash: Hash,
    paymentHash: Hash,
    priceMsat: int,
    settleIndex: nat,
    peerAddress: PeerAddress)

  predicate HasPayment(received: seq<ReceivedPayment>, h: Hash) {
    exists k :: 0 <= k < |received| && received[k].paymentHash == h
  }

  ghost predicate UniquePaymentHashes(received: seq<ReceivedPayment>) {
    forall j, k :: 0 <= j < k < |received| ==> received[j].paymentHash != received[k].paymentHash
  }

  /** Number of rows carrying a payment hash. */
  function CountPayments(received: seq<ReceivedPayment>, h: Hash): (n: nat)
    ensures n > 0 <==> HasPayment(received, h)
  {
    if received == [] then
      0
    else
      assert forall k :: 0 <= k < |received| - 1 ==> received[1..][k] == received[k + 1];
      CountPayments(received[1..], h) + if received[0].paymentHash == h then 1 else 0
  }

  lemma {:induction false} UniqueCount(received: seq<ReceivedPayment>, h: Hash)
    requires UniquePaymentHashes(received)
    ensures CountPayments(received, h) <= 1
  {
    if received != [] {
      UniqueCount(received[1..], h);
    }
  }

  /** The insert is refused, without an error, when the payment hash is already there. */
  function InsertReceivedPayment(received: seq<ReceivedPayment>, p: ReceivedPayment): (r: seq<ReceivedPayment>)
    ensures HasPayment(r, p.paymentHash)
    ensures forall h :: HasPayment(r, h) <==> HasPayment(received, h) || h == p.paymentHash
    ensures UniquePaymentHashes(received) ==> UniquePaymentHashes(r)
    ensures received <= r
  {
    if HasPayment(received, p.paymentHash) then
      received
    else
      var r := received + [p];
      assert r[|received|] == p;
      assert forall k :: 0 <= k < |received| ==> r[k] == received[k];
      assert forall h :: HasPayment(received, h) ==> HasPayment(r, h) by {
        forall h | HasPayment(received, h) ensures HasPayment(r, h) {
          var k :| 0 <= k < |received| && received[k].paymentHash == h;
          assert r[k].paymentHash == h;
        }
      }
      r
  }

  /** The largest settle index stored, or 0 for an empty table: where a subscription starts. */
  function LatestSettleIndex(received: seq<ReceivedPayment>): (latest: nat)
    ensures forall k :: 0 <= k < |received| ==> received[k].settleIndex <= latest
    ensures latest == 0 || exists k :: 0 <= k < |received| && received[k].settleIndex == latest
  {
    if received == [] then
      0
    else
      var n := |received| - 1;
      var rest := LatestSettleIndex(received[..n]);
      assert forall k :: 0 <= k < n ==> received[..n][k] == received[k];
      if received[n].settleIndex > rest then received[n].settleIndex else rest
  }

  function ClearSettleIndices(received: seq<ReceivedPayment>): (r: seq<ReceivedPayment>)
    ensures |r| == |received|
    ensures forall k :: 0 <= k < |r| ==> r[k] == received[k].(settleIndex := 0)
    ensures forall h :: HasPayment(r, h) <==> HasPayment(received, h)
    ensures LatestSettleIndex(r) == 0
  {
    var r := seq(|received|, k requires 0 <= k < |received| => received[k].(settleIndex := 0));
    assert forall h :: HasPayment(r, h) <==> HasPayment(received, h) by {
      forall h ensures HasPayment(r, h) <==> HasPayment(received, h) {
        if k :| 0 <= k < |received| && received[k].paymentHash == h {
          assert r[k].paymentHash == h;
        }
      }
    }
    r
  }

  // ----- Offers -----
  function SetSentOfferPaid(offers: map<Hash, SentOffer>, h: Hash, paid: bool): (r: map<Hash, SentOffer>)
    ensures r.Keys == offers.Keys
    ensures h in offers ==> r[h] == offers[h].(paid := paid)
    ensures forall g :: g in offers && g != h ==> r[g] == offers[g]
  {
    if h in offers then offers[h := offers[h].(paid := paid)] else offers
  }

  function ExpiryMs(o: SentOffer): int {
    (o.invoiceTime + o.invoiceExpiry) * 1000
  }

  /** An offer outlives the expiry of its invoice by the retention interval. */
  function DeadlineMs(o: SentOffer, retentionS: nat): int {
    (o.invoiceTime + o.invoiceExpiry + retentionS) * 1000
  }

  function DeleteExpiredSentOffers(offers: map<Hash, SentOffer>, nowMs: nat, retentionS: nat): (r: map<Hash, SentOffer>)
    ensures forall h :: h in r <==>
              h in offers && nowMs < (offers[h].invoiceTime + offers[h].invoiceExpiry + retentionS) * 1000
    ensures forall h :: h in r ==> r[h] == offers[h]
  {
    map h | h in offers && nowMs < DeadlineMs(offers[h], retentionS) :: offers[h]
  }

  /** What the payment stream yields for a settled invoice whose offer is stored. */
  function PaymentFor(o: SentOffer, settleIndex: nat): ReceivedPayment {
    ReceivedPayment(o.squeakHash, o.paymentHash, o.priceMsat, settleIndex, o.peerAddress)
  }

  // ----- Totals -----
  function SumPrices(received: seq<ReceivedPayment>): int {
    if received == [] then 0 else SumPrices(received[..|received| - 1]) + received[|received| - 1].priceMsat
  }

  function PaymentHashes(received: seq<ReceivedPayment>): (hs: set<Hash>)
    ensures forall h :: h in hs <==> HasPayment(received, h)
  {
    set k | 0 <= k < |received| :: received[k].paymentHash
  }

  function OfferPrices(offers: map<Hash, SentOffer>): map<Hash, int> {
    map h | h in offers :: offers[h].priceMsat
  }

  /** The sum of the prices of some offers. */
  ghost function TotalPrice(hs: set<Hash>, offers: map<Hash, SentOffer>): int
    requires hs <= offers.Keys
  {
    Total(hs, OfferPrices(offers))
  }

  /** A table without repeats, whose rows carry the prices of the offers, sums to the total of its hashes. */
  lemma {:induction false} SumIsTotal(received: seq<ReceivedPayment>, offers: map<Hash, SentOffer>)
    requires UniquePaymentHashes(received)
    requires forall k :: 0 <= k < |received| ==>
               received[k].paymentHash in offers && received[k].priceMsat == offers[received[k].paymentHash].priceMsat
    ensures PaymentHashes(received) <= offers.Keys
    ensures SumPrices(received) == TotalPrice(PaymentHashes(received), offers)
  {
    if received != [] {
      var n := |received| - 1;
      var h := received[n].paymentHash;
      SumIsTotal(received[..n], offers);
      assert forall k :: 0 <= k < n ==> received[..n][k] == received[k];
      assert PaymentHashes(received) - {h} == PaymentHashes(received[..n]);
      TotalWithout(PaymentHashes(received), OfferPrices(offers), h);
    }
  }
}
