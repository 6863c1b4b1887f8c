/**
 The node's tables, and the statements that change them (`squeaknode/db/squeak_db.py`).

 Every statement is one atomic write. The database accepts `writesLeft` more of them; after that each
 write raises and changes nothing. Since `writesLeft` is arbitrary, what a caller promises when it raises
 is what holds if the node crashes between any two of its writes.

 A table with a unique column is a map keyed by that column, save `received_payment` and `profile`.
 */
module SqueakDatabase {
  import opened Basics
  import opened SqueakCore
  import opened PaymentTables

  datatype SqueakRow = SqueakRow(
    squeak: Squeak,
    createdMs: nat,
    secretKey: Option<Bytes>,
    content: Option<string>,
    likedMs: Option<nat>)

  datatype Profile = Profile(publicKey: Bytes, privateKey: Option<Bytes>, following: bool)

  datatype ReceivedOfferRow = ReceivedOfferRow(offer: ReceivedOffer, createdMs: nat)

  function InvoiceExpiryMs(o: ReceivedOffer): int {
    (o.invoiceTimestamp + o.invoiceExpiry) * 1000
  }

  /** Neither paid nor expired: what `get_received_offers` selects. */
  predicate IsLive(row: ReceivedOfferRow, nowMs: nat) {
    !row.offer.paid && nowMs < InvoiceExpiryMs(row.offer)
  }

  /** The query divides the creation time to whole seconds before it adds the retention. */
  predicate IsDeletable(row: ReceivedOfferRow, nowMs: nat, retentionS: nat) {
    InvoiceExpiryMs(row.offer) <= nowMs || (row.createdMs / 1000 + retentionS) * 1000 <= nowMs
  }

  function DeleteExpiredReceivedOffers(offers: map<Hash, ReceivedOfferRow>, nowMs: nat, retentionS: nat): map<Hash, ReceivedOfferRow> {
    map h | h in offers && !IsDeletable(offers[h], nowMs, retentionS) :: offers[h]
  }

  function SetReceivedOfferPaid(offers: map<Hash, ReceivedOfferRow>, h: Hash): (r: map<Hash, ReceivedOfferRow>)
    ensures r.Keys == offers.Keys
    ensures forall g :: g in offers ==>
              r[g] == if g == h then offers[g].(offer := offers[g].offer.(paid := true)) else offers[g]
  {
    if h in offers then offers[h := offers[h].(offer := offers[h].offer.(paid := true))] else offers
  }

  class SqueakDb {
    var nowMs: nat
    var writesLeft: nat
    var squeaks: map<Hash, SqueakRow>
    var profiles: seq<Profile>
    var receivedOffers: map<Hash, ReceivedOfferRow>
    var sentPayments: map<Hash, SentPayment>
    var sentOffers: map<Hash, SentOffer>
    var receivedPayments: seq<ReceivedPayment>

    constructor (nowMs: nat, writesLeft: nat)
      ensures this.nowMs == nowMs && this.writesLeft == writesLeft
      ensures squeaks == map[] && profiles == [] && receivedOffers == map[] && sentPayments == map[]
      ensures sentOffers == map[] && receivedPayments == []
    {
      this.nowMs, this.writesLeft := nowMs, writesLeft;
      squeaks, profiles, receivedOffers, sentPayments := map[], [], map[], map[];
      sentOffers, receivedPayments := map[], [];
    }

    /** Whether another write is accepted; every statement below starts by asking. */
    method BeginWrite() returns (ok: bool)
      modifies this`writesLeft
      ensures ok == (old(writesLeft) > 0)
      ensures writesLeft == if ok then old(writesLeft) - 1 else old(writesLeft)
    {
      ok := writesLeft > 0;
      if ok {
        writesLeft := writesLeft - 1;
      }
    }

    /** Returns false, and changes nothing, when the squeak is already stored. */
    method InsertSqueak(squeak: Squeak) returns (r: Outcome<bool>)
      modifies this`writesLeft, this`squeaks
      ensures r.Raised? <==> old(writesLeft) == 0
      ensures writesLeft == if old(writesLeft) > 0 then old(writesLeft) - 1 else 0
      ensures r.Returned? ==> r.value == (squeak.hash !in old(squeaks))
      ensures squeaks == if r == Returned(true)
                         then old(squeaks)[squeak.hash := SqueakRow(squeak, nowMs, None, None, None)] else old(squeaks)
    {
      var ok := BeginWrite();
      if !ok {
        return Raised;
      }
      if squeak.hash in squeaks {
        return Returned(false);
      }
      squeaks := squeaks[squeak.hash := SqueakRow(squeak, nowMs, None, None, None)];
      return Returned(true);
    }

    method SetSqueakSecretKey(h: Hash, key: Bytes) returns (r: Outcome<()>)
      modifies this`writesLeft, this`squeaks
      ensures r.Raised? <==> old(writesLeft) == 0
      ensures writesLeft == if old(writesLeft) > 0 then old(writesLeft) - 1 else 0
      ensures squeaks == if r.Returned? && h in old(squeaks)
                         then old(squeaks)[h := old(squeaks)[h].(secretKey := Some(key))] else old(squeaks)
    {
      var ok := BeginWrite();
      if !ok {
        return Raised;
      }
      if h in squeaks {
        squeaks := squeaks[h := squeaks[h].(secretKey := Some(key))];
      }
      return Returned(());
    }

    method SetSqueakDecryptedContent(h: Hash, content: string) returns (r: Outcome<()>)
      modifies this`writesLeft, this`squeaks
      ensures r.Raised? <==> old(writesLeft) == 0
      ensures writesLeft == if old(writesLeft) > 0 then old(writesLeft) - 1 else 0
      ensures squeaks == if r.Returned? && h in old(squeaks)
                         then old(squeaks)[h := old(squeaks)[h].(content := Some(content))] else old(squeaks)
    {
      var ok := BeginWrite();
      if !ok {
        return Raised;
      }
      if h in squeaks {
        squeaks := squeaks[h := squeaks[h].(content := Some(content))];
      }
      return Returned(());
    }

    method DeleteSqueak(h: Hash) returns (r: Outcome<()>)
      modifies this`writesLeft, this`squeaks
      ensures r.Raised? <==> old(writesLeft) == 0
      ensures writesLeft == if old(writesLeft) > 0 then old(writesLeft) - 1 else 0
      ensures squeaks == if r.Returned? then old(squeaks) - {h} else old(squeaks)
    {
      var ok := BeginWrite();
      if !ok {
        return Raised;
      }
      squeaks := squeaks - {h};
      return Returned(());
    }

    /** Returns false, and changes nothing, when an offer with this payment hash is already stored. */
    method InsertReceivedOffer(offer: ReceivedOffer) returns (r: Outcome<bool>)
      modifies this`writesLeft, this`receivedOffers
      ensures r.Raised? <==> old(writesLeft) == 0
      ensures writesLeft == if old(writesLeft) > 0 then old(writesLeft) - 1 else 0
      ensures r.Returned? ==> r.value == (offer.paymentHash !in old(receivedOffers))
      ensures receivedOffers == if r == Returned(true)
                                then old(receivedOffers)[offer.paymentHash := ReceivedOfferRow(offer.(paid := false), nowMs)]
                                else old(receivedOffers)
    {
      var ok := BeginWrite();
      if !ok {
        return Raised;
      }
      if offer.paymentHash in receivedOffers {
        return Returned(false);
      }
      receivedOffers := receivedOffers[offer.paymentHash := ReceivedOfferRow(offer.(paid := false), nowMs)];
      return Returned(true);
    }

    method MarkReceivedOfferPaid(h: Hash) returns (r: Outcome<()>)
      modifies this`writesLeft, this`receivedOffers
      ensures r.Raised? <==> old(writesLeft) == 0
      ensures writesLeft == if old(writesLeft) > 0 then old(writesLeft) - 1 else 0
      ensures receivedOffers == if r.Returned? then SetReceivedOfferPaid(old(receivedOffers), h) else old(receivedOffers)
    {
      var ok := BeginWrite();
      if !ok {
        return Raised;
      }
      receivedOffers := SetReceivedOfferPaid(receivedOffers, h);
      return Returned(());
    }

    method DeleteOldReceivedOffers(retentionS: nat) returns (r: Outcome<nat>)
      modifies this`writesLeft, this`receivedOffers
      ensures r.Raised? <==> old(writesLeft) == 0
      ensures writesLeft == if old(writesLeft) > 0 then old(writesLeft) - 1 else 0
      ensures receivedOffers == if r.Returned? then DeleteExpiredReceivedOffers(old(receivedOffers), nowMs, retentionS)
                                else old(receivedOffers)
      ensures r.Returned? ==> r.value == |old(receivedOffers)| - |receivedOffers|
      ensures r.Returned? ==>
                forall h :: h in receivedOffers <==>
                  && h in old(receivedOffers)
                  && var row := old(receivedOffers)[h];
                     && nowMs < (row.offer.invoiceTimestamp + row.offer.invoiceExpiry) * 1000
                     && nowMs < (row.createdMs / 1000 + retentionS) * 1000
      ensures forall h :: h in receivedOffers ==> receivedOffers[h] == old(receivedOffers)[h]
    {
      var ok := BeginWrite();
      if !ok {
        return Raised;
      }
      var left := DeleteExpiredReceivedOffers(receivedOffers, nowMs, retentionS);
      SmallerTable(receivedOffers, left);
      var deleted := |receivedOffers| - |left|;
      receivedOffers := left;
      return Returned(deleted);
    }

    /** A second payment with the same payment hash violates the unique column, and raises. */
    method InsertSentPayment(payment: SentPayment) returns (r: Outcome<()>)
      modifies this`writesLeft, this`sentPayments
      ensures r.Raised? <==> old(writesLeft) == 0 || payment.paymentHash in old(sentPayments)
      ensures writesLeft == if old(writesLeft) > 0 then old(writesLeft) - 1 else 0
      ensures sentPayments == if r.Returned? then old(sentPayments)[payment.paymentHash := payment] else old(sentPayments)
    {
      var ok := BeginWrite();
      if !ok || payment.paymentHash in sentPayments {
        return Raised;
      }
      sentPayments := sentPayments[payment.paymentHash := payment];
      return Returned(());
    }

    /** A second offer with the same payment hash violates the unique column, and raises. */
    method InsertSentOffer(offer: SentOffer) returns (r: Outcome<()>)
      modifies this`writesLeft, this`sentOffers
      ensures r.Raised? <==> old(writesLeft) == 0 || offer.paymentHash in old(sentOffers)
      ensures writesLeft == if old(writesLeft) > 0 then old(writesLeft) - 1 else 0
      ensures sentOffers == if r.Returned? then old(sentOffers)[offer.paymentHash := offer.(paid := false)] else old(sentOffers)
    {
      var ok := BeginWrite();
      if !ok || offer.paymentHash in sentOffers {
        return Raised;
      }
      sentOffers := sentOffers[offer.paymentHash := offer.(paid := false)];
      return Returned(());
    }

    method MarkSentOfferPaid(h: Hash) returns (r: Outcome<()>)
      modifies this`writesLeft, this`sentOffers
      ensures r.Raised? <==> old(writesLeft) == 0
      ensures writesLeft == if old(writesLeft) > 0 then old(writesLeft) - 1 else 0
      ensures sentOffers == if r.Returned? then SetSentOfferPaid(old(sentOffers), h, true) else old(sentOffers)
    {
      var ok := BeginWrite();
      if !ok {
        return Raised;
      }
      sentOffers := SetSentOfferPaid(sentOffers, h, true);
      return Returned(());
    }

    /** Returns false, and changes nothing, when the payment is already recorded. */
    method SaveReceivedPayment(payment: ReceivedPayment) returns (r: Outcome<bool>)
      modifies this`writesLeft, this`receivedPayments
      ensures r.Raised? <==> old(writesLeft) == 0
      ensures writesLeft == if old(writesLeft) > 0 then old(writesLeft) - 1 else 0
      ensures r.Returned? ==> r.value == !HasPayment(old(receivedPayments), payment.paymentHash)
      ensures receivedPayments == if r.Returned? then InsertReceivedPayment(old(receivedPayments), payment)
                                  else old(receivedPayments)
    {
      var ok := BeginWrite();
      if !ok {
        return Raised;
      }
      var isNew := !HasPayment(receivedPayments, payment.paymentHash);
      receivedPayments := InsertReceivedPayment(receivedPayments, payment);
      return Returned(isNew);
    }

    method ClearReceivedPaymentSettleIndices() returns (r: Outcome<()>)
      modifies this`writesLeft, this`receivedPayments
      ensures r.Raised? <==> old(writesLeft) == 0
      ensures writesLeft == if old(writesLeft) > 0 then old(writesLeft) - 1 else 0
      ensures receivedPayments == if r.Returned? then ClearSettleIndices(old(receivedPayments)) else old(receivedPayments)
    {
      var ok := BeginWrite();
      if !ok {
        return Raised;
      }
      receivedPayments := ClearSettleIndices(receivedPayments);
      return Returned(());
    }
  }

  lemma SmallerTable<T>(was: map<Hash, T>, left: map<Hash, T>)
    requires left.Keys <= was.Keys
    ensures |left| <= |was|
  {
    assert was.Keys == left.Keys + (was.Keys - left.Keys);
    assert |left.Keys| == |left| && |was.Keys| == |was|;
  }
}
