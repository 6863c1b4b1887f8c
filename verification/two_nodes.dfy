/**
 An honest seller and an honest buyer, with a crash possible between any two writes on either side.

 The seller is a payment ledger whose offers are made from the keys it holds. The buyer receives those
 offers, pays them, and records each purchase in three writes: the payment row, the paid flag of the
 offer, the key of the squeak (`squeaknode/node/squeak_store.py`, `pay_offer`). Other buyers may pay the
 seller as well. The buyer stores and deletes squeaks meanwhile, and peers may give it keys. A crash stands for any
 error that ends a task.
 */
module TwoNodes {
  import opened Basics
  import opened SecretKeys
  import opened SqueakCore
  import opened PaymentTables
  import opened PaymentLedger
  import opened PaymentRuns
  import opened Totals

  /** The squeaks on sale and the seller's keys to them; these do not change. */
  datatype Shop = Shop(primitives: Primitives, squeaks: map<Hash, Squeak>, keys: map<Hash, Bytes>, retentionS: nat)

  ghost predicate ValidShop(shop: Shop) {
    && Sound(shop.primitives) && shop.primitives.group.keyLength > 0
    && shop.keys.Keys <= shop.squeaks.Keys
    && forall h :: h in shop.keys ==>
         && shop.squeaks[h].hash == h
         && IsKey(shop.primitives.group, shop.keys[h])
         && AcceptsKey(shop.primitives, shop.squeaks[h], shop.keys[h])
  }

  /** How far the purchase under way has come. */
  datatype PurchasePc =
    | Paid(offer: ReceivedOffer, preimage: Bytes)
    | Stored(payment: SentPayment)
    | Marked(payment: SentPayment)

  /** The keys are those of stored squeaks. */
  datatype Buyer = Buyer(
    squeaks: set<Hash>,
    offers: map<Hash, ReceivedOffer>,
    payments: map<Hash, SentPayment>,
    keys: map<Hash, Bytes>,
    tasks: map<nat, PurchasePc>)

  datatype System = System(ledger: Ledger, buyer: Buyer)

  datatype Event =
    | Seller(action: Action)
    | Receive(paymentHash: Hash, payReq: PayReq, seller: PeerAddress, address: Option<LightningAddress>)
    | Pay(t: nat, paymentHash: Hash, index: nat)
    | StorePayment(t: nat)
    | MarkOffer(t: nat)
    | SaveKey(t: nat)
    | Crash(t: nat)
    | Forget(paymentHash: Hash)
    | Download(squeakHash: Hash)
    | Delete(squeakHash: Hash)
    | FreeKey(squeakHash: Hash, key: Bytes)

  ghost predicate HonestOffer(shop: Shop, o: SentOffer)
    requires shop.primitives.group.order > 0
  {
    && o.squeakHash in shop.keys && o.priceMsat > 0
    && o.paymentHash == shop.primitives.hashOf(OfferPreimage(shop.primitives, shop.keys[o.squeakHash], o.nonce))
  }

  function LedgerAction(e: Event): Action {
    match e
    case Seller(a) => a
    case Pay(_, h, i) => Settle(i, h)
    case _ => Tick(0)
  }

  ghost predicate Possible(shop: Shop, s: System, e: Event)
    requires shop.primitives.group.order > 0
  {
    Enabled(s.ledger, LedgerAction(e)) && BuyerCan(shop, s, e)
  }

  ghost predicate BuyerCan(shop: Shop, s: System, e: Event)
    requires shop.primitives.group.order > 0
  {
    match e
    case Seller(a) => a.SaveOffer? ==> HonestOffer(shop, a.offer)
    case Receive(h, payReq, _, _) =>
      h in s.ledger.saved && payReq.paymentHash == h && payReq.numMsat == s.ledger.saved[h].priceMsat
      && s.ledger.saved[h].squeakHash in shop.squeaks
    case Pay(t, h, _) => t !in s.buyer.tasks && h in s.buyer.offers && h in s.ledger.saved
                            && s.ledger.saved[h].squeakHash in shop.keys
    case StorePayment(t) => t in s.buyer.tasks && s.buyer.tasks[t].Paid?
    case MarkOffer(t) => t in s.buyer.tasks && s.buyer.tasks[t].Stored?
    case SaveKey(t) => t in s.buyer.tasks && s.buyer.tasks[t].Marked?
                          && s.buyer.tasks[t].payment.squeakHash in shop.squeaks
    case Crash(t) => true
    case FreeKey(h, key) => h in shop.squeaks && AcceptsKey(shop.primitives, shop.squeaks[h], key)
    case _ => true
  }

  /** What the buyer computes at an event, before it writes anything. */
  datatype Computed = Computed(received: Outcome<ReceivedOffer>, preimage: Bytes, paid: Outcome<SentPayment>, accepted: bool)

  function Compute(shop: Shop, s: System, e: Event): Computed
    requires shop.primitives.group.order > 0 && BuyerCan(shop, s, e)
  {
    var none := Computed(Raised, [], Raised, false);
    match e
    case Receive(h, payReq, seller, address) =>
      var sent := s.ledger.saved[h];
      none.(received := UnpackOffer(shop.squeaks[sent.squeakHash], PackageOffer(sent, address, None), payReq, seller, false))
    case Pay(t, h, _) =>
      var sent := s.ledger.saved[h];
      none.(preimage := OfferPreimage(shop.primitives, shop.keys[sent.squeakHash], sent.nonce))
    case StorePayment(t) => none.(paid := PayOffer(shop.primitives, s.buyer.tasks[t].offer, s.buyer.tasks[t].preimage))
    case SaveKey(t) =>
      var payment := s.buyer.tasks[t].payment;
      none.(accepted := AcceptsKey(shop.primitives, shop.squeaks[payment.squeakHash], payment.secretKey))
    case _ => none
  }

  function BuyerAfter(shop: Shop, s: System, e: Event): Buyer
    requires shop.primitives.group.order > 0 && BuyerCan(shop, s, e)
  {
    Write(s.buyer, e, Compute(shop, s, e))
  }

  predicate CanWrite(b: Buyer, e: Event) {
    match e
    case Pay(t, h, _) => t !in b.tasks && h in b.offers
    case StorePayment(t) => t in b.tasks && b.tasks[t].Paid?
    case MarkOffer(t) => t in b.tasks && b.tasks[t].Stored?
    case SaveKey(t) => t in b.tasks && b.tasks[t].Marked?
    case _ => true
  }

  /** The one write of an event. */
  function Write(b: Buyer, e: Event, c: Computed): Buyer
    requires CanWrite(b, e)
  {
    match e
    case Seller(_) => b
    case Receive(h, _, _, _) =>
      if c.received.Raised? || h in b.offers then b else b.(offers := b.offers[h := c.received.value])
    case Pay(t, h, _) => b.(tasks := b.tasks[t := Paid(b.offers[h], c.preimage)])
    case StorePayment(t) =>
      if c.paid.Raised? || c.paid.value.paymentHash in b.payments then
        b.(tasks := b.tasks - {t})
      else
        b.(payments := b.payments[c.paid.value.paymentHash := c.paid.value], tasks := b.tasks[t := Stored(c.paid.value)])
    case MarkOffer(t) =>
      var payment := b.tasks[t].payment;
      var h := payment.paymentHash;
      b.(offers := if h in b.offers then b.offers[h := b.offers[h].(paid := true)] else b.offers,
         tasks := b.tasks[t := Marked(payment)])
    case SaveKey(t) =>
      var payment := b.tasks[t].payment;
      b.(keys := if c.accepted then WithKeyOf(b, payment.squeakHash, payment.secretKey) else b.keys, tasks := b.tasks - {t})
    case Crash(t) => b.(tasks := b.tasks - {t})
    case Forget(h) => b.(offers := b.offers - {h})
    case Download(g) => b.(squeaks := b.squeaks + {g})
    case Delete(g) => b.(squeaks := b.squeaks - {g}, keys := b.keys - {g})
    case FreeKey(g, key) => b.(keys := WithKeyOf(b, g, key))
  }

  /** A key is saved to a stored squeak; for any other it is refused. */
  function WithKeyOf(b: Buyer, squeakHash: Hash, key: Bytes): map<Hash, Bytes> {
    if squeakHash in b.squeaks then b.keys[squeakHash := key] else b.keys
  }

  function NewBuyer(): Buyer {
    Buyer({}, map[], map[], map[], map[])
  }

  ghost function After(shop: Shop, s: System, e: Event): System
    requires ValidShop(shop) && Possible(shop, s, e)
  {
    System(Apply(s.ledger, LedgerAction(e), shop.retentionS), BuyerAfter(shop, s, e))
  }

  ghost predicate EventAt(shop: Shop, run: seq<System>, k: nat)
    requires ValidShop(shop)
  {
    k + 1 < |run| && exists e :: Possible(shop, run[k], e) && run[k + 1] == After(shop, run[k], e)
  }

  ghost predicate IsSystemRun(shop: Shop, run: seq<System>)
    requires ValidShop(shop)
  {
    && run != [] && Init(run[0].ledger) && run[0].buyer == NewBuyer()
    && forall k: nat :: k + 1 < |run| ==> EventAt(shop, run, k)
  }

  function LedgerRun(run: seq<System>): (r: seq<Ledger>)
    ensures |r| == |run| && forall k :: 0 <= k < |r| ==> r[k] == run[k].ledger
  {
    seq(|run|, k requires 0 <= k < |run| => run[k].ledger)
  }

  /** The seller's side of a system run is a run of the payment ledger; buyer events leave it as it was. */
  lemma LedgerRunIsRun(shop: Shop, run: seq<System>)
    requires ValidShop(shop) && IsSystemRun(shop, run)
    ensures IsRun(LedgerRun(run), shop.retentionS)
  {
    var r := LedgerRun(run);
    forall k: nat | k + 1 < |r| ensures StepAt(r, shop.retentionS, k) {
      assert EventAt(shop, run, k);
      var e :| Possible(shop, run[k], e) && run[k + 1] == After(shop, run[k], e);
      assert Enabled(r[k], LedgerAction(e)) && r[k + 1] == Apply(r[k], LedgerAction(e), shop.retentionS);
    }
  }

  // ----- Invariant -----
  ghost predicate OfferMatches(shop: Shop, s: Ledger, o: ReceivedOffer) {
    && o.paymentHash in s.saved
    && var sent := s.saved[o.paymentHash];
       && sent.squeakHash in shop.squeaks
       && o.squeakHash == sent.squeakHash && o.priceMsat == sent.priceMsat && o.nonce == sent.nonce
       && o.paymentPoint == shop.squeaks[sent.squeakHash].paymentPoint
  }

  /** The payment row of an honest purchase: the seller's price and squeak, a settled invoice, and the seller's key. */
  ghost predicate PaymentMatches(shop: Shop, s: Ledger, p: SentPayment) {
    && p.paymentHash in s.saved && IsSettled(s.settled, p.paymentHash)
    && var sent := s.saved[p.paymentHash];
       && p.squeakHash == sent.squeakHash && p.priceMsat == sent.priceMsat
       && sent.squeakHash in shop.keys && p.secretKey == shop.keys[sent.squeakHash] && p.valid
  }

  ghost predicate PurchaseOk(shop: Shop, s: System, pc: PurchasePc)
    requires shop.primitives.group.order > 0
  {
    match pc
    case Paid(o, preimage) =>
      && OfferMatches(shop, s.ledger, o) && IsSettled(s.ledger.settled, o.paymentHash)
      && o.paymentHash !in s.buyer.payments && o.squeakHash in shop.keys
      && preimage == OfferPreimage(shop.primitives, shop.keys[o.squeakHash], o.nonce)
    case Stored(p) => p.paymentHash in s.buyer.payments && s.buyer.payments[p.paymentHash] == p
    case Marked(p) => p.paymentHash in s.buyer.payments && s.buyer.payments[p.paymentHash] == p
  }

  ghost predicate SavedHonest(shop: Shop, s: System)
    requires shop.primitives.group.order > 0
  {
    forall h :: h in s.ledger.saved ==> s.ledger.saved[h].paymentHash == h && HonestOffer(shop, s.ledger.saved[h])
  }

  ghost predicate OffersMatch(shop: Shop, s: System) {
    forall h :: h in s.buyer.offers ==>
      && s.buyer.offers[h].paymentHash == h && OfferMatches(shop, s.ledger, s.buyer.offers[h])
      && (s.buyer.offers[h].paid ==> h in s.buyer.payments)
  }

  ghost predicate PaymentsMatch(shop: Shop, s: System) {
    forall h :: h in s.buyer.payments ==>
      s.buyer.payments[h].paymentHash == h && PaymentMatches(shop, s.ledger, s.buyer.payments[h])
  }

  /** Every key held is of a stored squeak and opens it. */
  ghost predicate KeysMatch(shop: Shop, s: System)
    requires shop.primitives.group.order > 0
  {
    forall h :: h in s.buyer.keys ==>
      h in s.buyer.squeaks && h in shop.squeaks && AcceptsKey(shop.primitives, shop.squeaks[h], s.buyer.keys[h])
  }

  ghost predicate PurchasesOk(shop: Shop, s: System)
    requires shop.primitives.group.order > 0
  {
    && (forall t :: t in s.buyer.tasks ==> PurchaseOk(shop, s, s.buyer.tasks[t]))
    && (forall t, t' :: OpenFor(s, t).Some? && OpenFor(s, t) == OpenFor(s, t') ==> t == t')
  }

  /** The invoice a purchase has paid and not yet recorded. */
  function OpenFor(s: System, t: nat): Option<Hash> {
    if t in s.buyer.tasks && s.buyer.tasks[t].Paid? then Some(s.buyer.tasks[t].offer.paymentHash) else None
  }

  ghost predicate BuyerInv(shop: Shop, s: System)
    requires shop.primitives.group.order > 0
  {
    SavedHonest(shop, s) && OffersMatch(shop, s) && PaymentsMatch(shop, s) && KeysMatch(shop, s) && PurchasesOk(shop, s)
  }

  /** What the buyer's side needs to know of the ledger after an event. */
  ghost predicate LedgerFollows(shop: Shop, s: Ledger, e: Event, s': Ledger)
    requires shop.primitives.group.order > 0
  {
    && (forall h :: h in s.saved ==> h in s'.saved && s'.saved[h] == s.saved[h])
    && (forall h :: h in s'.saved && h !in s.saved ==> s'.saved[h].paymentHash == h && HonestOffer(shop, s'.saved[h]))
    && (forall h :: IsSettled(s.settled, h) ==> IsSettled(s'.settled, h))
    && (e.Pay? ==> !IsSettled(s.settled, e.paymentHash) && IsSettled(s'.settled, e.paymentHash))
  }

  lemma SettledFollows(s: Ledger, a: Action, retentionS: nat)
    requires Enabled(s, a)
    ensures forall h :: IsSettled(s.settled, h) ==> IsSettled(Apply(s, a, retentionS).settled, h)
    ensures a.Settle? ==> !IsSettled(s.settled, a.paymentHash) && IsSettled(Apply(s, a, retentionS).settled, a.paymentHash)
  {
    var s' := Apply(s, a, retentionS);
    forall h | IsSettled(s.settled, h) ensures IsSettled(s'.settled, h) {
      var i :| i in s.settled && s.settled[i].paymentHash == h;
      assert i in s'.settled && s'.settled[i].paymentHash == h;
    }
    if a.Settle? {
      assert s'.settled[a.index].paymentHash == a.paymentHash;
    }
  }

  lemma SavedFollows(shop: Shop, s: Ledger, a: Action)
    requires shop.primitives.group.order > 0 && Enabled(s, a) && (a.SaveOffer? ==> HonestOffer(shop, a.offer))
    ensures var saved := Apply(s, a, shop.retentionS).saved;
            && (forall h :: h in s.saved ==> h in saved && saved[h] == s.saved[h])
            && (forall h :: h in saved && h !in s.saved ==> saved[h].paymentHash == h && HonestOffer(shop, saved[h]))
  {
  }

  lemma LedgerDoesFollow(shop: Shop, s: System, e: Event)
    requires ValidShop(shop) && Possible(shop, s, e)
    ensures LedgerFollows(shop, s.ledger, e, After(shop, s, e).ledger)
  {
    var a := LedgerAction(e);
    assert a.SaveOffer? ==> HonestOffer(shop, a.offer);
    SavedFollows(shop, s.ledger, a);
    SettledFollows(s.ledger, a, shop.retentionS);
  }

  /** What the buyer computed is as it should be. */
  ghost predicate ComputedOk(shop: Shop, s: System, e: Event, c: Computed)
    requires shop.primitives.group.order > 0
  {
    match e
    case Receive(h, _, _, _) =>
      c.received.Returned? ==>
        c.received.value.paymentHash == h && !c.received.value.paid && OfferMatches(shop, s.ledger, c.received.value)
    case Pay(_, h, _) =>
      h in s.buyer.offers ==>
        var o := s.buyer.offers[h];
        o.squeakHash in shop.keys && c.preimage == OfferPreimage(shop.primitives, shop.keys[o.squeakHash], o.nonce)
    case StorePayment(t) =>
      c.paid.Returned? && OpenFor(s, t) == Some(c.paid.value.paymentHash) && PaymentMatches(shop, s.ledger, c.paid.value)
    case _ => true
  }

  /** Paying an honest offer buys the seller's key. */
  lemma HonestPurchase(shop: Shop, s: System, o: ReceivedOffer, preimage: Bytes)
    requires ValidShop(shop) && PurchaseOk(shop, s, Paid(o, preimage))
    ensures var paid := PayOffer(shop.primitives, o, preimage);
            paid.Returned? && paid.value.paymentHash == o.paymentHash && PaymentMatches(shop, s.ledger, paid.value)
  {
    TweakRoundTrip(shop.primitives.group, shop.keys[o.squeakHash], o.nonce);
  }

  lemma ComputesOk(shop: Shop, s: System, e: Event)
    requires ValidShop(shop) && BuyerInv(shop, s) && BuyerCan(shop, s, e)
    ensures ComputedOk(shop, s, e, Compute(shop, s, e)) && CanWrite(s.buyer, e)
  {
    if e.StorePayment? {
      HonestPurchase(shop, s, s.buyer.tasks[e.t].offer, s.buyer.tasks[e.t].preimage);
    }
  }

  ghost predicate Ready(shop: Shop, s: System, e: Event, c: Computed, l: Ledger)
    requires shop.primitives.group.order > 0
  {
    BuyerInv(shop, s) && CanWrite(s.buyer, e) && ComputedOk(shop, s, e, c) && LedgerFollows(shop, s.ledger, e, l)
  }

  lemma KeepsOffersMatch(shop: Shop, s: System, e: Event, c: Computed, l: Ledger)
    requires shop.primitives.group.order > 0
    requires OffersMatch(shop, s) && CanWrite(s.buyer, e) && ComputedOk(shop, s, e, c) && LedgerFollows(shop, s.ledger, e, l)
    requires e.MarkOffer? ==> s.buyer.tasks[e.t].payment.paymentHash in s.buyer.payments
    ensures OffersMatch(shop, System(l, Write(s.buyer, e, c)))
  {
    var b' := Write(s.buyer, e, c);
    forall h | h in b'.offers
      ensures b'.offers[h].paymentHash == h && OfferMatches(shop, l, b'.offers[h]) && (b'.offers[h].paid ==> h in b'.payments)
    {
      PaymentsGrow(s.buyer, e, c);
      OfferWrite(s.buyer, e, c, h);
      if h in s.buyer.offers {
        assert OfferMatches(shop, s.ledger, s.buyer.offers[h]);
      }
    }
  }

  /** An offer after a write was received by it, or was there before and differs at most in that it is now marked paid. */
  lemma OfferWrite(b: Buyer, e: Event, c: Computed, h: Hash)
    requires CanWrite(b, e) && h in Write(b, e, c).offers
    ensures var o := Write(b, e, c).offers[h];
            if h in b.offers then
              o == b.offers[h] || (e.MarkOffer? && b.tasks[e.t].payment.paymentHash == h && o == b.offers[h].(paid := true))
            else
              e.Receive? && e.paymentHash == h && c.received.Returned? && o == c.received.value
  {
  }

  lemma PaymentStillMatches(shop: Shop, s: Ledger, e: Event, l: Ledger, p: SentPayment)
    requires shop.primitives.group.order > 0
    requires PaymentMatches(shop, s, p) && LedgerFollows(shop, s, e, l)
    ensures PaymentMatches(shop, l, p)
  {
  }

  lemma KeepsPaymentsMatch(shop: Shop, s: System, e: Event, c: Computed, l: Ledger)
    requires shop.primitives.group.order > 0
    requires PaymentsMatch(shop, s) && CanWrite(s.buyer, e) && ComputedOk(shop, s, e, c) && LedgerFollows(shop, s.ledger, e, l)
    ensures PaymentsMatch(shop, System(l, Write(s.buyer, e, c)))
  {
    var b, b' := s.buyer, Write(s.buyer, e, c);
    PaymentsGrow(b, e, c);
    forall h | h in b'.payments ensures b'.payments[h].paymentHash == h && PaymentMatches(shop, l, b'.payments[h]) {
      PaymentStillMatches(shop, s.ledger, e, l, b'.payments[h]);
    }
  }

  lemma KeepsKeysMatch(shop: Shop, s: System, e: Event, c: Computed, l: Ledger)
    requires ValidShop(shop) && PaymentsMatch(shop, s) && KeysMatch(shop, s) && CanWrite(s.buyer, e)
    requires e.SaveKey? ==> PurchaseOk(shop, s, s.buyer.tasks[e.t])
    requires e.FreeKey? ==> BuyerCan(shop, s, e)
    ensures KeysMatch(shop, System(l, Write(s.buyer, e, c)))
  {
  }

  lemma PaymentsGrow(b: Buyer, e: Event, c: Computed)
    requires CanWrite(b, e)
    ensures forall h :: h in b.payments ==> h in Write(b, e, c).payments && Write(b, e, c).payments[h] == b.payments[h]
    ensures forall h :: h in Write(b, e, c).payments && h !in b.payments ==>
              e.StorePayment? && c.paid.Returned? && c.paid.value.paymentHash == h
  {
  }

  /** A purchase stays as it should be while nobody else records its invoice. */
  lemma PurchaseStays(shop: Shop, s: System, s': System, pc: PurchasePc)
    requires shop.primitives.group.order > 0 && PurchaseOk(shop, s, pc)
    requires forall h :: h in s.ledger.saved ==> h in s'.ledger.saved && s'.ledger.saved[h] == s.ledger.saved[h]
    requires forall h :: IsSettled(s.ledger.settled, h) ==> IsSettled(s'.ledger.settled, h)
    requires forall h :: h in s.buyer.payments ==> h in s'.buyer.payments && s'.buyer.payments[h] == s.buyer.payments[h]
    requires pc.Paid? && pc.offer.paymentHash in s'.buyer.payments ==> pc.offer.paymentHash in s.buyer.payments
    ensures PurchaseOk(shop, s', pc)
  {
  }

  lemma PayerOk(shop: Shop, s: System, e: Event, c: Computed, l: Ledger)
    requires shop.primitives.group.order > 0 && e.Pay?
    requires OffersMatch(shop, s) && PaymentsMatch(shop, s)
    requires CanWrite(s.buyer, e) && ComputedOk(shop, s, e, c) && LedgerFollows(shop, s.ledger, e, l)
    ensures PurchaseOk(shop, System(l, Write(s.buyer, e, c)), Paid(s.buyer.offers[e.paymentHash], c.preimage))
  {
    assert OfferMatches(shop, s.ledger, s.buyer.offers[e.paymentHash]);
    assert e.paymentHash in s.buyer.payments ==> PaymentMatches(shop, s.ledger, s.buyer.payments[e.paymentHash]);
  }

  lemma RecorderOk(shop: Shop, s: System, e: Event, c: Computed, l: Ledger)
    requires shop.primitives.group.order > 0 && (e.StorePayment? || e.MarkOffer?)
    requires CanWrite(s.buyer, e) && PurchaseOk(shop, s, s.buyer.tasks[e.t])
    requires e.t in Write(s.buyer, e, c).tasks
    ensures PurchaseOk(shop, System(l, Write(s.buyer, e, c)), Write(s.buyer, e, c).tasks[e.t])
  {
  }

  lemma PurchaseActs(shop: Shop, s: System, e: Event, c: Computed, l: Ledger, t: nat)
    requires shop.primitives.group.order > 0 && Ready(shop, s, e, c, l)
    requires t in Write(s.buyer, e, c).tasks
    requires (e.StorePayment? && e.t == t) || t !in s.buyer.tasks || Write(s.buyer, e, c).tasks[t] != s.buyer.tasks[t]
    ensures PurchaseOk(shop, System(l, Write(s.buyer, e, c)), Write(s.buyer, e, c).tasks[t])
  {
    if e.Pay? {
      PayerOk(shop, s, e, c, l);
    } else {
      RecorderOk(shop, s, e, c, l);
    }
  }

  lemma OpenStays(shop: Shop, s: System, e: Event, c: Computed, l: Ledger, t: nat)
    requires shop.primitives.group.order > 0
    requires OffersMatch(shop, s) && CanWrite(s.buyer, e) && LedgerFollows(shop, s.ledger, e, l)
    requires t in s.buyer.tasks ==> PurchaseOk(shop, s, s.buyer.tasks[t])
    requires OpenFor(System(l, Write(s.buyer, e, c)), t).Some?
    ensures var h := OpenFor(System(l, Write(s.buyer, e, c)), t);
            if e.Pay? && e.t == t then h == Some(e.paymentHash) && !IsSettled(s.ledger.settled, e.paymentHash)
            else h == OpenFor(s, t) && IsSettled(s.ledger.settled, h.value)
  {
  }

  lemma KeepsPurchasesOk(shop: Shop, s: System, e: Event, c: Computed, l: Ledger)
    requires shop.primitives.group.order > 0 && Ready(shop, s, e, c, l)
    ensures PurchasesOk(shop, System(l, Write(s.buyer, e, c)))
  {
    var s' := System(l, Write(s.buyer, e, c));
    PaymentsGrow(s.buyer, e, c);
    forall t | t in s'.buyer.tasks ensures PurchaseOk(shop, s', s'.buyer.tasks[t]) {
      if t in s.buyer.tasks && s'.buyer.tasks[t] == s.buyer.tasks[t] && !(e.StorePayment? && e.t == t) {
        assert OpenFor(s, t).Some? && e.StorePayment? ==> OpenFor(s, t) != OpenFor(s, e.t);
        PurchaseStays(shop, s, s', s.buyer.tasks[t]);
      } else {
        PurchaseActs(shop, s, e, c, l, t);
      }
    }
    forall t, t' | OpenFor(s', t).Some? && OpenFor(s', t) == OpenFor(s', t') ensures t == t' {
      OpenStays(shop, s, e, c, l, t);
      OpenStays(shop, s, e, c, l, t');
    }
  }

  /** An offer that has been deleted can no longer be paid; the others are as before. */
  lemma DeletedOfferIsNotPaid(shop: Shop, s: System, h: Hash, t: nat, i: nat)
    requires ValidShop(shop) && Possible(shop, s, Forget(h))
    ensures var s' := After(shop, s, Forget(h));
            && !Possible(shop, s', Pay(t, h, i))
            && forall g :: g != h && g in s.buyer.offers ==> g in s'.buyer.offers && s'.buyer.offers[g] == s.buyer.offers[g]
  {
  }

  lemma BuyerStep(shop: Shop, s: System, e: Event)
    requires ValidShop(shop) && BuyerInv(shop, s) && Possible(shop, s, e)
    ensures BuyerInv(shop, After(shop, s, e))
  {
    var l, c := After(shop, s, e).ledger, Compute(shop, s, e);
    LedgerDoesFollow(shop, s, e);
    ComputesOk(shop, s, e);
    assert e.MarkOffer? ==> PurchaseOk(shop, s, s.buyer.tasks[e.t]);
    KeepsOffersMatch(shop, s, e, c, l);
    KeepsPaymentsMatch(shop, s, e, c, l);
    assert e.SaveKey? ==> PurchaseOk(shop, s, s.buyer.tasks[e.t]);
    KeepsKeysMatch(shop, s, e, c, l);
    KeepsPurchasesOk(shop, s, e, c, l);
  }

  // ----- Results -----
  lemma BuyerMoves(shop: Shop, run: seq<System>, k: nat)
    requires ValidShop(shop) && EventAt(shop, run, k) && BuyerInv(shop, run[k])
    ensures BuyerInv(shop, run[k + 1])
  {
    var e :| Possible(shop, run[k], e) && run[k + 1] == After(shop, run[k], e);
    BuyerStep(shop, run[k], e);
  }

  lemma BuyerStarts(shop: Shop, s: System)
    requires ValidShop(shop) && Init(s.ledger) && s.buyer == NewBuyer()
    ensures BuyerInv(shop, s)
  {
  }

  /** From each state to the next the buyer's invariant is kept. */
  ghost predicate BuyerMovesOn(shop: Shop, run: seq<System>)
    requires shop.primitives.group.order > 0
  {
    forall k: nat :: k + 1 < |run| && BuyerInv(shop, run[k]) ==> BuyerInv(shop, run[k + 1])
  }

  lemma BuyerNeverStops(shop: Shop, run: seq<System>)
    requires ValidShop(shop) && IsSystemRun(shop, run)
    ensures BuyerMovesOn(shop, run)
  {
    forall k: nat | k + 1 < |run| && BuyerInv(shop, run[k]) ensures BuyerInv(shop, run[k + 1]) {
      BuyerMoves(shop, run, k);
    }
  }

  lemma {:induction false} BuyerInvSpreads(shop: Shop, run: seq<System>, k: nat)
    requires shop.primitives.group.order > 0 && k < |run| && BuyerMovesOn(shop, run) && BuyerInv(shop, run[0])
    ensures BuyerInv(shop, run[k])
  {
    if k > 0 {
      var m: nat := k - 1;
      BuyerInvSpreads(shop, run, m);
      assert BuyerInv(shop, run[m + 1]);
    }
  }

  lemma BuyerKeepsInv(shop: Shop, run: seq<System>, k: nat)
    requires ValidShop(shop) && IsSystemRun(shop, run) && k < |run|
    ensures BuyerInv(shop, run[k])
  {
    BuyerStarts(shop, run[0]);
    BuyerNeverStops(shop, run);
    BuyerInvSpreads(shop, run, k);
  }

  /** Both nodes keep their invariants at every event of every run. */
  lemma SystemKeepsInv(shop: Shop, run: seq<System>, k: nat)
    requires ValidShop(shop) && IsSystemRun(shop, run) && k < |run|
    ensures BuyerInv(shop, run[k]) && Inv(run[k].ledger, shop.retentionS)
  {
    BuyerKeepsInv(shop, run, k);
    LedgerRunIsRun(shop, run);
    RunKeepsInv(LedgerRun(run), shop.retentionS, k);
  }

  /**
   Every payment the buyer has recorded, at any crash point, is for one settled invoice, at the price and for
   the squeak of the seller's offer, and carries the seller's key. Two records never share an invoice.
   */
  lemma PaymentIsSale(shop: Shop, run: seq<System>, k: nat, h: Hash)
    requires ValidShop(shop) && IsSystemRun(shop, run) && k < |run|
    requires h in run[k].buyer.payments
    ensures var payment, ledger := run[k].buyer.payments[h], run[k].ledger;
            && payment.paymentHash == h && h in ledger.saved
            && payment.priceMsat == ledger.saved[h].priceMsat && payment.squeakHash == ledger.saved[h].squeakHash
            && payment.squeakHash in shop.keys && payment.secretKey == shop.keys[payment.squeakHash] && payment.valid
            && exists i :: i in ledger.settled && ledger.settled[i].paymentHash == h
                 && forall j :: j in ledger.settled && ledger.settled[j].paymentHash == h ==> j == i
  {
    SystemKeepsInv(shop, run, k);
    assert PaymentMatches(shop, run[k].ledger, run[k].buyer.payments[h]);
  }

  /** An offer the buyer has marked paid has its payment row, and the row holds the seller's key. */
  lemma PaidOfferHasKey(shop: Shop, run: seq<System>, k: nat, h: Hash)
    requires ValidShop(shop) && IsSystemRun(shop, run) && k < |run|
    requires h in run[k].buyer.offers && run[k].buyer.offers[h].paid
    ensures h in run[k].buyer.payments && run[k].buyer.offers[h].squeakHash in shop.keys
         && run[k].buyer.payments[h].secretKey == shop.keys[run[k].buyer.offers[h].squeakHash]
  {
    SystemKeepsInv(shop, run, k);
    assert PaymentMatches(shop, run[k].ledger, run[k].buyer.payments[h]);
  }

  function PaidPrices(payments: map<Hash, SentPayment>): map<Hash, int> {
    map h | h in payments :: payments[h].priceMsat
  }

  /** What the buyer's payment table says it has spent. */
  ghost function Spent(payments: map<Hash, SentPayment>): int {
    Total(payments.Keys, PaidPrices(payments))
  }

  /**
   Conservation across the two nodes. When the seller's stream has drained, and every look-up found its offer,
   each recorded purchase has exactly one payment row at the seller with the same price and squeak; and what the
   seller received equals what the buyer recorded spending exactly when every settled offer is a recorded purchase,
   that is, when no crash fell between a payment and its record and nobody else paid. Otherwise it is more.
   */
  lemma TwoNodeConservation(shop: Shop, run: seq<System>, k: nat, t: nat)
    requires ValidShop(shop) && IsSystemRun(shop, run) && k < |run|
    requires t in run[k].ledger.tasks && Drained(run[k].ledger, run[k].ledger.tasks[t])
    requires forall i :: i in run[k].ledger.settled && run[k].ledger.settled[i].paymentHash in run[k].ledger.saved ==>
               FoundWheneverScanned(LedgerRun(run), shop.retentionS, k, i)
    ensures var payments, ledger := run[k].buyer.payments, run[k].ledger;
            && (forall h :: h in payments ==> CountPayments(ledger.received, h) == 1)
            && (forall r :: 0 <= r < |ledger.received| && ledger.received[r].paymentHash in payments ==>
                 var payment := payments[ledger.received[r].paymentHash];
                 ledger.received[r].priceMsat == payment.priceMsat && ledger.received[r].squeakHash == payment.squeakHash)
            && Spent(payments) <= SumPrices(ledger.received)
            && (Spent(payments) == SumPrices(ledger.received) <==> payments.Keys == SoldHashes(ledger))
  {
    var payments, ledger := run[k].buyer.payments, run[k].ledger;
    SystemKeepsInv(shop, run, k);
    LedgerRunIsRun(shop, run);
    DrainedTotal(LedgerRun(run), shop.retentionS, k, t);
    forall h | h in payments ensures h in SoldHashes(ledger) && payments[h].priceMsat == ledger.saved[h].priceMsat {
      assert PaymentMatches(shop, ledger, payments[h]);
    }
    forall h | h in payments ensures CountPayments(ledger.received, h) == 1 {
      UniqueCount(ledger.received, h);
    }
    SameAmounts(payments.Keys, PaidPrices(payments), OfferPrices(ledger.saved));
    TotalProperSubset(payments.Keys, SoldHashes(ledger), OfferPrices(ledger.saved));
    forall r | 0 <= r < |ledger.received| && ledger.received[r].paymentHash in payments
      ensures var payment := payments[ledger.received[r].paymentHash];
              ledger.received[r].priceMsat == payment.priceMsat && ledger.received[r].squeakHash == payment.squeakHash
    {
      assert PaymentOk(ledger, ledger.received[r]) && PaymentMatches(shop, ledger, payments[ledger.received[r].paymentHash]);
    }
  }
}
