/**
 The sale of a squeak's key, from `squeaknode/core/squeak_core.py`: the seller creates and packages
 an offer, the buyer unpacks and pays it, and recovers the key from the payment preimage.

 Curve points, the preimage hash and the lightning node are not part of this repository. The first
 two are the functions of `Primitives`; the answers of the node are arguments, and what is promised
 of them is `IsInvoiceFor`.
 */
module SqueakCore {
  import opened Basics
  import opened SecretKeys

  datatype Primitives = Primitives(group: Group, pointOf: nat -> Bytes, hashOf: Bytes -> Hash)

  /** Points are injective on the scalars of the group, and the preimage hash is injective. */
  ghost predicate Sound(p: Primitives) {
    && IsGroup(p.group)
    && (forall x: nat, y: nat ::
          x < p.group.order && y < p.group.order && p.pointOf(x) == p.pointOf(y) ==> x == y)
    && (forall a, b :: p.hashOf(a) == p.hashOf(b) ==> a == b)
  }

  datatype Squeak = Squeak(
    hash: Hash,
    author: Bytes,
    blockHeight: int,
    blockHash: Hash,
    timeS: int,
    replyTo: Option<Hash>,
    recipient: Option<Bytes>,
    paymentPoint: Bytes,
    payload: Bytes)

  datatype Invoice = Invoice(
    paymentHash: Hash, paymentRequest: string, creationDate: int, expiry: int)

  datatype PayReq = PayReq(
    paymentHash: Hash, paymentPoint: Bytes, numMsat: int, destination: string, timestamp: int, expiry: int)

  datatype SentOffer = SentOffer(
    squeakHash: Hash,
    paymentHash: Hash,
    nonce: Bytes,
    priceMsat: int,
    paymentRequest: string,
    invoiceTime: int,
    invoiceExpiry: int,
    peerAddress: PeerAddress,
    paid: bool)

  datatype Offer = Offer(squeakHash: Hash, nonce: Bytes, paymentRequest: string, host: string, port: int)

  datatype ReceivedOffer = ReceivedOffer(
    squeakHash: Hash,
    priceMsat: int,
    paymentHash: Hash,
    nonce: Bytes,
    paymentPoint: Bytes,
    invoiceTimestamp: int,
    invoiceExpiry: int,
    paymentRequest: string,
    destination: string,
    lightningAddress: LightningAddress,
    peerAddress: PeerAddress,
    paid: bool)

  datatype SentPayment = SentPayment(
    peerAddress: PeerAddress,
    squeakHash: Hash,
    paymentHash: Hash,
    secretKey: Bytes,
    priceMsat: int,
    nodePubkey: string,
    valid: bool)

  function PaymentPoint(p: Primitives, key: Bytes): (point: Bytes)
    requires p.group.order > 0
  {
    p.pointOf(Reduce(ScalarFromBytes(key), p.group.order))
  }

  /** What a store demands of a key before it saves it: that it opens the payment point of the squeak. */
  predicate AcceptsKey(p: Primitives, squeak: Squeak, key: Bytes)
    requires p.group.order > 0
  {
    PaymentPoint(p, key) == squeak.paymentPoint
  }

  function OfferPreimage(p: Primitives, secretKey: Bytes, nonce: Bytes): (preimage: Bytes)
    requires p.group.order > 0
  {
    AddTweak(p.group, secretKey, nonce)
  }

  /** The contract of the seller's lightning node, and of the decoding of its payment requests. */
  ghost predicate IsInvoiceFor(p: Primitives, invoice: Invoice, payReq: PayReq, preimage: Bytes, priceMsat: int) {
    && invoice.paymentHash == payReq.paymentHash == p.hashOf(preimage)
    && payReq.numMsat == priceMsat
    && payReq.timestamp == invoice.creationDate
    && payReq.expiry == invoice.expiry
  }

  /** `invoice` is the node's answer to a request made with `OfferPreimage` and the price. */
  function CreateOffer(squeak: Squeak, nonce: Bytes, peer: PeerAddress, priceMsat: int, invoice: Invoice): (o: SentOffer)
  {
    SentOffer(squeak.hash, invoice.paymentHash, nonce, priceMsat, invoice.paymentRequest,
              invoice.creationDate, invoice.expiry, peer, false)
  }

  /** A configured external address takes precedence over the one the lightning node reports. */
  function PackageOffer(o: SentOffer, configured: Option<LightningAddress>, reported: Option<LightningAddress>): (m: Offer)
  {
    var address := if configured.Some? then configured else reported;
    Offer(o.squeakHash, o.nonce, o.paymentRequest,
          if address.Some? then address.value.host else "",
          if address.Some? then address.value.port else 0)
  }

  function UnpackOffer(squeak: Squeak, m: Offer, payReq: PayReq, peer: PeerAddress, checkPaymentPoint: bool): (r: Outcome<ReceivedOffer>)
  {
    if squeak.hash != m.squeakHash then
      Raised
    else if checkPaymentPoint && payReq.paymentPoint != squeak.paymentPoint then
      Raised
    else
      Returned(ReceivedOffer(
                 squeak.hash, payReq.numMsat, payReq.paymentHash, m.nonce, squeak.paymentPoint,
                 payReq.timestamp, payReq.expiry, m.paymentRequest, payReq.destination,
                 LightningAddress(if m.host != "" then m.host else peer.host, m.port), peer, false))
  }

  /** `preimage` is what paying the invoice revealed; it is empty when the payment failed. */
  function PayOffer(p: Primitives, o: ReceivedOffer, preimage: Bytes): (r: Outcome<SentPayment>)
    requires p.group.order > 0
  {
    if preimage == [] then
      Raised
    else
      var key := SubtractTweak(p.group, preimage, o.nonce);
      Returned(SentPayment(o.peerAddress, o.squeakHash, o.paymentHash, key, o.priceMsat, o.destination,
                           PaymentPoint(p, key) == o.paymentPoint))
  }

  // ----- Results -----
  /** One canonical key opens a payment point, and no other does. */
  lemma PointDeterminesKey(p: Primitives, k: Bytes, k': Bytes)
    requires Sound(p) && IsKey(p.group, k) && IsKey(p.group, k')
    ensures PaymentPoint(p, k) == PaymentPoint(p, k') <==> k == k'
  {
    ModUnique(ScalarFromBytes(k), 0, ScalarFromBytes(k), p.group.order);
    ModUnique(ScalarFromBytes(k'), 0, ScalarFromBytes(k'), p.group.order);
    KeysAreScalars(p.group, k, k');
  }

  /**
   An honest sale, of which the lightning node decodes the payment request that reaches the buyer. The offer survives
   packaging and unpacking with its hashes, price, nonce, expiry and payment request; the buyer learns where to pay,
   and ends with the seller's own key, marked valid, which the buyer's store accepts.
   */
  lemma HonestSale(
      p: Primitives, squeak: Squeak, key: Bytes, nonce: Bytes, price: int, invoice: Invoice, decode: string -> PayReq,
      buyer: PeerAddress, seller: PeerAddress, configured: Option<LightningAddress>, reported: Option<LightningAddress>)
    requires Sound(p) && IsKey(p.group, key) && AcceptsKey(p, squeak, key) && p.group.keyLength > 0
    requires IsInvoiceFor(p, invoice, decode(invoice.paymentRequest), OfferPreimage(p, key, nonce), price)
    ensures var sent := CreateOffer(squeak, nonce, buyer, price, invoice);
            && sent.squeakHash == squeak.hash && sent.paymentHash == invoice.paymentHash && sent.nonce == nonce
            && sent.priceMsat == price && sent.paymentRequest == invoice.paymentRequest && sent.peerAddress == buyer
            && sent.invoiceTime == invoice.creationDate && sent.invoiceExpiry == invoice.expiry && !sent.paid
    ensures var sent := CreateOffer(squeak, nonce, buyer, price, invoice);
            var message := PackageOffer(sent, configured, reported);
            var got := UnpackOffer(squeak, message, decode(message.paymentRequest), seller, false);
            && got.Returned?
            && got.value.squeakHash == squeak.hash && got.value.paymentHash == invoice.paymentHash
            && got.value.priceMsat == price && got.value.nonce == nonce
            && got.value.paymentRequest == invoice.paymentRequest
            && got.value.destination == decode(invoice.paymentRequest).destination
            && got.value.paymentPoint == squeak.paymentPoint
            && got.value.invoiceTimestamp == invoice.creationDate && got.value.invoiceExpiry == invoice.expiry
            && got.value.peerAddress == seller && !got.value.paid
            && IsWhereToPay(got.value.lightningAddress, configured, reported, seller)
            && var paid := PayOffer(p, got.value, OfferPreimage(p, key, nonce));
               paid.Returned? && paid.value.valid && paid.value.secretKey == key
               && paid.value.squeakHash == squeak.hash && paid.value.paymentHash == invoice.paymentHash
               && paid.value.priceMsat == price && paid.value.peerAddress == seller
               && paid.value.nodePubkey == decode(invoice.paymentRequest).destination
               && AcceptsKey(p, squeak, paid.value.secretKey)
  {
    TweakRoundTrip(p.group, key, nonce);
  }

  /** Unpacking fails exactly for an offer on another squeak or, where it is checked, one whose invoice pays another point. */
  lemma UnpackFailsExactlyWhen(squeak: Squeak, m: Offer, payReq: PayReq, peer: PeerAddress, check: bool)
    ensures UnpackOffer(squeak, m, payReq, peer, check).Raised? <==>
              m.squeakHash != squeak.hash || (check && payReq.paymentPoint != squeak.paymentPoint)
  {
  }

  /** The seller's configured address, else the one its lightning node reports; without a host there, the seller's own. */
  ghost predicate IsWhereToPay(
      address: LightningAddress, configured: Option<LightningAddress>, reported: Option<LightningAddress>, seller: PeerAddress)
  {
    && (forall a :: configured == Some(a) || (configured == None && reported == Some(a)) ==>
          address.port == a.port && address.host == if a.host != "" then a.host else seller.host)
    && (configured == None && reported == None ==> address == LightningAddress(seller.host, 0))
  }

  /**
   Whoever sold it, and whatever the preimage: a payment is marked valid exactly when the buyer's store
   accepts the recovered key, and then the key is the only canonical key of that squeak.
   */
  lemma ValidPayment(p: Primitives, squeak: Squeak, m: Offer, payReq: PayReq, peer: PeerAddress, check: bool, preimage: Bytes, key: Bytes)
    requires Sound(p) && IsKey(p.group, key) && AcceptsKey(p, squeak, key)
    requires UnpackOffer(squeak, m, payReq, peer, check).Returned? && preimage != []
    ensures var paid := PayOffer(p, UnpackOffer(squeak, m, payReq, peer, check).value, preimage);
            && paid.Returned?
            && (paid.value.valid <==> AcceptsKey(p, squeak, paid.value.secretKey))
            && (paid.value.valid <==> paid.value.secretKey == key)
  {
    TweakScalars(p.group, preimage, m.nonce);
    PointDeterminesKey(p, SubtractTweak(p.group, preimage, m.nonce), key);
  }

  /** A seller who blinds the key with one nonce and announces another sells a valid key only if the two are congruent. */
  lemma AnnouncedNonceMatters(p: Primitives, squeak: Squeak, o: ReceivedOffer, key: Bytes, nonce: Bytes)
    requires Sound(p) && IsKey(p.group, key) && AcceptsKey(p, squeak, key) && p.group.keyLength > 0
    requires o.paymentPoint == squeak.paymentPoint
    ensures var paid := PayOffer(p, o, OfferPreimage(p, key, nonce));
            && paid.Returned?
            && (paid.value.valid <==>
                Reduce(ScalarFromBytes(nonce), p.group.order) == Reduce(ScalarFromBytes(o.nonce), p.group.order))
  {
    var preimage := OfferPreimage(p, key, nonce);
    TweakScalars(p.group, preimage, o.nonce);
    WrongTweak(p.group, key, nonce, o.nonce);
    PointDeterminesKey(p, SubtractTweak(p.group, preimage, o.nonce), key);
  }

  /** Under one nonce, different keys give different payment hashes, so a hash names at most one key. */
  lemma PaymentHashNamesKey(p: Primitives, key: Bytes, key': Bytes, nonce: Bytes)
    requires Sound(p) && IsKey(p.group, key) && IsKey(p.group, key')
    ensures p.hashOf(OfferPreimage(p, key, nonce)) == p.hashOf(OfferPreimage(p, key', nonce)) <==> key == key'
  {
    if OfferPreimage(p, key, nonce) == OfferPreimage(p, key', nonce) {
      TweakInjective(p.group, key, key', nonce);
    }
  }
}
