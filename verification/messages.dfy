/**
 The records as the web page sees them. A page cursor makes the round trip:
 the node turns a record into a message, and the page sends the message of its
 last item back, to be turned into a record again.

 An absent field of a message reads as zero or as the empty string, and a
 number that does not fit its field raises. Public keys are kept as bytes.
 */
module Messages {
  import opened Basics
  import opened SqueakCore
  import opened PaymentTables

  // ----- Hexadecimal -----

  const DIGITS: string := "0123456789abcdef"

  function HexDigit(n: int): (c: char)
    requires 0 <= n < 16
  {
    DIGITS[n]
  }

  function DigitValue(c: char): Option<int> {
    if '0' <= c <= '9' then Some(c as int - '0' as int)
    else if 'a' <= c <= 'f' then Some(c as int - 'a' as int + 10)
    else if 'A' <= c <= 'F' then Some(c as int - 'A' as int + 10)
    else None
  }

  predicate IsSpace(c: char) {
    c == ' ' || ('\t' <= c <= '\r')
  }

  function ToHex(bytes: Bytes): string {
    if bytes == [] then "" else
    var n := bytes[0] as int;
    [HexDigit(n / 16), HexDigit(n % 16)] + ToHex(bytes[1..])
  }

  /** Digits of either case; blanks may stand between bytes; anything else raises. */
  function FromHex(s: string): Outcome<Bytes> {
    if s == "" then Returned([])
    else if IsSpace(s[0]) then FromHex(s[1..])
    else if |s| < 2 || DigitValue(s[0]).None? || DigitValue(s[1]).None? then Raised
    else
      var rest := FromHex(s[2..]);
      if rest.Raised? then Raised
      else Returned([(DigitValue(s[0]).value * 16 + DigitValue(s[1]).value) as Byte] + rest.value)
  }

  /** Digits of either case are read, and the blanks are those of ASCII. */
  lemma HexCharacters(c: char, n: int)
    requires 0 <= n < 16
    ensures DigitValue(c) == Some(n) <==> c == "0123456789abcdef"[n] || c == "0123456789ABCDEF"[n]
    ensures IsSpace(c) <==> c == ' ' || c == '\t' || c == '\n' || c == '\U{0b}' || c == '\U{0c}' || c == '\r'
  {
  }

  lemma DigitRoundTrip(n: int)
    requires 0 <= n < 16
    ensures DigitValue(HexDigit(n)) == Some(n) && !IsSpace(HexDigit(n))
  {
  }

  /** Reading past the two digits of one byte. */
  lemma OneByte(b: Byte, rest: string)
    ensures var n := b as int; var s := [HexDigit(n / 16), HexDigit(n % 16)] + rest;
            FromHex(s) == if FromHex(rest).Raised? then Raised else Returned([b] + FromHex(rest).value)
  {
    var n := b as int;
    var s := [HexDigit(n / 16), HexDigit(n % 16)] + rest;
    DigitRoundTrip(n / 16);
    DigitRoundTrip(n % 16);
    assert s[2..] == rest;
    assert n / 16 * 16 + n % 16 == n;
  }

  lemma {:induction false} HexRoundTrip(bytes: Bytes)
    ensures FromHex(ToHex(bytes)) == Returned(bytes)
    ensures ToHex(bytes) == "" <==> bytes == []
  {
    if bytes != [] {
      HexRoundTrip(bytes[1..]);
      OneByte(bytes[0], ToHex(bytes[1..]));
      assert bytes == [bytes[0]] + bytes[1..];
    }
  }

  // ----- Fields -----

  predicate Fits(n: int, bound: int) {
    -bound <= n < bound
  }

  const INT32: int := 0x8000_0000
  const INT64: int := 0x8000_0000_0000_0000

  function OrZero(n: Option<int>): int {
    if n.Some? then n.value else 0
  }

  function PositiveOrNone(n: int): Option<int> {
    if n > 0 then Some(n) else None
  }

  function HexOrEmpty(bytes: Option<Bytes>): string {
    if bytes.Some? && bytes.value != [] then ToHex(bytes.value) else ""
  }

  function BytesOrNone(s: string): Outcome<Option<Bytes>> {
    if s == "" then Returned(None) else
    var bytes := FromHex(s);
    if bytes.Raised? then Raised else Returned(Some(bytes.value))
  }

  /** Bytes make the round trip through "absent is empty" exactly when they are absent or not empty. */
  lemma OptionalBytesSurvive(bytes: Option<Bytes>)
    ensures BytesOrNone(HexOrEmpty(bytes)) == Returned(if bytes == Some([]) then None else bytes)
  {
    if bytes.Some? {
      HexRoundTrip(bytes.value);
    }
  }

  function NetworkName(network: Network): string {
    match network
    case IPV4 => "IPV4"
    case IPV6 => "IPV6"
    case TORV2 => "TORV2"
    case TORV3 => "TORV3"
    case I2P => "I2P"
    case CJDNS => "CJDNS"
  }

  function NetworkNamed(name: string): Outcome<Network> {
    if name == "IPV4" then Returned(IPV4)
    else if name == "IPV6" then Returned(IPV6)
    else if name == "TORV2" then Returned(TORV2)
    else if name == "TORV3" then Returned(TORV3)
    else if name == "I2P" then Returned(I2P)
    else if name == "CJDNS" then Returned(CJDNS)
    else Raised
  }

  datatype PeerAddressMessage = PeerAddressMessage(network: string, host: string, port: int)

  function PeerAddressToMessage(address: PeerAddress): Outcome<PeerAddressMessage> {
    if !Fits(address.port, INT32) then Raised
    else Returned(PeerAddressMessage(NetworkName(address.network), address.host, address.port))
  }

  function MessageToPeerAddress(msg: PeerAddressMessage): Outcome<PeerAddress> {
    var network := NetworkNamed(msg.network);
    if network.Raised? then Raised else Returned(PeerAddress(network.value, msg.host, msg.port))
  }

  lemma PeerAddressRoundTrip(address: PeerAddress)
    ensures PeerAddressToMessage(address).Returned? <==> -0x8000_0000 <= address.port < 0x8000_0000
    ensures PeerAddressToMessage(address).Returned? ==>
              MessageToPeerAddress(PeerAddressToMessage(address).value) == Returned(address)
  {
    match address.network
    case _ => assert NetworkNamed(NetworkName(address.network)) == Returned(address.network);
  }

  // ----- Squeaks -----

  datatype SqueakEntry = SqueakEntry(
    squeakHash: Hash,
    serializedSqueak: Bytes,
    publicKey: Bytes,
    recipientPublicKey: Option<Bytes>,
    blockHeight: int,
    blockHash: Hash,
    blockTime: int,
    squeakTime: int,
    replyTo: Option<Hash>,
    isUnlocked: bool,
    secretKey: Option<Bytes>,
    likedTimeMs: Option<int>,
    content: Option<string>)

  datatype SqueakDisplayEntry = SqueakDisplayEntry(
    squeakHash: string,
    serializedSqueakHex: string,
    isUnlocked: bool,
    secretKeyHex: string,
    contentStr: string,
    blockHeight: int,
    blockHash: string,
    blockTime: int,
    squeakTime: int,
    isReply: bool,
    replyTo: string,
    authorPubkey: string,
    likedTimeMs: int,
    isPrivate: bool,
    recipientPubkey: string)

  predicate EntryFits(e: SqueakEntry) {
    && Fits(e.blockHeight, INT32)
    && Fits(e.blockTime, INT64) && Fits(e.squeakTime, INT64) && Fits(OrZero(e.likedTimeMs), INT64)
  }

  function SqueakEntryToMessage(e: SqueakEntry): Outcome<SqueakDisplayEntry> {
    if !EntryFits(e) then Raised else
    Returned(SqueakDisplayEntry(
      ToHex(e.squeakHash), ToHex(e.serializedSqueak), e.isUnlocked, HexOrEmpty(e.secretKey),
      if e.content.Some? then e.content.value else "",
      e.blockHeight, ToHex(e.blockHash), e.blockTime, e.squeakTime,
      e.replyTo.Some?, HexOrEmpty(e.replyTo), ToHex(e.publicKey), OrZero(e.likedTimeMs),
      e.recipientPublicKey.Some?, HexOrEmpty(e.recipientPublicKey)))
  }

  function MessageToSqueakEntry(msg: SqueakDisplayEntry): Outcome<SqueakEntry> {
    var squeakHash, serialized := FromHex(msg.squeakHash), FromHex(msg.serializedSqueakHex);
    var publicKey, blockHash := FromHex(msg.authorPubkey), FromHex(msg.blockHash);
    var replyTo, secretKey := BytesOrNone(msg.replyTo), BytesOrNone(msg.secretKeyHex);
    if squeakHash.Raised? || serialized.Raised? || publicKey.Raised? || blockHash.Raised?
       || replyTo.Raised? || secretKey.Raised? then Raised
    else Returned(SqueakEntry(
      squeakHash.value, serialized.value, publicKey.value, None,
      msg.blockHeight, blockHash.value, msg.blockTime, msg.squeakTime, replyTo.value,
      msg.isUnlocked, secretKey.value, PositiveOrNone(msg.likedTimeMs),
      if |msg.contentStr| > 0 then Some(msg.contentStr) else None))
  }

  /** Two lower-case digits for each byte, the higher one first. */
  lemma {:induction false} HexText(bytes: Bytes)
    ensures |ToHex(bytes)| == 2 * |bytes|
    ensures forall i :: 0 <= i < |bytes| ==>
              && ToHex(bytes)[2 * i] == "0123456789abcdef"[bytes[i] as int / 16]
              && ToHex(bytes)[2 * i + 1] == "0123456789abcdef"[bytes[i] as int % 16]
  {
    if bytes != [] {
      HexText(bytes[1..]);
      var rest := ToHex(bytes[1..]);
      assert ToHex(bytes)[2..] == rest;
      forall i | 1 <= i < |bytes|
        ensures ToHex(bytes)[2 * i] == "0123456789abcdef"[bytes[i] as int / 16]
             && ToHex(bytes)[2 * i + 1] == "0123456789abcdef"[bytes[i] as int % 16]
      {
        assert bytes[1..][i - 1] == bytes[i];
        assert ToHex(bytes)[2 * i] == rest[2 * (i - 1)] && ToHex(bytes)[2 * i + 1] == rest[2 * (i - 1) + 1];
      }
    }
  }

  /** What the page is shown of a squeak: whether it is a reply, private, unlocked and liked, and its fields as text. */
  lemma SqueakMessageSays(e: SqueakEntry)
    requires EntryFits(e)
    ensures SqueakEntryToMessage(e).Returned?
    ensures var m := SqueakEntryToMessage(e).value;
            && FromHex(m.squeakHash) == Returned(e.squeakHash) && FromHex(m.serializedSqueakHex) == Returned(e.serializedSqueak)
            && FromHex(m.authorPubkey) == Returned(e.publicKey) && FromHex(m.blockHash) == Returned(e.blockHash)
            && m.blockHeight == e.blockHeight && m.blockTime == e.blockTime && m.squeakTime == e.squeakTime
            && (m.isReply <==> e.replyTo != None) && (m.isPrivate <==> e.recipientPublicKey != None)
            && (m.isUnlocked <==> e.isUnlocked)
            && (forall h :: e.replyTo == Some(h) ==> FromHex(m.replyTo) == Returned(h))
            && (forall k :: e.recipientPublicKey == Some(k) ==> FromHex(m.recipientPubkey) == Returned(k))
            && (forall k :: e.secretKey == Some(k) ==> FromHex(m.secretKeyHex) == Returned(k))
            && (forall t :: e.likedTimeMs == Some(t) ==> m.likedTimeMs == t)
            && (forall t :: e.content == Some(t) ==> m.contentStr == t)
            && (e.replyTo == None ==> m.replyTo == "") && (e.recipientPublicKey == None ==> m.recipientPubkey == "")
            && (e.secretKey == None ==> m.secretKeyHex == "") && (e.likedTimeMs == None ==> m.likedTimeMs == 0)
            && (e.content == None ==> m.contentStr == "")
  {
    HexRoundTrip(e.squeakHash);
    HexRoundTrip(e.serializedSqueak);
    HexRoundTrip(e.publicKey);
    HexRoundTrip(e.blockHash);
    OptionalHex(e.replyTo);
    OptionalHex(e.recipientPublicKey);
    OptionalHex(e.secretKey);
  }

  lemma OptionalHex(bytes: Option<Bytes>)
    ensures bytes == None ==> HexOrEmpty(bytes) == ""
    ensures forall b :: bytes == Some(b) ==> FromHex(HexOrEmpty(bytes)) == Returned(b)
  {
    if bytes.Some? {
      HexRoundTrip(bytes.value);
    }
  }

  /** A recipient is never read back, and an empty or zero value reads back as absent. */
  predicate EntrySurvives(e: SqueakEntry) {
    && e.recipientPublicKey == None
    && e.replyTo != Some([]) && e.secretKey != Some([]) && e.content != Some("")
    && (e.likedTimeMs.None? || e.likedTimeMs.value > 0)
  }

  /**
   The fields that a page cursor uses always survive the round trip; the whole
   entry does exactly when it is public and holds no empty or zero option.
   */
  lemma SqueakCursorSurvives(e: SqueakEntry)
    ensures SqueakEntryToMessage(e).Returned? <==>
              && -0x8000_0000 <= e.blockHeight < 0x8000_0000
              && -0x8000_0000_0000_0000 <= e.blockTime < 0x8000_0000_0000_0000
              && -0x8000_0000_0000_0000 <= e.squeakTime < 0x8000_0000_0000_0000
              && forall t :: e.likedTimeMs == Some(t) ==> -0x8000_0000_0000_0000 <= t < 0x8000_0000_0000_0000
    ensures SqueakEntryToMessage(e).Returned? ==>
              var back := MessageToSqueakEntry(SqueakEntryToMessage(e).value);
              && back.Returned?
              && back.value.blockHeight == e.blockHeight
              && back.value.squeakTime == e.squeakTime
              && back.value.squeakHash == e.squeakHash
              && (back.value == e <==> EntrySurvives(e))
  {
    HexRoundTrip(e.squeakHash);
    HexRoundTrip(e.serializedSqueak);
    HexRoundTrip(e.publicKey);
    HexRoundTrip(e.blockHash);
    OptionalBytesSurvive(e.replyTo);
    OptionalBytesSurvive(e.secretKey);
  }

  // ----- Payments -----

  /** A payment as it is stored: with the id and the creation time that the table gave it. */
  datatype Stored<P> = Stored(id: Option<int>, createdTimeMs: Option<int>, payment: P)

  datatype SentPaymentMessage = SentPaymentMessage(
    sentPaymentId: int,
    squeakHash: string,
    paymentHash: string,
    priceMsat: int,
    nodePubkey: string,
    valid: bool,
    timeMs: int,
    peerAddress: PeerAddressMessage)

  datatype ReceivedPaymentMessage = ReceivedPaymentMessage(
    receivedPaymentId: int,
    squeakHash: string,
    paymentHash: string,
    priceMsat: int,
    timeMs: int,
    peerAddress: PeerAddressMessage)

  predicate PaymentFits(id: Option<int>, createdTimeMs: Option<int>, priceMsat: int, address: PeerAddress) {
    && Fits(OrZero(id), INT32) && Fits(OrZero(createdTimeMs), INT64) && Fits(priceMsat, INT64)
    && Fits(address.port, INT32)
  }

  predicate SentFits(s: Stored<SentPayment>) {
    PaymentFits(s.id, s.createdTimeMs, s.payment.priceMsat, s.payment.peerAddress)
  }

  predicate ReceivedFits(s: Stored<ReceivedPayment>) {
    PaymentFits(s.id, s.createdTimeMs, s.payment.priceMsat, s.payment.peerAddress)
  }

  function SentPaymentToMessage(s: Stored<SentPayment>): Outcome<SentPaymentMessage> {
    if !SentFits(s) then Raised else
    var p := s.payment;
    Returned(SentPaymentMessage(
      OrZero(s.id), ToHex(p.squeakHash), ToHex(p.paymentHash), p.priceMsat, p.nodePubkey, p.valid,
      OrZero(s.createdTimeMs), PeerAddressToMessage(p.peerAddress).value))
  }

  /** The secret key is not part of the message; it reads back empty. */
  function MessageToSentPayment(msg: SentPaymentMessage): Outcome<Stored<SentPayment>> {
    var address := MessageToPeerAddress(msg.peerAddress);
    var squeakHash, paymentHash := FromHex(msg.squeakHash), FromHex(msg.paymentHash);
    if address.Raised? || squeakHash.Raised? || paymentHash.Raised? then Raised
    else Returned(Stored(
      PositiveOrNone(msg.sentPaymentId), PositiveOrNone(msg.timeMs),
      SentPayment(address.value, squeakHash.value, paymentHash.value, [], msg.priceMsat, msg.nodePubkey, msg.valid)))
  }

  function ReceivedPaymentToMessage(s: Stored<ReceivedPayment>): Outcome<ReceivedPaymentMessage> {
    if !ReceivedFits(s) then Raised else
    var p := s.payment;
    Returned(ReceivedPaymentMessage(
      OrZero(s.id), ToHex(p.squeakHash), ToHex(p.paymentHash), p.priceMsat,
      OrZero(s.createdTimeMs), PeerAddressToMessage(p.peerAddress).value))
  }

  /** The settle index is not part of the message; it reads back as zero. */
  function MessageToReceivedPayment(msg: ReceivedPaymentMessage): Outcome<Stored<ReceivedPayment>> {
    var address := MessageToPeerAddress(msg.peerAddress);
    var squeakHash, paymentHash := FromHex(msg.squeakHash), FromHex(msg.paymentHash);
    if address.Raised? || squeakHash.Raised? || paymentHash.Raised? then Raised
    else Returned(Stored(
      PositiveOrNone(msg.receivedPaymentId), PositiveOrNone(msg.timeMs),
      ReceivedPayment(squeakHash.value, paymentHash.value, msg.priceMsat, 0, address.value)))
  }

  predicate IsAbsentOrPositive(n: Option<int>) {
    n.None? || n.value > 0
  }

  /**
   The payment hash always survives, the creation time exactly when it is absent
   or positive, and the whole record only without its secret key.
   */
  lemma SentPaymentCursorSurvives(s: Stored<SentPayment>)
    ensures SentPaymentToMessage(s).Returned? <==>
              && (forall id :: s.id == Some(id) ==> -0x8000_0000 <= id < 0x8000_0000)
              && (forall t :: s.createdTimeMs == Some(t) ==> -0x8000_0000_0000_0000 <= t < 0x8000_0000_0000_0000)
              && -0x8000_0000_0000_0000 <= s.payment.priceMsat < 0x8000_0000_0000_0000
              && -0x8000_0000 <= s.payment.peerAddress.port < 0x8000_0000
    ensures SentPaymentToMessage(s).Returned? ==>
              var back := MessageToSentPayment(SentPaymentToMessage(s).value);
              && back.Returned?
              && back.value.payment.paymentHash == s.payment.paymentHash
              && (back.value.createdTimeMs == s.createdTimeMs <==> IsAbsentOrPositive(s.createdTimeMs))
              && (back.value == s <==>
                    IsAbsentOrPositive(s.createdTimeMs) && IsAbsentOrPositive(s.id) && s.payment.secretKey == [])
  {
    HexRoundTrip(s.payment.squeakHash);
    HexRoundTrip(s.payment.paymentHash);
    PeerAddressRoundTrip(s.payment.peerAddress);
  }

  /** The same for received payments; the whole record survives only with settle index zero. */
  lemma ReceivedPaymentCursorSurvives(s: Stored<ReceivedPayment>)
    ensures ReceivedPaymentToMessage(s).Returned? <==>
              && (forall id :: s.id == Some(id) ==> -0x8000_0000 <= id < 0x8000_0000)
              && (forall t :: s.createdTimeMs == Some(t) ==> -0x8000_0000_0000_0000 <= t < 0x8000_0000_0000_0000)
              && -0x8000_0000_0000_0000 <= s.payment.priceMsat < 0x8000_0000_0000_0000
              && -0x8000_0000 <= s.payment.peerAddress.port < 0x8000_0000
    ensures ReceivedPaymentToMessage(s).Returned? ==>
              var back := MessageToReceivedPayment(ReceivedPaymentToMessage(s).value);
              && back.Returned?
              && back.value.payment.paymentHash == s.payment.paymentHash
              && (back.value.createdTimeMs == s.createdTimeMs <==> IsAbsentOrPositive(s.createdTimeMs))
              && (back.value == s <==>
                    IsAbsentOrPositive(s.createdTimeMs) && IsAbsentOrPositive(s.id) && s.payment.settleIndex == 0)
  {
    HexRoundTrip(s.payment.squeakHash);
    HexRoundTrip(s.payment.paymentHash);
    PeerAddressRoundTrip(s.payment.peerAddress);
  }
}
