/**
 Downloading from one peer (`squeaknode/client/peer_downloader.py`): the squeaks it claims to hold, then
 for each of them its key or an offer for it. Nothing is assumed of what a peer answers.
 */
module PeerDownloading {
  import opened Basics
  import opened SqueakCore
  import opened SqueakDatabase
  import opened SqueakStorage

  /** A peer may answer, may answer that it has nothing, or may fail to answer at all, which raises. */
  datatype Answer<+T> = Got(value: T) | Missing | Failed

  /** An offer, with what the node's own lightning node decodes from its payment request. */
  datatype PricedOffer = PricedOffer(offer: Offer, payReq: PayReq)

  /**
   What a peer answers in the course of one run. The `n`-th hash is the one looked up, so that a peer may
   answer differently if it lists a hash twice.
   */
  datatype Peer = Peer(
    address: PeerAddress,
    lookup: Answer<seq<Hash>>,
    squeakAt: nat -> Answer<Squeak>,
    keyAt: nat -> Answer<Bytes>,
    offerAt: nat -> Answer<PricedOffer>)

  /** Arguments that restrict a download; an absent or zero bound, and an absent or empty list, restrict nothing. */
  datatype Filter = Filter(minBlock: Option<int>, maxBlock: Option<int>, pubkeys: Option<seq<Bytes>>)

  const NO_FILTER := Filter(None, None, None)

  predicate Restricts(bound: Option<int>) {
    bound.Some? && bound.value != 0
  }

  predicate Accepts(f: Filter, author: Bytes, height: int) {
    && !(Restricts(f.minBlock) && height < f.minBlock.value)
    && !(Restricts(f.maxBlock) && height > f.maxBlock.value)
    && !(f.pubkeys.Some? && f.pubkeys.value != [] && author !in f.pubkeys.value)
  }

  /** What a download changes. */
  datatype Held = Held(squeaks: map<Hash, SqueakRow>, offers: map<Hash, ReceivedOfferRow>)

  predicate HasKey(squeaks: map<Hash, SqueakRow>, h: Hash) {
    h in squeaks && squeaks[h].secretKey.Some? && squeaks[h].secretKey.value != []
  }

  predicate IsLiveFor(row: ReceivedOfferRow, h: Hash, peer: PeerAddress, nowMs: nat) {
    row.offer.squeakHash == h && row.offer.peerAddress == peer && IsLive(row, nowMs)
  }

  predicate HasLiveOffer(offers: map<Hash, ReceivedOfferRow>, h: Hash, peer: PeerAddress, nowMs: nat) {
    exists p :: p in offers && IsLiveFor(offers[p], h, peer, nowMs)
  }

  /** An offer of this peer for the squeak is unpaid and has not expired. */
  ghost predicate HasOpenOffer(offers: map<Hash, ReceivedOfferRow>, h: Hash, peer: PeerAddress, nowMs: nat) {
    exists p :: p in offers && offers[p].offer.squeakHash == h && offers[p].offer.peerAddress == peer
      && !offers[p].offer.paid && nowMs < (offers[p].offer.invoiceTimestamp + offers[p].offer.invoiceExpiry) * 1000
  }

  /** At most one live offer for each squeak and peer. */
  ghost predicate OneLiveOffer(offers: map<Hash, ReceivedOfferRow>, nowMs: nat) {
    forall h, peer, p, q ::
      p in offers && q in offers && IsLiveFor(offers[p], h, peer, nowMs) && IsLiveFor(offers[q], h, peer, nowMs) ==> p == q
  }

  predicate IsUsableKey(answer: Answer<Bytes>) {
    answer.Got? && answer.value != []
  }

  // ----- A run that does not raise -----
  predicate IsWanted(squeaks: map<Hash, SqueakRow>, h: Hash, f: Filter, answer: Answer<Squeak>) {
    h !in squeaks && answer.Got? && answer.value.hash == h && Accepts(f, answer.value.author, answer.value.blockHeight)
  }

  function FetchSqueak(held: Held, h: Hash, f: Filter, answer: Answer<Squeak>, nowMs: nat): Held {
    if IsWanted(held.squeaks, h, f, answer) then
      held.(squeaks := held.squeaks[h := SqueakRow(answer.value, nowMs, None, None, None)])
    else
      held
  }

  /** Handling an offer: it is stored if it is for the squeak and its payment hash is new. */
  function TakeOffer(held: Held, h: Hash, peer: PeerAddress, offer: PricedOffer, nowMs: nat): Held
    requires h in held.squeaks
  {
    var unpacked := UnpackOffer(held.squeaks[h].squeak, offer.offer, offer.payReq, peer, false);
    if unpacked.Raised? || offer.payReq.paymentHash in held.offers then held
    else held.(offers := held.offers[offer.payReq.paymentHash := ReceivedOfferRow(unpacked.value, nowMs)])
  }

  function FetchKey(node: Node, held: Held, h: Hash, peer: PeerAddress, key: Answer<Bytes>, offer: Answer<PricedOffer>, nowMs: nat): Held {
    if h !in held.squeaks || HasKey(held.squeaks, h) then
      held
    else if IsUsableKey(key) then
      held.(squeaks := held.squeaks[h := Keyed(node, held.squeaks[h], key.value)])
    else if HasLiveOffer(held.offers, h, peer, nowMs) || !offer.Got? then
      held
    else
      TakeOffer(held, h, peer, offer.value, nowMs)
  }

  /** The first loop, over the first `n` hashes. */
  function FetchSqueaks(held: Held, hashes: seq<Hash>, f: Filter, peer: Peer, nowMs: nat, n: nat): Held
    requires n <= |hashes|
  {
    if n == 0 then held
    else FetchSqueak(FetchSqueaks(held, hashes, f, peer, nowMs, n - 1), hashes[n - 1], f, peer.squeakAt(n - 1), nowMs)
  }

  /** The second loop, over the first `n` hashes. */
  function FetchKeys(node: Node, held: Held, hashes: seq<Hash>, peer: Peer, nowMs: nat, n: nat): Held
    requires n <= |hashes|
  {
    if n == 0 then held
    else FetchKey(node, FetchKeys(node, held, hashes, peer, nowMs, n - 1), hashes[n - 1], peer.address,
                  peer.keyAt(n - 1), peer.offerAt(n - 1), nowMs)
  }

  function Download(node: Node, held: Held, f: Filter, peer: Peer, nowMs: nat): Held {
    if !peer.lookup.Got? then held
    else
      var hashes := peer.lookup.value;
      FetchKeys(node, FetchSqueaks(held, hashes, f, peer, nowMs, |hashes|), hashes, peer, nowMs, |hashes|)
  }

  // ----- Any run -----
  /** What a run works on: what is held, and the writes left. */
  datatype Turn = Turn(held: Held, writesLeft: nat)

  ghost function TurnOf(store: SqueakStore): Turn
    reads store.db
  {
    Turn(Held(store.db.squeaks, store.db.receivedOffers), store.db.writesLeft)
  }

  /** How a part of a run ends, and what it leaves. */
  datatype Ending = Ending(r: Outcome<()>, turn: Turn)

  predicate CanStore(store: SqueakStore, t: Turn, squeak: Squeak) {
    && IsAcceptable(store.node, squeak) && t.writesLeft > 0
    && |t.held.squeaks| < store.maxSqueaks
    && |SqueaksBy(t.held.squeaks, squeak.author, squeak.blockHeight)| < store.maxSqueaksPerPublicKeyPerBlock
  }

  function SqueakStep(store: SqueakStore, t: Turn, h: Hash, f: Filter, answer: Answer<Squeak>, nowMs: nat): Ending {
    if IsWanted(t.held.squeaks, h, f, answer) then
      if CanStore(store, t, answer.value) then
        Ending(Returned(()), Turn(FetchSqueak(t.held, h, f, answer, nowMs), t.writesLeft - 1))
      else
        Ending(Raised, t)
    else
      Ending(if h !in t.held.squeaks && answer.Failed? then Raised else Returned(()), t)
  }

  function KeyStep(
      store: SqueakStore, t: Turn, h: Hash, peer: PeerAddress, key: Answer<Bytes>, offer: Answer<PricedOffer>, nowMs: nat): Ending
    requires store.node.primitives.group.order > 0
  {
    if h !in t.held.squeaks || HasKey(t.held.squeaks, h) then
      Ending(Returned(()), t)
    else if IsUsableKey(key) then
      var row := t.held.squeaks[h];
      var saved := WithKey(store.node, row, key.value, t.writesLeft);
      Ending(if CanSaveKey(store.node, row, key.value, t.writesLeft) then Returned(()) else Raised,
             Turn(t.held.(squeaks := t.held.squeaks[h := saved.0]), saved.1))
    else if key.Failed? then
      Ending(Raised, t)
    else if HasLiveOffer(t.held.offers, h, peer, nowMs) || offer.Missing? then
      Ending(Returned(()), t)
    else if offer.Failed? || offer.value.offer.squeakHash != t.held.squeaks[h].squeak.hash || t.writesLeft == 0 then
      Ending(Raised, t)
    else
      Ending(Returned(()), Turn(TakeOffer(t.held, h, peer, offer.value, nowMs), t.writesLeft - 1))
  }

  /** The first loop, over the first `n` hashes; what raises ends it. */
  function SqueakLoop(store: SqueakStore, t: Turn, hashes: seq<Hash>, f: Filter, peer: Peer, nowMs: nat, n: nat): Ending
    requires n <= |hashes|
  {
    if n == 0 then Ending(Returned(()), t)
    else
      var e := SqueakLoop(store, t, hashes, f, peer, nowMs, n - 1);
      if e.r.Raised? then e else SqueakStep(store, e.turn, hashes[n - 1], f, peer.squeakAt(n - 1), nowMs)
  }

  /** The second loop, likewise. */
  function KeyLoop(store: SqueakStore, t: Turn, hashes: seq<Hash>, peer: Peer, nowMs: nat, n: nat): Ending
    requires store.node.primitives.group.order > 0 && n <= |hashes|
  {
    if n == 0 then Ending(Returned(()), t)
    else
      var e := KeyLoop(store, t, hashes, peer, nowMs, n - 1);
      if e.r.Raised? then e
      else KeyStep(store, e.turn, hashes[n - 1], peer.address, peer.keyAt(n - 1), peer.offerAt(n - 1), nowMs)
  }

  function PeerRun(store: SqueakStore, t: Turn, f: Filter, peer: Peer, nowMs: nat): Ending
    requires store.node.primitives.group.order > 0
  {
    if !peer.lookup.Got? then Ending(Raised, t)
    else
      var hashes := peer.lookup.value;
      var e := SqueakLoop(store, t, hashes, f, peer, nowMs, |hashes|);
      if e.r.Raised? then e else KeyLoop(store, e.turn, hashes, peer, nowMs, |hashes|)
  }

  lemma {:induction false} SqueakLoopStops(
      store: SqueakStore, t: Turn, hashes: seq<Hash>, f: Filter, peer: Peer, nowMs: nat, i: nat, n: nat)
    requires i <= n <= |hashes| && SqueakLoop(store, t, hashes, f, peer, nowMs, i).r.Raised?
    ensures SqueakLoop(store, t, hashes, f, peer, nowMs, n) == SqueakLoop(store, t, hashes, f, peer, nowMs, i)
  {
    if i < n {
      SqueakLoopStops(store, t, hashes, f, peer, nowMs, i, n - 1);
    }
  }

  lemma {:induction false} KeyLoopStops(store: SqueakStore, t: Turn, hashes: seq<Hash>, peer: Peer, nowMs: nat, i: nat, n: nat)
    requires store.node.primitives.group.order > 0
    requires i <= n <= |hashes| && KeyLoop(store, t, hashes, peer, nowMs, i).r.Raised?
    ensures KeyLoop(store, t, hashes, peer, nowMs, n) == KeyLoop(store, t, hashes, peer, nowMs, i)
  {
    if i < n {
      KeyLoopStops(store, t, hashes, peer, nowMs, i, n - 1);
    }
  }

  lemma NextSqueak(store: SqueakStore, t: Turn, was: Turn, hashes: seq<Hash>, f: Filter, peer: Peer, nowMs: nat, i: nat)
    requires i < |hashes| && SqueakLoop(store, t, hashes, f, peer, nowMs, i) == Ending(Returned(()), was)
    ensures var e := SqueakStep(store, was, hashes[i], f, peer.squeakAt(i), nowMs);
            && SqueakLoop(store, t, hashes, f, peer, nowMs, i + 1) == e
            && (e.r.Raised? ==> SqueakLoop(store, t, hashes, f, peer, nowMs, |hashes|) == e)
  {
    if SqueakLoop(store, t, hashes, f, peer, nowMs, i + 1).r.Raised? {
      SqueakLoopStops(store, t, hashes, f, peer, nowMs, i + 1, |hashes|);
    }
  }

  lemma NextKey(store: SqueakStore, t: Turn, was: Turn, hashes: seq<Hash>, peer: Peer, nowMs: nat, i: nat)
    requires store.node.primitives.group.order > 0
    requires i < |hashes| && KeyLoop(store, t, hashes, peer, nowMs, i) == Ending(Returned(()), was)
    ensures var e := KeyStep(store, was, hashes[i], peer.address, peer.keyAt(i), peer.offerAt(i), nowMs);
            && KeyLoop(store, t, hashes, peer, nowMs, i + 1) == e
            && (e.r.Raised? ==> KeyLoop(store, t, hashes, peer, nowMs, |hashes|) == e)
  {
    if KeyLoop(store, t, hashes, peer, nowMs, i + 1).r.Raised? {
      KeyLoopStops(store, t, hashes, peer, nowMs, i + 1, |hashes|);
    }
  }

  // ----- What a run takes and keeps -----
  ghost predicate SqueaksKeyed(squeaks: map<Hash, SqueakRow>) {
    forall h :: h in squeaks ==> squeaks[h].squeak.hash == h
  }

  /** Every squeak gained was asked for, valid and within the filter; what was held before stays, and its key with it. */
  ghost predicate OnlyWanted(node: Node, was: map<Hash, SqueakRow>, now: map<Hash, SqueakRow>, wanted: seq<Hash>, f: Filter) {
    && (forall h :: h in was ==> h in now && now[h].squeak == was[h].squeak && now[h].createdMs == was[h].createdMs)
    && (forall h :: h in was && HasKey(was, h) ==> now[h] == was[h])
    && (forall h :: h in now && h !in was ==>
          h in wanted && Accepts(f, now[h].squeak.author, now[h].squeak.blockHeight) && IsAcceptable(node, now[h].squeak))
  }

  ghost predicate OffersKept(was: map<Hash, ReceivedOfferRow>, now: map<Hash, ReceivedOfferRow>) {
    forall p :: p in was ==> p in now && now[p] == was[p]
  }

  /**
   Only wanted squeaks were gained, no key was replaced, no offer went, and no squeak has two live offers from one
   peer unless one had before.
   */
  ghost predicate OnlyGains(node: Node, was: Held, now: Held, wanted: seq<Hash>, f: Filter, nowMs: nat) {
    && OnlyWanted(node, was.squeaks, now.squeaks, wanted, f) && SqueaksKeyed(now.squeaks)
    && OffersKept(was.offers, now.offers)
    && (OneLiveOffer(was.offers, nowMs) ==> OneLiveOffer(now.offers, nowMs))
  }

  lemma GainsChain(node: Node, a: Held, b: Held, c: Held, some: seq<Hash>, wanted: seq<Hash>, f: Filter, nowMs: nat)
    requires OnlyGains(node, a, b, wanted, f, nowMs) && OnlyGains(node, b, c, some, f, nowMs)
    requires forall h :: h in some ==> h in wanted
    ensures OnlyGains(node, a, c, wanted, f, nowMs)
  {
  }

  lemma SqueakStepGains(store: SqueakStore, t: Turn, h: Hash, f: Filter, answer: Answer<Squeak>, nowMs: nat)
    requires SqueaksKeyed(t.held.squeaks)
    ensures var e := SqueakStep(store, t, h, f, answer, nowMs);
            && OnlyGains(store.node, t.held, e.turn.held, [h], f, nowMs) && e.turn.held.offers == t.held.offers
            && t.writesLeft - 1 <= e.turn.writesLeft <= t.writesLeft
  {
  }

  lemma {:induction false} SqueakLoopGains(store: SqueakStore, t: Turn, hashes: seq<Hash>, f: Filter, peer: Peer, nowMs: nat, n: nat)
    requires n <= |hashes| && SqueaksKeyed(t.held.squeaks)
    ensures var e := SqueakLoop(store, t, hashes, f, peer, nowMs, n);
            && OnlyGains(store.node, t.held, e.turn.held, hashes, f, nowMs) && e.turn.held.offers == t.held.offers
            && t.writesLeft - n <= e.turn.writesLeft <= t.writesLeft
            && (e.r.Returned? ==> e.turn.held == FetchSqueaks(t.held, hashes, f, peer, nowMs, n))
  {
    if n > 0 {
      var was := SqueakLoop(store, t, hashes, f, peer, nowMs, n - 1).turn;
      var now := SqueakStep(store, was, hashes[n - 1], f, peer.squeakAt(n - 1), nowMs).turn;
      SqueakLoopGains(store, t, hashes, f, peer, nowMs, n - 1);
      SqueakStepGains(store, was, hashes[n - 1], f, peer.squeakAt(n - 1), nowMs);
      GainsChain(store.node, t.held, was.held, now.held, [hashes[n - 1]], hashes, f, nowMs);
    }
  }

  lemma KeyStepGains(
      store: SqueakStore, t: Turn, h: Hash, peer: PeerAddress, key: Answer<Bytes>, offer: Answer<PricedOffer>, f: Filter, nowMs: nat)
    requires store.node.primitives.group.order > 0 && SqueaksKeyed(t.held.squeaks)
    ensures var e := KeyStep(store, t, h, peer, key, offer, nowMs);
            && OnlyGains(store.node, t.held, e.turn.held, [], f, nowMs) && e.turn.held.squeaks.Keys == t.held.squeaks.Keys
            && t.writesLeft - 2 <= e.turn.writesLeft <= t.writesLeft
            && (e.r.Returned? ==> e.turn.held == FetchKey(store.node, t.held, h, peer, key, offer, nowMs))
  {
    if h in t.held.squeaks && !HasKey(t.held.squeaks, h) && IsUsableKey(key) {
      KeySavedGains(store, t, h, key.value, f, nowMs);
    } else if KeyStep(store, t, h, peer, key, offer, nowMs).turn != t {
      OfferTakenGains(store.node, t.held, h, peer, offer.value, f, nowMs);
    }
  }

  lemma KeySavedGains(store: SqueakStore, t: Turn, h: Hash, key: Bytes, f: Filter, nowMs: nat)
    requires store.node.primitives.group.order > 0 && SqueaksKeyed(t.held.squeaks)
    requires h in t.held.squeaks && !HasKey(t.held.squeaks, h)
    ensures var saved := WithKey(store.node, t.held.squeaks[h], key, t.writesLeft);
            OnlyGains(store.node, t.held, t.held.(squeaks := t.held.squeaks[h := saved.0]), [], f, nowMs)
  {
  }

  /** An offer that is stored while no other is live is the only live one of its squeak and peer. */
  lemma OfferTakenGains(node: Node, held: Held, h: Hash, peer: PeerAddress, offer: PricedOffer, f: Filter, nowMs: nat)
    requires SqueaksKeyed(held.squeaks) && h in held.squeaks && !HasLiveOffer(held.offers, h, peer, nowMs)
    ensures OnlyGains(node, held, TakeOffer(held, h, peer, offer, nowMs), [], f, nowMs)
  {
  }

  lemma {:induction false} KeyLoopGains(
      store: SqueakStore, t: Turn, hashes: seq<Hash>, peer: Peer, f: Filter, nowMs: nat, n: nat)
    requires store.node.primitives.group.order > 0 && n <= |hashes| && SqueaksKeyed(t.held.squeaks)
    ensures var e := KeyLoop(store, t, hashes, peer, nowMs, n);
            && OnlyGains(store.node, t.held, e.turn.held, [], f, nowMs) && e.turn.held.squeaks.Keys == t.held.squeaks.Keys
            && t.writesLeft - 2 * n <= e.turn.writesLeft <= t.writesLeft
            && (e.r.Returned? ==> e.turn.held == FetchKeys(store.node, t.held, hashes, peer, nowMs, n))
  {
    if n > 0 {
      var was := KeyLoop(store, t, hashes, peer, nowMs, n - 1).turn;
      var now := KeyStep(store, was, hashes[n - 1], peer.address, peer.keyAt(n - 1), peer.offerAt(n - 1), nowMs).turn;
      KeyLoopGains(store, t, hashes, peer, f, nowMs, n - 1);
      KeyStepGains(store, was, hashes[n - 1], peer.address, peer.keyAt(n - 1), peer.offerAt(n - 1), f, nowMs);
      GainsChain(store.node, t.held, was.held, now.held, [], [], f, nowMs);
    }
  }

  /**
   However a run ends: it has gained only what was wanted, lost nothing, and taken at most three writes for each
   listed hash. A run that returns has fetched all there was to fetch.
   */
  lemma RunGains(store: SqueakStore, t: Turn, f: Filter, peer: Peer, nowMs: nat)
    requires store.node.primitives.group.order > 0 && SqueaksKeyed(t.held.squeaks)
    ensures var e := PeerRun(store, t, f, peer, nowMs);
            && OnlyGains(store.node, t.held, e.turn.held, ListingOf(peer), f, nowMs)
            && t.writesLeft - 3 * |ListingOf(peer)| <= e.turn.writesLeft <= t.writesLeft
            && (e.r.Returned? ==> peer.lookup.Got? && e.turn.held == Download(store.node, t.held, f, peer, nowMs))
  {
    if peer.lookup.Got? {
      var hashes := peer.lookup.value;
      var between := SqueakLoop(store, t, hashes, f, peer, nowMs, |hashes|).turn;
      var now := KeyLoop(store, between, hashes, peer, nowMs, |hashes|).turn;
      SqueakLoopGains(store, t, hashes, f, peer, nowMs, |hashes|);
      KeyLoopGains(store, between, hashes, peer, f, nowMs, |hashes|);
      GainsChain(store.node, t.held, between.held, now.held, [], hashes, f, nowMs);
    }
  }

  function ListingOf(peer: Peer): seq<Hash> {
    if peer.lookup.Got? then peer.lookup.value else []
  }

  // ----- When a run does not raise -----
  predicate CanFetchSqueak(node: Node, h: Hash, f: Filter, answer: Answer<Squeak>) {
    && !answer.Failed?
    && (answer.Got? && answer.value.hash == h && Accepts(f, answer.value.author, answer.value.blockHeight) ==>
          IsAcceptable(node, answer.value))
  }

  /** A usable key opens the squeak, and unlocks it unless it is private; an offer is for the squeak it was asked for. */
  predicate CanFetchKey(node: Node, squeak: Squeak, h: Hash, key: Answer<Bytes>, offer: Answer<PricedOffer>)
    requires node.primitives.group.order > 0
  {
    && !key.Failed? && !offer.Failed?
    && (IsUsableKey(key) ==>
          && AcceptsKey(node.primitives, squeak, key.value)
          && (squeak.recipient.None? ==> node.decrypt(squeak, key.value, Anyone).Some?))
    && (offer.Got? ==> offer.value.offer.squeakHash == h)
  }

  function Listed(hashes: seq<Hash>): set<Hash> {
    set h | h in hashes
  }

  /** The listed hashes whose squeaks, as the peer answers them, are by one author at one height. */
  function ListedBy(hashes: seq<Hash>, peer: Peer, author: Bytes, height: int): set<Hash> {
    set n | 0 <= n < |hashes| && peer.squeakAt(n).Got?
            && peer.squeakAt(n).value.author == author && peer.squeakAt(n).value.blockHeight == height :: hashes[n]
  }

  /** Stored and listed squeaks together fit both limits. */
  ghost predicate HasRoomForAll(squeaks: map<Hash, SqueakRow>, hashes: seq<Hash>, peer: Peer, maxSqueaks: nat, maxPerGroup: nat) {
    && |squeaks.Keys + Listed(hashes)| <= maxSqueaks
    && forall author, height :: |SqueaksBy(squeaks, author, height) + ListedBy(hashes, peer, author, height)| <= maxPerGroup
  }

  ghost predicate CanFetchSqueaks(node: Node, hashes: seq<Hash>, f: Filter, peer: Peer) {
    forall n :: 0 <= n < |hashes| ==> CanFetchSqueak(node, hashes[n], f, peer.squeakAt(n))
  }

  ghost predicate CanFetchKeys(node: Node, squeaks: map<Hash, SqueakRow>, hashes: seq<Hash>, peer: Peer)
    requires node.primitives.group.order > 0
  {
    forall n :: 0 <= n < |hashes| && hashes[n] in squeaks ==>
      CanFetchKey(node, squeaks[hashes[n]].squeak, hashes[n], peer.keyAt(n), peer.offerAt(n))
  }

  /** The peer answers, its answers pass every check, there is room for all of them, and the writes are enough. */
  ghost predicate WillFinish(
      node: Node, held: Held, f: Filter, peer: Peer, nowMs: nat, maxSqueaks: nat, maxPerGroup: nat, writesLeft: nat)
    requires node.primitives.group.order > 0
  {
    && peer.lookup.Got?
    && var hashes := peer.lookup.value;
       && CanFetchSqueaks(node, hashes, f, peer)
       && CanFetchKeys(node, FetchSqueaks(held, hashes, f, peer, nowMs, |hashes|).squeaks, hashes, peer)
       && HasRoomForAll(held.squeaks, hashes, peer, maxSqueaks, maxPerGroup)
       && writesLeft >= 3 * |hashes|
  }

  /** Every squeak gained is one that the peer answered for its hash. */
  ghost predicate GainedFrom(was: map<Hash, SqueakRow>, now: map<Hash, SqueakRow>, hashes: seq<Hash>, peer: Peer) {
    forall h :: h in now ==> (h in was && now[h].squeak == was[h].squeak) || IsAnswered(hashes, peer, h, now[h].squeak)
  }

  ghost predicate IsAnswered(hashes: seq<Hash>, peer: Peer, h: Hash, squeak: Squeak) {
    exists n :: 0 <= n < |hashes| && hashes[n] == h && peer.squeakAt(n) == Got(squeak)
  }

  /** A listed squeak that is not yet stored leaves its place in the totals. */
  lemma RoomForNext(
      was: map<Hash, SqueakRow>, now: map<Hash, SqueakRow>, hashes: seq<Hash>, peer: Peer, maxSqueaks: nat, maxPerGroup: nat, n: nat)
    requires HasRoomForAll(was, hashes, peer, maxSqueaks, maxPerGroup) && GainedFrom(was, now, hashes, peer)
    requires n < |hashes| && hashes[n] !in now && peer.squeakAt(n).Got?
    ensures var squeak := peer.squeakAt(n).value;
            |now| < maxSqueaks && |SqueaksBy(now, squeak.author, squeak.blockHeight)| < maxPerGroup
  {
    var h, squeak := hashes[n], peer.squeakAt(n).value;
    assert now.Keys <= was.Keys + Listed(hashes) by {
      forall g | g in now ensures g in was.Keys + Listed(hashes) {
        assert g in was || IsAnswered(hashes, peer, g, now[g].squeak);
      }
    }
    OneMore(now.Keys, h, was.Keys + Listed(hashes));
    GroupIsListed(was, now, hashes, peer, squeak.author, squeak.blockHeight);
    OneMore(SqueaksBy(now, squeak.author, squeak.blockHeight), h,
            SqueaksBy(was, squeak.author, squeak.blockHeight) + ListedBy(hashes, peer, squeak.author, squeak.blockHeight));
  }

  lemma OneMore(some: set<Hash>, h: Hash, all: set<Hash>)
    requires some <= all && h in all && h !in some
    ensures |some| < |all|
  {
    SubsetSize(some + {h}, all);
    assert |some + {h}| == |some| + 1;
  }

  lemma GroupIsListed(was: map<Hash, SqueakRow>, now: map<Hash, SqueakRow>, hashes: seq<Hash>, peer: Peer, author: Bytes, height: int)
    requires GainedFrom(was, now, hashes, peer)
    ensures SqueaksBy(now, author, height) <= SqueaksBy(was, author, height) + ListedBy(hashes, peer, author, height)
  {
    forall g | g in SqueaksBy(now, author, height)
      ensures g in SqueaksBy(was, author, height) + ListedBy(hashes, peer, author, height)
    {
      assert g in was || IsAnswered(hashes, peer, g, now[g].squeak);
    }
  }

  /** The first loop has returned so far, and left enough writes. */
  ghost predicate GoesOn(was: map<Hash, SqueakRow>, e: Ending, hashes: seq<Hash>, peer: Peer, writesLeft: int) {
    e.r.Returned? && e.turn.writesLeft >= writesLeft && GainedFrom(was, e.turn.held.squeaks, hashes, peer)
  }

  /** With room for all, the next squeak is fetched. */
  lemma SqueakStepGoesOn(
      store: SqueakStore, start: map<Hash, SqueakRow>, was: Ending, hashes: seq<Hash>, f: Filter, peer: Peer, nowMs: nat, n: nat,
      writesLeft: nat)
    requires n < |hashes| && CanFetchSqueak(store.node, hashes[n], f, peer.squeakAt(n))
    requires HasRoomForAll(start, hashes, peer, store.maxSqueaks, store.maxSqueaksPerPublicKeyPerBlock)
    requires writesLeft > 0 && GoesOn(start, was, hashes, peer, writesLeft)
    ensures GoesOn(start, SqueakStep(store, was.turn, hashes[n], f, peer.squeakAt(n), nowMs), hashes, peer, writesLeft - 1)
  {
    if IsWanted(was.turn.held.squeaks, hashes[n], f, peer.squeakAt(n)) {
      RoomForNext(start, was.turn.held.squeaks, hashes, peer, store.maxSqueaks, store.maxSqueaksPerPublicKeyPerBlock, n);
      assert IsAnswered(hashes, peer, hashes[n], peer.squeakAt(n).value);
    }
  }

  /** Whatever has been gained from the peer so far, the next squeak is fetched. */
  ghost predicate StepsGoOn(store: SqueakStore, start: map<Hash, SqueakRow>, hashes: seq<Hash>, f: Filter, peer: Peer, nowMs: nat) {
    forall i, e, w :: 0 <= i < |hashes| && w > 0 && GoesOn(start, e, hashes, peer, w) ==>
      GoesOn(start, SqueakStep(store, e.turn, hashes[i], f, peer.squeakAt(i), nowMs), hashes, peer, w - 1)
  }

  lemma RoomMeansGoingOn(store: SqueakStore, start: map<Hash, SqueakRow>, hashes: seq<Hash>, f: Filter, peer: Peer, nowMs: nat)
    requires CanFetchSqueaks(store.node, hashes, f, peer)
    requires HasRoomForAll(start, hashes, peer, store.maxSqueaks, store.maxSqueaksPerPublicKeyPerBlock)
    ensures StepsGoOn(store, start, hashes, f, peer, nowMs)
  {
    forall i: nat, e, w: nat | i < |hashes| && w > 0 && GoesOn(start, e, hashes, peer, w)
      ensures GoesOn(start, SqueakStep(store, e.turn, hashes[i], f, peer.squeakAt(i), nowMs), hashes, peer, w - 1)
    {
      assert CanFetchSqueak(store.node, hashes[i], f, peer.squeakAt(i));
      SqueakStepGoesOn(store, start, e, hashes, f, peer, nowMs, i, w);
    }
  }

  lemma {:induction false} SqueakLoopGoesOn(store: SqueakStore, t: Turn, hashes: seq<Hash>, f: Filter, peer: Peer, nowMs: nat, n: nat)
    requires n <= |hashes| <= t.writesLeft && StepsGoOn(store, t.held.squeaks, hashes, f, peer, nowMs)
    ensures GoesOn(t.held.squeaks, SqueakLoop(store, t, hashes, f, peer, nowMs, n), hashes, peer, t.writesLeft - n)
  {
    if n > 0 {
      SqueakLoopGoesOn(store, t, hashes, f, peer, nowMs, n - 1);
      var was := SqueakLoop(store, t, hashes, f, peer, nowMs, n - 1);
      assert GoesOn(t.held.squeaks, SqueakStep(store, was.turn, hashes[n - 1], f, peer.squeakAt(n - 1), nowMs), hashes, peer, t.writesLeft - n);
    }
  }

  lemma {:induction false} KeyLoopReturns(store: SqueakStore, t: Turn, hashes: seq<Hash>, peer: Peer, nowMs: nat, n: nat)
    requires store.node.primitives.group.order > 0 && SqueaksKeyed(t.held.squeaks)
    requires n <= |hashes| && 2 * |hashes| <= t.writesLeft && CanFetchKeys(store.node, t.held.squeaks, hashes, peer)
    ensures KeyLoop(store, t, hashes, peer, nowMs, n).r.Returned?
  {
    if n > 0 {
      var was := KeyLoop(store, t, hashes, peer, nowMs, n - 1).turn;
      KeyLoopReturns(store, t, hashes, peer, nowMs, n - 1);
      assert HasSameSqueaks(t.held.squeaks, was.held.squeaks) && was.writesLeft >= 2 by {
        KeyLoopGains(store, t, hashes, peer, NO_FILTER, nowMs, n - 1);
      }
      KeyStepReturns(store, t, was, hashes, peer, nowMs, n - 1);
    }
  }

  ghost predicate HasSameSqueaks(was: map<Hash, SqueakRow>, now: map<Hash, SqueakRow>) {
    now.Keys == was.Keys && forall h :: h in was ==> now[h].squeak == was[h].squeak
  }

  lemma KeyStepReturns(store: SqueakStore, t: Turn, was: Turn, hashes: seq<Hash>, peer: Peer, nowMs: nat, n: nat)
    requires store.node.primitives.group.order > 0 && SqueaksKeyed(t.held.squeaks)
    requires n < |hashes| && CanFetchKeys(store.node, t.held.squeaks, hashes, peer)
    requires HasSameSqueaks(t.held.squeaks, was.held.squeaks) && was.writesLeft >= 2
    ensures KeyStep(store, was, hashes[n], peer.address, peer.keyAt(n), peer.offerAt(n), nowMs).r.Returned?
  {
    var h := hashes[n];
    if h in t.held.squeaks {
      assert CanFetchKey(store.node, t.held.squeaks[h].squeak, h, peer.keyAt(n), peer.offerAt(n));
    }
  }

  lemma WillFinishIsEnough(store: SqueakStore, t: Turn, f: Filter, peer: Peer, nowMs: nat)
    requires store.node.primitives.group.order > 0 && SqueaksKeyed(t.held.squeaks)
    requires WillFinish(store.node, t.held, f, peer, nowMs, store.maxSqueaks, store.maxSqueaksPerPublicKeyPerBlock, t.writesLeft)
    ensures PeerRun(store, t, f, peer, nowMs).r.Returned?
  {
    var hashes := peer.lookup.value;
    var between := SqueakLoop(store, t, hashes, f, peer, nowMs, |hashes|).turn;
    RoomMeansGoingOn(store, t.held.squeaks, hashes, f, peer, nowMs);
    SqueakLoopGoesOn(store, t, hashes, f, peer, nowMs, |hashes|);
    SqueakLoopGains(store, t, hashes, f, peer, nowMs, |hashes|);
    KeyLoopReturns(store, between, hashes, peer, nowMs, |hashes|);
  }

  // ----- Downloader -----
  class PeerDownloader {
    const store: SqueakStore
    const peer: Peer

    constructor (store: SqueakStore, peer: Peer)
      ensures this.store == store && this.peer == peer
    {
      this.store, this.peer := store, peer;
    }

    ghost function TheHeld(): Held
      reads store.db
    {
      TurnOf(store).held
    }

    ghost function TheTurn(): Turn
      reads store.db
    {
      TurnOf(store)
    }

    /** The squeak is stored and its key is not. */
    ghost predicate NeedsKey(h: Hash)
      reads store.db
    {
      h in store.db.squeaks && (store.db.squeaks[h].secretKey == None || store.db.squeaks[h].secretKey == Some([]))
    }

    method DownloadSqueak(n: nat, h: Hash, f: Filter) returns (r: Outcome<()>)
      requires store.Sane()
      modifies store.db`writesLeft, store.db`squeaks
      ensures store.Sane()
      ensures Ending(r, TheTurn()) == SqueakStep(store, old(TheTurn()), h, f, peer.squeakAt(n), store.db.nowMs)
      ensures OnlyWanted(store.node, old(store.db.squeaks), store.db.squeaks, [h], f)
    {
      SqueakStepGains(store, TheTurn(), h, f, peer.squeakAt(n), store.db.nowMs);
      if h in store.db.squeaks {
        return Returned(());
      }
      var answer := peer.squeakAt(n);
      if answer.Failed? {
        return Raised;
      }
      if answer.Missing? {
        return Returned(());
      }
      var squeak := answer.value;
      if squeak.hash != h {
        return Returned(());
      }
      if Restricts(f.minBlock) && squeak.blockHeight < f.minBlock.value {
        return Returned(());
      }
      if Restricts(f.maxBlock) && squeak.blockHeight > f.maxBlock.value {
        return Returned(());
      }
      if f.pubkeys.Some? && f.pubkeys.value != [] && squeak.author !in f.pubkeys.value {
        return Returned(());
      }
      assert Accepts(f, squeak.author, squeak.blockHeight);
      ghost var was := TheHeld();
      var saved := store.SaveSqueak(squeak);
      if saved.Raised? {
        return Raised;
      }
      assert store.db.squeaks == FetchSqueak(was, h, f, answer, store.db.nowMs).squeaks;
      return Returned(());
    }

    method DownloadSecretKey(n: nat, h: Hash) returns (r: Outcome<()>)
      requires store.Sane()
      modifies store.db`writesLeft, store.db`squeaks, store.db`receivedOffers
      ensures store.Sane()
      ensures Ending(r, TheTurn())
           == KeyStep(store, old(TheTurn()), h, peer.address, peer.keyAt(n), peer.offerAt(n), store.db.nowMs)
      ensures forall f :: OnlyGains(store.node, old(TheHeld()), TheHeld(), [], f, store.db.nowMs)
      ensures old(NeedsKey(h)) && peer.keyAt(n) == Missing && peer.offerAt(n).Got? ==>
                var got := peer.offerAt(n).value;
                var p := got.payReq.paymentHash;
                if old(HasOpenOffer(store.db.receivedOffers, h, peer.address, store.db.nowMs)) then
                  r.Returned? && store.db.receivedOffers == old(store.db.receivedOffers)
                else if got.offer.squeakHash != h || old(store.db.writesLeft) == 0 then
                  r.Raised? && store.db.receivedOffers == old(store.db.receivedOffers)
                else
                  && r.Returned? && p in store.db.receivedOffers
                  && (p !in old(store.db.receivedOffers) ==>
                        var row := store.db.receivedOffers[p];
                        && row.createdMs == store.db.nowMs && row.offer.squeakHash == h && row.offer.paymentHash == p
                        && row.offer.peerAddress == peer.address && row.offer.priceMsat == got.payReq.numMsat
                        && row.offer.nonce == got.offer.nonce && row.offer.paymentRequest == got.offer.paymentRequest
                        && row.offer.invoiceTimestamp == got.payReq.timestamp && row.offer.invoiceExpiry == got.payReq.expiry
                        && !row.offer.paid)
    {
      ghost var start := TheTurn();
      ghost var now := KeyStep(store, start, h, peer.address, peer.keyAt(n), peer.offerAt(n), store.db.nowMs).turn.held;
      forall f ensures OnlyGains(store.node, start.held, now, [], f, store.db.nowMs) {
        KeyStepGains(store, start, h, peer.address, peer.keyAt(n), peer.offerAt(n), f, store.db.nowMs);
      }
      if h !in store.db.squeaks {
        return Returned(());
      }
      if HasKey(store.db.squeaks, h) {
        return Returned(());
      }
      var key := peer.keyAt(n);
      if key.Failed? {
        return Raised;
      }
      if IsUsableKey(key) {
        var saved := store.SaveSecretKey(h, key.value);
        return if saved.Raised? then Raised else Returned(());
      }
      if HasLiveOffer(store.db.receivedOffers, h, peer.address, store.db.nowMs) {
        return Returned(());
      }
      var answer := peer.offerAt(n);
      if answer.Failed? {
        return Raised;
      }
      if answer.Missing? {
        return Returned(());
      }
      var handled := store.HandleOffer(store.db.squeaks[h].squeak, answer.value.offer, answer.value.payReq, peer.address);
      return if handled.Raised? then Raised else Returned(());
    }

    /**
     A whole run ends as `PeerRun` says. Whatever the peer answered and wherever the run stopped: only squeaks that were
     asked for and lie within the filter were added, each valid for its block; keys were added, never replaced, and
     each passed the key check (`Sane`); no offer went; and no squeak has two live offers from one peer. A run that
     returns amounts to `Download`.
     */
    method DownloadInterestRange(minBlock: int, maxBlock: int, pubkeys: seq<Bytes>) returns (r: Outcome<()>)
      requires store.Sane()
      modifies store.db`writesLeft, store.db`squeaks, store.db`receivedOffers
      ensures store.Sane()
      ensures Ending(r, TheTurn())
           == PeerRun(store, old(TheTurn()), Filter(Some(minBlock), Some(maxBlock), Some(pubkeys)), peer, store.db.nowMs)
      ensures OnlyGains(store.node, old(TheHeld()), TheHeld(), ListingOf(peer),
                        Filter(Some(minBlock), Some(maxBlock), Some(pubkeys)), store.db.nowMs)
      ensures r.Returned? ==>
                && peer.lookup.Got?
                && TheHeld() == Download(store.node, old(TheHeld()), Filter(Some(minBlock), Some(maxBlock), Some(pubkeys)),
                                         peer, store.db.nowMs)
      ensures old(WillFinish(store.node, TheHeld(), Filter(Some(minBlock), Some(maxBlock), Some(pubkeys)), peer, store.db.nowMs,
                             store.maxSqueaks, store.maxSqueaksPerPublicKeyPerBlock, store.db.writesLeft)) ==>
                r.Returned?
    {
      var f := Filter(Some(minBlock), Some(maxBlock), Some(pubkeys));
      RunGains(store, TheTurn(), f, peer, store.db.nowMs);
      if WillFinish(store.node, TheHeld(), f, peer, store.db.nowMs, store.maxSqueaks, store.maxSqueaksPerPublicKeyPerBlock,
                    store.db.writesLeft) {
        WillFinishIsEnough(store, TheTurn(), f, peer, store.db.nowMs);
      }
      if !peer.lookup.Got? {
        return Raised;
      }
      r := DownloadSqueaks(peer.lookup.value, f);
      if r.Raised? {
        return;
      }
      r := DownloadSecretKeys(peer.lookup.value);
    }

    /** The first loop of a run. */
    method DownloadSqueaks(hashes: seq<Hash>, f: Filter) returns (r: Outcome<()>)
      requires store.Sane()
      modifies store.db`writesLeft, store.db`squeaks
      ensures store.Sane()
      ensures Ending(r, TheTurn()) == SqueakLoop(store, old(TheTurn()), hashes, f, peer, store.db.nowMs, |hashes|)
    {
      ghost var start := TheTurn();
      for i := 0 to |hashes|
        invariant store.Sane()
        invariant Ending(Returned(()), TheTurn()) == SqueakLoop(store, start, hashes, f, peer, store.db.nowMs, i)
      {
        NextSqueak(store, start, TheTurn(), hashes, f, peer, store.db.nowMs, i);
        r := DownloadSqueak(i, hashes[i], f);
        if r.Raised? {
          return;
        }
      }
      return Returned(());
    }

    /** The second loop of a run. */
    method DownloadSecretKeys(hashes: seq<Hash>) returns (r: Outcome<()>)
      requires store.Sane()
      modifies store.db`writesLeft, store.db`squeaks, store.db`receivedOffers
      ensures store.Sane()
      ensures Ending(r, TheTurn()) == KeyLoop(store, old(TheTurn()), hashes, peer, store.db.nowMs, |hashes|)
    {
      ghost var start := TheTurn();
      for i := 0 to |hashes|
        invariant store.Sane()
        invariant Ending(Returned(()), TheTurn()) == KeyLoop(store, start, hashes, peer, store.db.nowMs, i)
      {
        NextKey(store, start, TheTurn(), hashes, peer, store.db.nowMs, i);
        r := DownloadSecretKey(i, hashes[i]);
        if r.Raised? {
          return;
        }
      }
      return Returned(());
    }

    /** The same for one hash and without a filter. */
    method DownloadSingleSqueak(h: Hash) returns (r: Outcome<()>)
      requires store.Sane()
      modifies store.db`writesLeft, store.db`squeaks, store.db`receivedOffers
      ensures store.Sane() && OnlyWanted(store.node, old(store.db.squeaks), store.db.squeaks, [h], NO_FILTER)
      ensures old(OneLiveOffer(store.db.receivedOffers, store.db.nowMs)) ==> OneLiveOffer(store.db.receivedOffers, store.db.nowMs)
      ensures var e := SqueakStep(store, old(TheTurn()), h, NO_FILTER, peer.squeakAt(0), store.db.nowMs);
              Ending(r, TheTurn())
              == if e.r.Raised? then e
                 else KeyStep(store, e.turn, h, peer.address, peer.keyAt(0), peer.offerAt(0), store.db.nowMs)
    {
      ghost var start := TheTurn();
      SqueakStepGains(store, start, h, NO_FILTER, peer.squeakAt(0), store.db.nowMs);
      r := DownloadSqueak(0, h, NO_FILTER);
      if r.Returned? {
        ghost var between := TheTurn();
        KeyStepGains(store, between, h, peer.address, peer.keyAt(0), peer.offerAt(0), NO_FILTER, store.db.nowMs);
        r := DownloadSecretKey(0, h);
        GainsChain(store.node, start.held, between.held, TheHeld(), [], [h], NO_FILTER, store.db.nowMs);
      }
    }
  }
}
