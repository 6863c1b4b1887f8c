/**
 Downloading the timeline from every peer that the node connects to by itself
 (`squeaknode/client/network_controller.py`, `download_timeline`), one peer after the other.
 */
module Timelines {
  import opened Basics
  import opened SqueakCore
  import opened SqueakDatabase
  import opened SqueakStorage
  import opened PeerDownloading
  import opened HonestPeers

  // ----- The runs against the peers -----

  /** What the runs against the first `n` peers leave; a run that raises ends alone. */
  function AfterPeers(store: SqueakStore, t: Turn, f: Filter, peers: seq<Peer>, nowMs: nat, n: nat): Turn
    requires store.node.primitives.group.order > 0 && n <= |peers|
  {
    if n == 0 then t else PeerRun(store, AfterPeers(store, t, f, peers, nowMs, n - 1), f, peers[n - 1], nowMs).turn
  }

  /** How the runs against the first `n` peers ended. */
  function OutcomesOf(store: SqueakStore, t: Turn, f: Filter, peers: seq<Peer>, nowMs: nat, n: nat): (r: seq<Outcome<()>>)
    requires store.node.primitives.group.order > 0 && n <= |peers|
    ensures |r| == n && forall k :: 0 <= k < n ==> r[k] == OutcomeOf(store, t, f, peers, nowMs, k)
  {
    if n == 0 then [] else OutcomesOf(store, t, f, peers, nowMs, n - 1) + [OutcomeOf(store, t, f, peers, nowMs, n - 1)]
  }

  function OutcomeOf(store: SqueakStore, t: Turn, f: Filter, peers: seq<Peer>, nowMs: nat, n: nat): Outcome<()>
    requires store.node.primitives.group.order > 0 && n < |peers|
  {
    PeerRun(store, AfterPeers(store, t, f, peers, nowMs, n), f, peers[n], nowMs).r
  }

  /** All hashes that some of these peers listed. */
  function ListingsOf(peers: seq<Peer>): seq<Hash> {
    if peers == [] then [] else ListingsOf(peers[..|peers| - 1]) + ListingOf(peers[|peers| - 1])
  }

  lemma {:induction false} ListingsHave(peers: seq<Peer>, i: nat, h: Hash)
    requires i < |peers| && h in ListingOf(peers[i])
    ensures h in ListingsOf(peers)
  {
    if i < |peers| - 1 {
      ListingsHave(peers[..|peers| - 1], i, h);
    }
  }

  /** From peer to peer nothing is lost and only what is wanted is gained. */
  lemma {:induction false} PeersGain(store: SqueakStore, t: Turn, f: Filter, peers: seq<Peer>, nowMs: nat, k: nat, n: nat)
    requires store.node.primitives.group.order > 0 && SqueaksKeyed(t.held.squeaks) && k <= n <= |peers|
    ensures OnlyGains(store.node, AfterPeers(store, t, f, peers, nowMs, k).held, AfterPeers(store, t, f, peers, nowMs, n).held,
                      ListingsOf(peers), f, nowMs)
  {
    if k < n {
      var was, now := AfterPeers(store, t, f, peers, nowMs, n - 1), AfterPeers(store, t, f, peers, nowMs, n);
      PeersGain(store, t, f, peers, nowMs, k, n - 1);
      RunGains(store, was, f, peers[n - 1], nowMs);
      forall h | h in ListingOf(peers[n - 1]) ensures h in ListingsOf(peers) {
        ListingsHave(peers, n - 1, h);
      }
      GainsChain(store.node, AfterPeers(store, t, f, peers, nowMs, k).held, was.held, now.held, ListingOf(peers[n - 1]),
                 ListingsOf(peers), f, nowMs);
    } else if n > 0 {
      PeersGain(store, t, f, peers, nowMs, 0, n - 1);
      RunGains(store, AfterPeers(store, t, f, peers, nowMs, n - 1), f, peers[n - 1], nowMs);
    }
  }

  /** The writes that are left cover what the peers asked so far have listed. */
  lemma {:induction false} WritesRemain(store: SqueakStore, t: Turn, f: Filter, peers: seq<Peer>, nowMs: nat, n: nat)
    requires store.node.primitives.group.order > 0 && SqueaksKeyed(t.held.squeaks) && n <= |peers|
    ensures AfterPeers(store, t, f, peers, nowMs, n).writesLeft >= t.writesLeft - 3 * |ListingsOf(peers[..n])|
  {
    if n > 0 {
      WritesRemain(store, t, f, peers, nowMs, n - 1);
      PeersGain(store, t, f, peers, nowMs, 0, n - 1);
      RunGains(store, AfterPeers(store, t, f, peers, nowMs, n - 1), f, peers[n - 1], nowMs);
      assert peers[..n][..n - 1] == peers[..n - 1];
    }
  }

  lemma {:induction false} SomeListings(peers: seq<Peer>, n: nat)
    requires n < |peers|
    ensures |ListingsOf(peers[..n])| + |ListingOf(peers[n])| <= |ListingsOf(peers)|
  {
    var front := peers[..|peers| - 1];
    if n < |front| {
      assert front[..n] == peers[..n];
      SomeListings(front, n);
    }
  }

  // ----- Honest peers -----

  /** What an honest peer holds, in the order of its rows, and what it asks for a key. */
  datatype Stock = Stock(squeaks: map<Hash, SqueakRow>, order: seq<Hash>, priceMsat: nat)

  /** What a timeline download asks for: a window of blocks, and the followed keys. */
  datatype Interest = Interest(minBlock: nat, maxBlock: nat, pubkeys: seq<Bytes>)

  function InterestFilter(i: Interest): Filter {
    RangeFilter(i.minBlock, i.maxBlock, i.pubkeys)
  }

  /** The peer answers honestly out of a sound stock. */
  ghost predicate IsHonestStock(node: Node, stock: Stock, i: Interest, peer: Peer, nowMs: nat)
    requires node.primitives.group.order > 0
  {
    && IsRowOrder(stock.order, stock.squeaks) && HasHeights(stock.squeaks) && IsSoundStock(node, stock.squeaks)
    && IsHonest(stock.squeaks, stock.priceMsat, nowMs, peer, LookupRoute(stock.squeaks, stock.order, i.minBlock, i.maxBlock, i.pubkeys))
  }

  /** Everything that makes a timeline download from one peer complete. */
  ghost predicate IsWellStocked(store: SqueakStore, stock: Stock, t: Turn, i: Interest, peer: Peer, nowMs: nat)
    requires store.node.primitives.group.order > 0
  {
    && i.pubkeys != [] && i.maxBlock != 0 && IsHonestStock(store.node, stock, i, peer, nowMs)
    && OffersAreNew(t.held.offers, peer, |ListingOf(peer)|) && SameSqueaks(t.held.squeaks, stock.squeaks)
    && HasRoomForSelected(t.held.squeaks, stock.squeaks, InterestFilter(i), store.maxSqueaks, store.maxSqueaksPerPublicKeyPerBlock)
    && t.writesLeft >= 3 * |ListingOf(peer)|
  }

  /** The peer's squeaks in the window are held, with their keys if the peer gives them away, or a live offer if it sells them. */
  ghost predicate HasCaughtUp(stock: Stock, was: Held, now: Held, f: Filter, peer: PeerAddress, nowMs: nat) {
    && Keeps(was, now)
    && forall h :: IsSelectedHash(stock.squeaks, f, h) ==>
         && IsSelectedHash(now.squeaks, f, h)
         && (HasKey(stock.squeaks, h) && stock.priceMsat == 0 ==> HasKey(now.squeaks, h))
         && (HasKey(stock.squeaks, h) && stock.priceMsat > 0 ==> HasKey(now.squeaks, h) || HasLiveOffer(now.offers, h, peer, nowMs))
  }

  lemma LiveOfferStays(was: Held, now: Held, h: Hash, peer: PeerAddress, nowMs: nat)
    requires OffersKept(was.offers, now.offers) && HasLiveOffer(was.offers, h, peer, nowMs)
    ensures HasLiveOffer(now.offers, h, peer, nowMs)
  {
    var p :| p in was.offers && IsLiveFor(was.offers[p], h, peer, nowMs);
    assert p in now.offers && IsLiveFor(now.offers[p], h, peer, nowMs);
  }

  lemma CaughtUpStays(stock: Stock, was: Held, before: Held, between: Held, now: Held, f: Filter, peer: PeerAddress, nowMs: nat)
    requires Keeps(was, before) && HasCaughtUp(stock, before, between, f, peer, nowMs) && Keeps(between, now)
    ensures HasCaughtUp(stock, was, now, f, peer, nowMs)
  {
    forall h | HasLiveOffer(between.offers, h, peer, nowMs) ensures HasLiveOffer(now.offers, h, peer, nowMs) {
      LiveOfferStays(between, now, h, peer, nowMs);
    }
  }

  /** A run against a well stocked peer returns, and has caught up with it. */
  lemma WellStockedIsServed(store: SqueakStore, stock: Stock, t: Turn, i: Interest, peer: Peer, nowMs: nat)
    requires store.node.primitives.group.order > 0 && SqueaksKeyed(t.held.squeaks)
    requires IsWellStocked(store, stock, t, i, peer, nowMs)
    ensures var e := PeerRun(store, t, InterestFilter(i), peer, nowMs);
            && e.r.Returned? && e.turn.held == Download(store.node, t.held, InterestFilter(i), peer, nowMs)
            && HasCaughtUp(stock, t.held, e.turn.held, InterestFilter(i), peer.address, nowMs)
  {
    var f := InterestFilter(i);
    var hashes := LookupRoute(stock.squeaks, stock.order, i.minBlock, i.maxBlock, i.pubkeys);
    assert forall h :: h in hashes <==> IsSelectedHash(stock.squeaks, f, h) by {
      RouteAgreesExactlyWhen(i.minBlock, i.maxBlock, i.pubkeys);
    }
    HonestRunFinishes(store.node, stock.squeaks, stock.priceMsat, t.held, hashes, f, peer, nowMs, store.maxSqueaks,
                      store.maxSqueaksPerPublicKeyPerBlock, t.writesLeft);
    WillFinishIsEnough(store, t, f, peer, nowMs);
    RunGains(store, t, f, peer, nowMs);
    HonestPeerConvergence(store.node, stock.squeaks, stock.order, stock.priceMsat, t.held, i.minBlock, i.maxBlock, i.pubkeys, peer, nowMs);
  }

  lemma PeersKeep(store: SqueakStore, t: Turn, f: Filter, peers: seq<Peer>, nowMs: nat, k: nat, n: nat)
    requires store.node.primitives.group.order > 0 && SqueaksKeyed(t.held.squeaks) && k <= n <= |peers|
    ensures SqueaksKeyed(AfterPeers(store, t, f, peers, nowMs, n).held.squeaks)
    ensures Keeps(AfterPeers(store, t, f, peers, nowMs, k).held, AfterPeers(store, t, f, peers, nowMs, n).held)
  {
    PeersGain(store, t, f, peers, nowMs, k, n);
  }

  /** What was held before the turn of peer `k` is held then, and what is held after it stays to the end. */
  lemma KeptAround(store: SqueakStore, t: Turn, f: Filter, peers: seq<Peer>, nowMs: nat, k: nat)
    requires store.node.primitives.group.order > 0 && SqueaksKeyed(t.held.squeaks) && k < |peers|
    ensures var before := AfterPeers(store, t, f, peers, nowMs, k);
            && SqueaksKeyed(before.held.squeaks) && Keeps(t.held, before.held)
            && Keeps(PeerRun(store, before, f, peers[k], nowMs).turn.held, AfterPeers(store, t, f, peers, nowMs, |peers|).held)
  {
    PeersKeep(store, t, f, peers, nowMs, 0, k);
    PeersKeep(store, t, f, peers, nowMs, k + 1, |peers|);
  }

  /**
   Whatever the other peers do: a peer that is well stocked when its turn comes is asked without failure, and by the
   end the node has caught up with it.
   */
  lemma ServedInTurn(store: SqueakStore, t: Turn, i: Interest, peers: seq<Peer>, nowMs: nat, k: nat, stock: Stock)
    requires store.node.primitives.group.order > 0 && SqueaksKeyed(t.held.squeaks) && k < |peers|
    requires IsWellStocked(store, stock, AfterPeers(store, t, InterestFilter(i), peers, nowMs, k), i, peers[k], nowMs)
    ensures OutcomeOf(store, t, InterestFilter(i), peers, nowMs, k).Returned?
    ensures HasCaughtUp(stock, t.held, AfterPeers(store, t, InterestFilter(i), peers, nowMs, |peers|).held, InterestFilter(i),
                        peers[k].address, nowMs)
  {
    var f := InterestFilter(i);
    KeptAround(store, t, f, peers, nowMs, k);
    ServedNow(store, t.held, AfterPeers(store, t, f, peers, nowMs, k), AfterPeers(store, t, f, peers, nowMs, |peers|).held, i, peers[k],
              nowMs, stock);
  }

  lemma ServedNow(store: SqueakStore, start: Held, t: Turn, now: Held, i: Interest, peer: Peer, nowMs: nat, stock: Stock)
    requires store.node.primitives.group.order > 0 && SqueaksKeyed(t.held.squeaks)
    requires IsWellStocked(store, stock, t, i, peer, nowMs)
    requires Keeps(start, t.held) && Keeps(PeerRun(store, t, InterestFilter(i), peer, nowMs).turn.held, now)
    ensures PeerRun(store, t, InterestFilter(i), peer, nowMs).r.Returned?
    ensures HasCaughtUp(stock, start, now, InterestFilter(i), peer.address, nowMs)
  {
    var f := InterestFilter(i);
    WellStockedIsServed(store, stock, t, i, peer, nowMs);
    CaughtUpStays(stock, start, t.held, PeerRun(store, t, f, peer, nowMs).turn.held, now, f, peer.address, nowMs);
  }

  // ----- All peers honest: what can be checked before the call -----

  /** The hashes that some stock selects, all of them, and those by one author at one height. */
  ghost function AllSelected(stocks: seq<Stock>, f: Filter): set<Hash> {
    set k, h | 0 <= k < |stocks| && h in stocks[k].squeaks && IsSelectedHash(stocks[k].squeaks, f, h) :: h
  }

  ghost function AllSelectedBy(stocks: seq<Stock>, f: Filter, author: Bytes, height: int): set<Hash> {
    set k, h | 0 <= k < |stocks| && h in stocks[k].squeaks && IsSelectedHash(stocks[k].squeaks, f, h)
               && stocks[k].squeaks[h].squeak.author == author && stocks[k].squeaks[h].squeak.blockHeight == height :: h
  }

  /** What is held and what any stock selects fit together, in the total and for each author and height. */
  ghost predicate HasRoomForStocks(squeaks: map<Hash, SqueakRow>, stocks: seq<Stock>, f: Filter, maxSqueaks: nat, maxPerGroup: nat) {
    && |squeaks.Keys + AllSelected(stocks, f)| <= maxSqueaks
    && forall author, height ::
         |SqueaksBy(squeaks, author, height) + AllSelectedBy(stocks, f, author, height)| <= maxPerGroup
  }

  ghost predicate IsOfferedAt(peer: Peer, n: nat, p: Hash) {
    n < |ListingOf(peer)| && peer.offerAt(n).Got? && peer.offerAt(n).value.payReq.paymentHash == p
  }

  /** Every invoice is new: none is known, and no two offers, of whichever peers, share a payment hash. */
  ghost predicate AllOffersAreNew(offers: map<Hash, ReceivedOfferRow>, peers: seq<Peer>) {
    && (forall k, n, p :: 0 <= k < |peers| && IsOfferedAt(peers[k], n, p) ==> p !in offers)
    && (forall k, n, j, m, p ::
          0 <= k < |peers| && 0 <= j < |peers| && IsOfferedAt(peers[k], n, p) && IsOfferedAt(peers[j], m, p) ==> k == j && n == m)
  }

  /**
   All of it can be checked before the call: every peer is honest with a sound stock, the stocks agree on what a hash
   names, with each other and with the node, all offers are new, everything selected fits, and the writes cover all
   listings.
   */
  ghost predicate CanServeAll(store: SqueakStore, stocks: seq<Stock>, t: Turn, i: Interest, peers: seq<Peer>, nowMs: nat)
    requires store.node.primitives.group.order > 0
  {
    && |stocks| == |peers| && i.pubkeys != [] && i.maxBlock != 0
    && (forall k :: 0 <= k < |peers| ==> IsHonestStock(store.node, stocks[k], i, peers[k], nowMs))
    && (forall j, k :: 0 <= j < |stocks| && 0 <= k < |stocks| ==> SameSqueaks(stocks[j].squeaks, stocks[k].squeaks))
    && (forall k :: 0 <= k < |stocks| ==> SameSqueaks(t.held.squeaks, stocks[k].squeaks))
    && AllOffersAreNew(t.held.offers, peers)
    && HasRoomForStocks(t.held.squeaks, stocks, InterestFilter(i), store.maxSqueaks, store.maxSqueaksPerPublicKeyPerBlock)
    && t.writesLeft >= 3 * |ListingsOf(peers)|
  }

  /** The squeak under this hash was held at the start, or some stock selects it. */
  ghost predicate IsKnown(start: Held, stocks: seq<Stock>, f: Filter, h: Hash, squeak: Squeak) {
    || (h in start.squeaks && start.squeaks[h].squeak == squeak)
    || exists j :: 0 <= j < |stocks| && IsSelectedHash(stocks[j].squeaks, f, h) && stocks[j].squeaks[h].squeak == squeak
  }

  ghost predicate IsOfferedByFirst(peers: seq<Peer>, k: nat, p: Hash)
    requires k <= |peers|
  {
    exists j, n :: 0 <= j < k && IsOfferedAt(peers[j], n, p)
  }

  /** All that is held when the turn of peer `k` comes. */
  ghost predicate Progress(start: Held, now: Held, stocks: seq<Stock>, peers: seq<Peer>, f: Filter, k: nat)
    requires k <= |peers|
  {
    && SqueaksKeyed(now.squeaks)
    && (forall h :: h in now.squeaks ==> IsKnown(start, stocks, f, h, now.squeaks[h].squeak))
    && (forall p :: p in now.offers && p !in start.offers ==> IsOfferedByFirst(peers, k, p))
  }

  /** Because the stocks agree, what is held agrees with each of them. */
  lemma ProgressAgrees(start: Held, now: Held, stocks: seq<Stock>, peers: seq<Peer>, f: Filter, k: nat, j: nat)
    requires k <= |peers| && Progress(start, now, stocks, peers, f, k) && j < |stocks|
    requires forall i, k :: 0 <= i < |stocks| && 0 <= k < |stocks| ==> SameSqueaks(stocks[i].squeaks, stocks[k].squeaks)
    requires SameSqueaks(start.squeaks, stocks[j].squeaks)
    ensures SameSqueaks(now.squeaks, stocks[j].squeaks)
  {
    forall h | h in now.squeaks && h in stocks[j].squeaks ensures now.squeaks[h].squeak == stocks[j].squeaks[h].squeak {
      assert IsKnown(start, stocks, f, h, now.squeaks[h].squeak);
      if !(h in start.squeaks && start.squeaks[h].squeak == now.squeaks[h].squeak) {
        var i :| 0 <= i < |stocks| && IsSelectedHash(stocks[i].squeaks, f, h) && stocks[i].squeaks[h].squeak == now.squeaks[h].squeak;
        assert SameSqueaks(stocks[i].squeaks, stocks[j].squeaks);
      }
    }
  }

  lemma ProgressFits(
      start: Held, now: Held, stocks: seq<Stock>, peers: seq<Peer>, f: Filter, k: nat, maxSqueaks: nat, maxPerGroup: nat)
    requires k < |peers| == |stocks| && Progress(start, now, stocks, peers, f, k)
    requires HasRoomForStocks(start.squeaks, stocks, f, maxSqueaks, maxPerGroup)
    ensures HasRoomForSelected(now.squeaks, stocks[k].squeaks, f, maxSqueaks, maxPerGroup)
  {
    assert now.squeaks.Keys + Selected(stocks[k].squeaks, f) <= start.squeaks.Keys + AllSelected(stocks, f) by {
      forall h | h in now.squeaks ensures h in start.squeaks.Keys + AllSelected(stocks, f) {
        assert IsKnown(start, stocks, f, h, now.squeaks[h].squeak);
      }
    }
    SubsetSize(now.squeaks.Keys + Selected(stocks[k].squeaks, f), start.squeaks.Keys + AllSelected(stocks, f));
    forall author, height
      ensures |SqueaksBy(now.squeaks, author, height) + (SqueaksBy(stocks[k].squeaks, author, height) * Selected(stocks[k].squeaks, f))|
           <= maxPerGroup
    {
      GroupFits(start, now, stocks, peers, f, k, author, height);
    }
  }

  lemma GroupFits(start: Held, now: Held, stocks: seq<Stock>, peers: seq<Peer>, f: Filter, k: nat, author: Bytes, height: int)
    requires k < |peers| == |stocks| && Progress(start, now, stocks, peers, f, k)
    ensures |SqueaksBy(now.squeaks, author, height) + (SqueaksBy(stocks[k].squeaks, author, height) * Selected(stocks[k].squeaks, f))|
         <= |SqueaksBy(start.squeaks, author, height) + AllSelectedBy(stocks, f, author, height)|
  {
    var held, more := SqueaksBy(now.squeaks, author, height), SqueaksBy(stocks[k].squeaks, author, height) * Selected(stocks[k].squeaks, f);
    var all := SqueaksBy(start.squeaks, author, height) + AllSelectedBy(stocks, f, author, height);
    assert held <= all by {
      forall h | h in held ensures h in all {
        assert IsKnown(start, stocks, f, h, now.squeaks[h].squeak);
      }
    }
    assert more <= all;
    SubsetSize(held + more, all);
  }

  lemma ProgressOffersNew(start: Held, now: Held, stocks: seq<Stock>, peers: seq<Peer>, f: Filter, k: nat)
    requires k < |peers| && Progress(start, now, stocks, peers, f, k) && AllOffersAreNew(start.offers, peers)
    ensures OffersAreNew(now.offers, peers[k], |ListingOf(peers[k])|)
  {
    var peer, count := peers[k], |ListingOf(peers[k])|;
    forall n | 0 <= n < count && peer.offerAt(n).Got? ensures peer.offerAt(n).value.payReq.paymentHash !in now.offers {
      var p := peer.offerAt(n).value.payReq.paymentHash;
      assert IsOfferedAt(peer, n, p);
      assert p !in start.offers && !IsOfferedByFirst(peers, k, p);
    }
    forall n, m | 0 <= n < m < count && peer.offerAt(n).Got? && peer.offerAt(m).Got?
      ensures peer.offerAt(n).value.payReq.paymentHash != peer.offerAt(m).value.payReq.paymentHash
    {
      assert IsOfferedAt(peer, n, peer.offerAt(n).value.payReq.paymentHash);
      assert IsOfferedAt(peer, m, peer.offerAt(m).value.payReq.paymentHash);
    }
  }

  /** A peer's turn: it is well stocked, so its run returns, and what it adds is known and offered. */
  lemma ProgressStep(store: SqueakStore, stocks: seq<Stock>, start: Turn, t: Turn, i: Interest, peers: seq<Peer>, nowMs: nat, k: nat)
    requires store.node.primitives.group.order > 0 && k < |peers| && CanServeAll(store, stocks, start, i, peers, nowMs)
    requires Progress(start.held, t.held, stocks, peers, InterestFilter(i), k) && t.writesLeft >= 3 * |ListingOf(peers[k])|
    ensures IsWellStocked(store, stocks[k], t, i, peers[k], nowMs)
    ensures Progress(start.held, PeerRun(store, t, InterestFilter(i), peers[k], nowMs).turn.held, stocks, peers, InterestFilter(i), k + 1)
  {
    var f, stock, peer := InterestFilter(i), stocks[k], peers[k];
    assert IsHonestStock(store.node, stock, i, peer, nowMs);
    ProgressAgrees(start.held, t.held, stocks, peers, f, k, k);
    ProgressFits(start.held, t.held, stocks, peers, f, k, store.maxSqueaks, store.maxSqueaksPerPublicKeyPerBlock);
    ProgressOffersNew(start.held, t.held, stocks, peers, f, k);
    WellStockedIsServed(store, stock, t, i, peer, nowMs);
    ServedIsProgress(store, stocks, start, t, i, peers, nowMs, k);
  }

  lemma ServedIsProgress(store: SqueakStore, stocks: seq<Stock>, start: Turn, t: Turn, i: Interest, peers: seq<Peer>, nowMs: nat, k: nat)
    requires store.node.primitives.group.order > 0 && k < |peers| == |stocks|
    requires Progress(start.held, t.held, stocks, peers, InterestFilter(i), k)
    requires IsWellStocked(store, stocks[k], t, i, peers[k], nowMs)
    requires PeerRun(store, t, InterestFilter(i), peers[k], nowMs).turn.held == Download(store.node, t.held, InterestFilter(i), peers[k], nowMs)
    ensures Progress(start.held, PeerRun(store, t, InterestFilter(i), peers[k], nowMs).turn.held, stocks, peers, InterestFilter(i), k + 1)
  {
    var f, stock, peer := InterestFilter(i), stocks[k], peers[k];
    var now := PeerRun(store, t, f, peer, nowMs).turn.held;
    var hashes := LookupRoute(stock.squeaks, stock.order, i.minBlock, i.maxBlock, i.pubkeys);
    assert forall h :: h in hashes <==> IsSelectedHash(stock.squeaks, f, h) by {
      RouteAgreesExactlyWhen(i.minBlock, i.maxBlock, i.pubkeys);
    }
    RunGains(store, t, f, peer, nowMs);
    HonestRun(store.node, stock.squeaks, stock.priceMsat, t.held, hashes, f, peer, nowMs);
    GainedIsKnown(store.node, stocks, start.held, t.held, now, peers, f, nowMs, k, hashes);
  }

  lemma GainedIsKnown(
      node: Node, stocks: seq<Stock>, start: Held, was: Held, now: Held, peers: seq<Peer>, f: Filter, nowMs: nat, k: nat, hashes: seq<Hash>)
    requires k < |peers| == |stocks| && Progress(start, was, stocks, peers, f, k)
    requires ListingOf(peers[k]) == hashes && OnlyGains(node, was, now, hashes, f, nowMs)
    requires forall h :: h in hashes <==> IsSelectedHash(stocks[k].squeaks, f, h)
    requires SameSqueaks(now.squeaks, stocks[k].squeaks)
    requires forall p :: p in now.offers && p !in was.offers ==> IsOfferedBefore(peers[k], |hashes|, p)
    ensures Progress(start, now, stocks, peers, f, k + 1)
  {
    forall h | h in now.squeaks ensures IsKnown(start, stocks, f, h, now.squeaks[h].squeak) {
      if h in was.squeaks {
        assert IsKnown(start, stocks, f, h, was.squeaks[h].squeak);
      } else {
        assert IsSelectedHash(stocks[k].squeaks, f, h) && stocks[k].squeaks[h].squeak == now.squeaks[h].squeak;
      }
    }
    forall p | p in now.offers && p !in start.offers ensures IsOfferedByFirst(peers, k + 1, p) {
      if p in was.offers {
        assert IsOfferedByFirst(peers, k, p);
      } else {
        var n :| 0 <= n < |hashes| && peers[k].offerAt(n).Got? && p == peers[k].offerAt(n).value.payReq.paymentHash;
        assert IsOfferedAt(peers[k], n, p);
      }
    }
  }

  lemma NextProgress(store: SqueakStore, stocks: seq<Stock>, t: Turn, i: Interest, peers: seq<Peer>, nowMs: nat, k: nat)
    requires store.node.primitives.group.order > 0 && SqueaksKeyed(t.held.squeaks) && k < |peers|
    requires CanServeAll(store, stocks, t, i, peers, nowMs)
    requires Progress(t.held, AfterPeers(store, t, InterestFilter(i), peers, nowMs, k).held, stocks, peers, InterestFilter(i), k)
    ensures IsWellStocked(store, stocks[k], AfterPeers(store, t, InterestFilter(i), peers, nowMs, k), i, peers[k], nowMs)
    ensures Progress(t.held, AfterPeers(store, t, InterestFilter(i), peers, nowMs, k + 1).held, stocks, peers, InterestFilter(i), k + 1)
  {
    var was := AfterPeers(store, t, InterestFilter(i), peers, nowMs, k);
    assert was.writesLeft >= 3 * |ListingOf(peers[k])| by {
      EnoughWrites(store, t, InterestFilter(i), peers, nowMs, k);
    }
    ProgressStep(store, stocks, t, was, i, peers, nowMs, k);
  }

  /** From each peer to the next, what is known stays known. */
  ghost predicate GoesOn(store: SqueakStore, stocks: seq<Stock>, t: Turn, f: Filter, peers: seq<Peer>, nowMs: nat)
    requires store.node.primitives.group.order > 0
  {
    forall k: nat :: k < |peers| && Progress(t.held, AfterPeers(store, t, f, peers, nowMs, k).held, stocks, peers, f, k) ==>
      Progress(t.held, AfterPeers(store, t, f, peers, nowMs, k + 1).held, stocks, peers, f, k + 1)
  }

  lemma ServableGoesOn(store: SqueakStore, stocks: seq<Stock>, t: Turn, i: Interest, peers: seq<Peer>, nowMs: nat)
    requires store.node.primitives.group.order > 0 && SqueaksKeyed(t.held.squeaks) && CanServeAll(store, stocks, t, i, peers, nowMs)
    ensures GoesOn(store, stocks, t, InterestFilter(i), peers, nowMs)
  {
    var f := InterestFilter(i);
    forall k: nat | k < |peers| && Progress(t.held, AfterPeers(store, t, f, peers, nowMs, k).held, stocks, peers, f, k)
      ensures Progress(t.held, AfterPeers(store, t, f, peers, nowMs, k + 1).held, stocks, peers, f, k + 1)
    {
      NextProgress(store, stocks, t, i, peers, nowMs, k);
    }
  }

  lemma {:induction false} ProgressHolds(store: SqueakStore, stocks: seq<Stock>, t: Turn, f: Filter, peers: seq<Peer>, nowMs: nat, k: nat)
    requires store.node.primitives.group.order > 0 && SqueaksKeyed(t.held.squeaks) && k <= |peers|
    requires GoesOn(store, stocks, t, f, peers, nowMs)
    ensures Progress(t.held, AfterPeers(store, t, f, peers, nowMs, k).held, stocks, peers, f, k)
  {
    if k > 0 {
      ProgressHolds(store, stocks, t, f, peers, nowMs, k - 1);
      var m: nat := k - 1;
      assert Progress(t.held, AfterPeers(store, t, f, peers, nowMs, m + 1).held, stocks, peers, f, m + 1);
    }
  }

  lemma EnoughWrites(store: SqueakStore, t: Turn, f: Filter, peers: seq<Peer>, nowMs: nat, k: nat)
    requires store.node.primitives.group.order > 0 && SqueaksKeyed(t.held.squeaks) && k < |peers|
    requires t.writesLeft >= 3 * |ListingsOf(peers)|
    ensures AfterPeers(store, t, f, peers, nowMs, k).writesLeft >= 3 * |ListingOf(peers[k])|
  {
    WritesRemain(store, t, f, peers, nowMs, k);
    SomeListings(peers, k);
  }

  /** Under what can be checked before the call, every run returns and the node has caught up with every peer. */
  lemma AllAreServed(store: SqueakStore, stocks: seq<Stock>, t: Turn, i: Interest, peers: seq<Peer>, nowMs: nat, k: nat)
    requires store.node.primitives.group.order > 0 && SqueaksKeyed(t.held.squeaks) && k < |peers|
    requires CanServeAll(store, stocks, t, i, peers, nowMs)
    ensures OutcomeOf(store, t, InterestFilter(i), peers, nowMs, k).Returned?
    ensures HasCaughtUp(stocks[k], t.held, AfterPeers(store, t, InterestFilter(i), peers, nowMs, |peers|).held, InterestFilter(i),
                        peers[k].address, nowMs)
  {
    ServableGoesOn(store, stocks, t, i, peers, nowMs);
    ProgressHolds(store, stocks, t, InterestFilter(i), peers, nowMs, k);
    NextProgress(store, stocks, t, i, peers, nowMs, k);
    ServedInTurn(store, t, i, peers, nowMs, k, stocks[k]);
  }

  // ----- The method -----

  /** What all the runs together have done. */
  ghost predicate HasServedAll(
      stocks: seq<Stock>, was: Held, now: Held, f: Filter, peers: seq<Peer>, outcomes: seq<Outcome<()>>, nowMs: nat)
    requires |stocks| == |peers| == |outcomes|
  {
    forall k :: 0 <= k < |peers| ==> outcomes[k].Returned? && HasCaughtUp(stocks[k], was, now, f, peers[k].address, nowMs)
  }

  lemma AllServable(store: SqueakStore, t: Turn, i: Interest, peers: seq<Peer>, nowMs: nat)
    requires store.node.primitives.group.order > 0 && SqueaksKeyed(t.held.squeaks)
    ensures forall stocks :: CanServeAll(store, stocks, t, i, peers, nowMs) ==>
              HasServedAll(stocks, t.held, AfterPeers(store, t, InterestFilter(i), peers, nowMs, |peers|).held, InterestFilter(i),
                           peers, OutcomesOf(store, t, InterestFilter(i), peers, nowMs, |peers|), nowMs)
  {
    forall stocks | CanServeAll(store, stocks, t, i, peers, nowMs)
      ensures HasServedAll(stocks, t.held, AfterPeers(store, t, InterestFilter(i), peers, nowMs, |peers|).held, InterestFilter(i),
                           peers, OutcomesOf(store, t, InterestFilter(i), peers, nowMs, |peers|), nowMs)
    {
      forall k | 0 <= k < |peers| {
        AllAreServed(store, stocks, t, i, peers, nowMs, k);
      }
    }
  }

  /**
   Every squeak of the peer between these blocks and by one of these keys is held; its key is held if the peer gives it
   away, and else held or under an unpaid offer from the peer that has not expired.
   */
  ghost predicate HoldsTimeline(
      stock: Stock, minBlock: nat, maxBlock: nat, pubkeys: seq<Bytes>, now: Held, peer: PeerAddress, nowMs: nat)
  {
    forall h :: h in stock.squeaks && stock.squeaks[h].squeak.author in pubkeys
                && minBlock <= stock.squeaks[h].squeak.blockHeight <= maxBlock ==>
      && h in now.squeaks
      && (stock.squeaks[h].secretKey.Some? && stock.squeaks[h].secretKey.value != [] ==>
            || now.squeaks[h].secretKey.Some?
            || (stock.priceMsat > 0 && HasOpenOffer(now.offers, h, peer, nowMs)))
  }

  lemma CaughtUpHoldsTimeline(stock: Stock, was: Held, now: Held, i: Interest, peer: PeerAddress, nowMs: nat)
    requires HasCaughtUp(stock, was, now, InterestFilter(i), peer, nowMs)
    ensures HoldsTimeline(stock, i.minBlock, i.maxBlock, i.pubkeys, now, peer, nowMs)
  {
    forall h | h in stock.squeaks && stock.squeaks[h].squeak.author in i.pubkeys
               && i.minBlock <= stock.squeaks[h].squeak.blockHeight <= i.maxBlock
      ensures IsSelectedHash(stock.squeaks, InterestFilter(i), h)
    {
    }
  }

  lemma ServedHoldTimelines(
      stocks: seq<Stock>, was: Held, now: Held, i: Interest, peers: seq<Peer>, outcomes: seq<Outcome<()>>, nowMs: nat)
    requires |stocks| == |peers| == |outcomes| && HasServedAll(stocks, was, now, InterestFilter(i), peers, outcomes, nowMs)
    ensures forall k :: 0 <= k < |peers| ==>
              HoldsTimeline(stocks[k], i.minBlock, i.maxBlock, i.pubkeys, now, peers[k].address, nowMs)
  {
    forall k | 0 <= k < |peers| ensures HoldsTimeline(stocks[k], i.minBlock, i.maxBlock, i.pubkeys, now, peers[k].address, nowMs) {
      CaughtUpHoldsTimeline(stocks[k], was, now, i, peers[k].address, nowMs);
    }
  }

  /** With some key followed and the chain past its first block, the client takes exactly what lies in the window by a followed key. */
  lemma TimelineFilterIsWindow(latestBlock: nat, interval: nat, followedKeys: seq<Bytes>)
    ensures (forall author, height :: height >= 0 ==>
               (Accepts(InterestFilter(TimelineInterest(latestBlock, interval, followedKeys)), author, height) <==>
                author in followedKeys && latestBlock - interval <= height <= latestBlock))
       <==> followedKeys != [] && latestBlock > 0
  {
    var f := InterestFilter(TimelineInterest(latestBlock, interval, followedKeys));
    if followedKeys == [] {
      assert Accepts(f, [], latestBlock);
    } else if latestBlock == 0 {
      assert Accepts(f, followedKeys[0], 1);
    }
  }

  /**
   A timeline download from every peer that the node connects to by itself. Whatever each of them answers, each is
   asked in its turn, and one that fails ends its own run alone. Only squeaks in the window and by followed keys are
   added, each listed by some peer and valid for its block; no offer goes, and no squeak gains a second live offer
   from one peer. Whatever stocks the peers have: if they can all be served, they all are, and every squeak of theirs in
   the window and by a followed key is held.
   */
  method DownloadTimeline(store: SqueakStore, peers: seq<Peer>, latestBlock: nat, interval: nat, followedKeys: seq<Bytes>)
      returns (outcomes: seq<Outcome<()>>)
    requires store.Sane()
    modifies store.db`writesLeft, store.db`squeaks, store.db`receivedOffers
    ensures store.Sane() && |outcomes| == |peers|
    ensures var f := InterestFilter(TimelineInterest(latestBlock, interval, followedKeys));
            && TurnOf(store) == AfterPeers(store, old(TurnOf(store)), f, peers, store.db.nowMs, |peers|)
            && outcomes == OutcomesOf(store, old(TurnOf(store)), f, peers, store.db.nowMs, |peers|)
            && OnlyGains(store.node, old(TurnOf(store)).held, TurnOf(store).held, ListingsOf(peers), f, store.db.nowMs)
    ensures var i := TimelineInterest(latestBlock, interval, followedKeys);
            forall stocks :: CanServeAll(store, stocks, old(TurnOf(store)), i, peers, store.db.nowMs) ==>
              HasServedAll(stocks, old(TurnOf(store)).held, TurnOf(store).held, InterestFilter(i), peers, outcomes, store.db.nowMs)
    ensures forall h :: h in store.db.squeaks && h !in old(store.db.squeaks) ==>
              var squeak := store.db.squeaks[h].squeak;
              && (latestBlock > interval ==> latestBlock - interval <= squeak.blockHeight)
              && (latestBlock > 0 ==> squeak.blockHeight <= latestBlock)
              && (followedKeys != [] ==> squeak.author in followedKeys)
    ensures var minBlock := if latestBlock > interval then latestBlock - interval else 0;
            forall stocks :: CanServeAll(store, stocks, old(TurnOf(store)), Interest(minBlock, latestBlock, followedKeys), peers, store.db.nowMs) ==>
              forall k :: 0 <= k < |peers| ==>
                HoldsTimeline(stocks[k], minBlock, latestBlock, followedKeys, TurnOf(store).held, peers[k].address, store.db.nowMs)
  {
    var i := TimelineInterest(latestBlock, interval, followedKeys);
    ghost var f, start := InterestFilter(i), TurnOf(store);
    outcomes := [];
    for n := 0 to |peers|
      invariant store.Sane()
      invariant TurnOf(store) == AfterPeers(store, start, f, peers, store.db.nowMs, n)
      invariant outcomes == OutcomesOf(store, start, f, peers, store.db.nowMs, n)
    {
      var downloader := new PeerDownloader(store, peers[n]);
      var r := downloader.DownloadInterestRange(i.minBlock, i.maxBlock, i.pubkeys);
      outcomes := outcomes + [r];
    }
    PeersGain(store, start, f, peers, store.db.nowMs, 0, |peers|);
    AllServable(store, start, i, peers, store.db.nowMs);
    forall stocks | CanServeAll(store, stocks, start, i, peers, store.db.nowMs)
      ensures forall k :: 0 <= k < |peers| ==>
                HoldsTimeline(stocks[k], i.minBlock, i.maxBlock, followedKeys, TurnOf(store).held, peers[k].address, store.db.nowMs)
    {
      ServedHoldTimelines(stocks, start.held, TurnOf(store).held, i, peers, outcomes, store.db.nowMs);
    }
  }

  function TimelineInterest(latestBlock: nat, interval: nat, followedKeys: seq<Bytes>): Interest {
    var window := TimelineWindow(latestBlock, interval);
    Interest(window.0, window.1, followedKeys)
  }
}
