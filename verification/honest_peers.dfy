/**
 What a download amounts to when the peer is another honest node: how its lookup route answers, that a run
 brings over everything it holds within the filter, and that running again changes nothing.
 */
module HonestPeers {
  import opened Basics
  import opened SqueakCore
  import opened SqueakDatabase
  import opened SqueakStorage
  import opened PeerDownloading
  import Paging

  // ----- The lookup -----
  /**
   A block bound as the query receives it. The web route passes on the text of the request parameter, and
   Python counts any non-empty text as true, the text of zero included.
   */
  datatype Bound = NoBound | Number(n: int) | Text(n: int)

  predicate IsTruthy(b: Bound) {
    b.Text? || (b.Number? && b.n != 0)
  }

  /** The `where` clauses that `lookup_squeaks` puts together (`squeaknode/db/squeak_db.py`). */
  predicate IsMatch(row: SqueakRow, pubkeys: seq<Bytes>, minBlock: Bound, maxBlock: Bound, replyTo: Option<Hash>, includeLocked: bool) {
    && (pubkeys != [] ==> row.squeak.author in pubkeys)
    && (IsTruthy(minBlock) ==> row.squeak.blockHeight >= minBlock.n)
    && (IsTruthy(maxBlock) ==> row.squeak.blockHeight <= maxBlock.n)
    && (replyTo.Some? && replyTo.value != [] ==> row.squeak.replyTo == replyTo)
    && (!includeLocked ==> row.secretKey.Some?)
  }

  function LookupSqueaks(
      squeaks: map<Hash, SqueakRow>, order: seq<Hash>, pubkeys: seq<Bytes>, minBlock: Bound, maxBlock: Bound,
      replyTo: Option<Hash>, includeLocked: bool): (hashes: seq<Hash>)
    ensures forall h :: h in hashes <==>
              h in order && h in squeaks && IsMatch(squeaks[h], pubkeys, minBlock, maxBlock, replyTo, includeLocked)
  {
    if order == [] then
      []
    else
      var h := order[0];
      (if h in squeaks && IsMatch(squeaks[h], pubkeys, minBlock, maxBlock, replyTo, includeLocked) then [h] else [])
      + LookupSqueaks(squeaks, order[1..], pubkeys, minBlock, maxBlock, replyTo, includeLocked)
  }

  /** A squeak is selected exactly if it meets each restriction that counts as given. */
  lemma SelectedExactlyWhen(
      squeaks: map<Hash, SqueakRow>, order: seq<Hash>, pubkeys: seq<Bytes>, minBlock: Bound, maxBlock: Bound,
      replyTo: Option<Hash>, includeLocked: bool, h: Hash)
    ensures h in LookupSqueaks(squeaks, order, pubkeys, minBlock, maxBlock, replyTo, includeLocked) <==>
              && h in order && h in squeaks
              && (pubkeys == [] || squeaks[h].squeak.author in pubkeys)
              && (minBlock.NoBound? || minBlock == Number(0) || minBlock.n <= squeaks[h].squeak.blockHeight)
              && (maxBlock.NoBound? || maxBlock == Number(0) || squeaks[h].squeak.blockHeight <= maxBlock.n)
              && (replyTo == None || replyTo == Some([]) || squeaks[h].squeak.replyTo == replyTo)
              && (includeLocked || squeaks[h].secretKey != None)
  {
  }

  /** The hashes come in the order in which the database sorts its rows: by height, time and hash, descending. */
  lemma {:induction false} LookupIsSorted(
      rank: Paging.Ranking, squeaks: map<Hash, SqueakRow>, order: seq<Hash>, pubkeys: seq<Bytes>, minBlock: Bound, maxBlock: Bound,
      replyTo: Option<Hash>, includeLocked: bool)
    requires Paging.IsDescending(rank, order)
    ensures Paging.IsDescending(rank, LookupSqueaks(squeaks, order, pubkeys, minBlock, maxBlock, replyTo, includeLocked))
  {
    if order != [] {
      var rest := LookupSqueaks(squeaks, order[1..], pubkeys, minBlock, maxBlock, replyTo, includeLocked);
      assert Paging.IsDescending(rank, order[1..]);
      LookupIsSorted(rank, squeaks, order[1..], pubkeys, minBlock, maxBlock, replyTo, includeLocked);
      forall j | 0 <= j < |rest| ensures Paging.Less(rank(rest[j]), rank(order[0])) {
        assert rest[j] in order[1..];
        var i :| 0 <= i < |order[1..]| && order[1..][i] == rest[j];
        assert order[i + 1] == rest[j];
      }
    }
  }

  /** The `/lookup` route (`squeaknode/server/app.py`): without keys it answers nothing at all. */
  function LookupRoute(squeaks: map<Hash, SqueakRow>, order: seq<Hash>, minBlock: int, maxBlock: int, pubkeys: seq<Bytes>): seq<Hash> {
    if pubkeys == [] then [] else LookupSqueaks(squeaks, order, pubkeys, Text(minBlock), Text(maxBlock), None, true)
  }

  function RangeFilter(minBlock: int, maxBlock: int, pubkeys: seq<Bytes>): Filter {
    Filter(Some(minBlock), Some(maxBlock), Some(pubkeys))
  }

  ghost predicate IsSelectedHash(squeaks: map<Hash, SqueakRow>, f: Filter, h: Hash) {
    h in squeaks && Accepts(f, squeaks[h].squeak.author, squeaks[h].squeak.blockHeight)
  }

  /** Called with numbers, the server's query and the client's filter select the same squeaks. */
  lemma QueryAgreesWithFilter(squeaks: map<Hash, SqueakRow>, order: seq<Hash>, minBlock: int, maxBlock: int, pubkeys: seq<Bytes>)
    requires IsRowOrder(order, squeaks)
    ensures forall h :: h in LookupSqueaks(squeaks, order, pubkeys, Number(minBlock), Number(maxBlock), None, true)
                   <==> IsSelectedHash(squeaks, RangeFilter(minBlock, maxBlock, pubkeys), h)
  {
  }

  ghost predicate HasHeights(squeaks: map<Hash, SqueakRow>) {
    forall h :: h in squeaks ==> squeaks[h].squeak.blockHeight >= 0
  }

  /** The route answers, for every table, exactly what the client's filter accepts. */
  ghost predicate RouteAgrees(minBlock: int, maxBlock: int, pubkeys: seq<Bytes>) {
    forall squeaks, order, h :: IsRowOrder(order, squeaks) && HasHeights(squeaks) ==>
      (h in LookupRoute(squeaks, order, minBlock, maxBlock, pubkeys) <==>
       IsSelectedHash(squeaks, RangeFilter(minBlock, maxBlock, pubkeys), h))
  }

  /**
   Through the web route the two agree exactly when the client names some key and its upper bound is not
   zero, or asks for an empty window: no keys select nothing at the server and everything at the client, and
   an upper bound of zero restricts the server and not the client.
   */
  lemma RouteAgreesExactlyWhen(minBlock: nat, maxBlock: nat, pubkeys: seq<Bytes>)
    ensures RouteAgrees(minBlock, maxBlock, pubkeys) <==> (pubkeys != [] && maxBlock != 0) || 0 < maxBlock < minBlock
  {
    if (pubkeys == [] || maxBlock == 0) && !(0 < maxBlock < minBlock) {
      // One squeak that the client accepts and the route leaves out.
      var author := if pubkeys == [] then [] else pubkeys[0];
      var height := if maxBlock == 0 then minBlock + 1 else maxBlock;
      var row := SqueakRow(Squeak([], author, height, [], 0, None, None, [], []), 0, None, None, None);
      var squeaks, order := map[[] := row], [[]];
      assert IsRowOrder(order, squeaks) && HasHeights(squeaks);
      assert IsSelectedHash(squeaks, RangeFilter(minBlock, maxBlock, pubkeys), []);
      assert [] !in LookupRoute(squeaks, order, minBlock, maxBlock, pubkeys);
    }
  }

  /** The window a timeline download asks for (`squeaknode/client/network_controller.py`). */
  function TimelineWindow(latestBlock: nat, interval: nat): (window: (nat, nat))
    ensures window.1 == latestBlock && window.0 <= window.1 && window.1 - window.0 <= interval
    ensures window.1 - window.0 == interval || window.0 == 0
  {
    (if latestBlock >= interval then latestBlock - interval else 0, latestBlock)
  }

  /** On a chain past its first block, a timeline download for some key asks for a range on which both sides agree. */
  lemma TimelineRangeAgrees(latestBlock: nat, interval: nat, pubkeys: seq<Bytes>)
    ensures var window := TimelineWindow(latestBlock, interval);
            RouteAgrees(window.0, window.1, pubkeys) <==> pubkeys != [] && latestBlock > 0
  {
    RouteAgreesExactlyWhen(TimelineWindow(latestBlock, interval).0, latestBlock, pubkeys);
  }

  // ----- An honest peer -----
  /** The honest peer's answers for one of the hashes it listed, selling at `priceMsat`, or giving keys away at 0. */
  ghost predicate AnswersHonestly(remote: map<Hash, SqueakRow>, priceMsat: nat, nowMs: nat, peer: Peer, n: nat, h: Hash) {
    && h in remote && remote[h].squeak.hash == h
    && peer.squeakAt(n) == Got(remote[h].squeak)
    && peer.keyAt(n) == (if priceMsat == 0 && HasKey(remote, h) then Got(remote[h].secretKey.value) else Missing)
    && (if priceMsat > 0 && HasKey(remote, h) then
          && peer.offerAt(n).Got?
          && peer.offerAt(n).value.offer.squeakHash == h
          && nowMs < (peer.offerAt(n).value.payReq.timestamp + peer.offerAt(n).value.payReq.expiry) * 1000
        else
          peer.offerAt(n) == Missing)
  }

  ghost predicate IsHonest(remote: map<Hash, SqueakRow>, priceMsat: nat, nowMs: nat, peer: Peer, hashes: seq<Hash>) {
    && peer.lookup == Got(hashes)
    && forall n :: 0 <= n < |hashes| ==> AnswersHonestly(remote, priceMsat, nowMs, peer, n, hashes[n])
  }

  /** Every invoice is new: no two offers of a run share a payment hash, and none is known already. */
  ghost predicate OffersAreNew(offers: map<Hash, ReceivedOfferRow>, peer: Peer, count: nat) {
    && (forall n :: 0 <= n < count && peer.offerAt(n).Got? ==> peer.offerAt(n).value.payReq.paymentHash !in offers)
    && (forall n, m :: 0 <= n < m < count && peer.offerAt(n).Got? && peer.offerAt(m).Got? ==>
          peer.offerAt(n).value.payReq.paymentHash != peer.offerAt(m).value.payReq.paymentHash)
  }

  /** A hash names one squeak. */
  ghost predicate SameSqueaks(squeaks: map<Hash, SqueakRow>, remote: map<Hash, SqueakRow>) {
    forall h :: h in squeaks && h in remote ==> squeaks[h].squeak == remote[h].squeak
  }

  // ----- First phase -----
  lemma {:induction false} FetchedSqueaks(
      remote: map<Hash, SqueakRow>, priceMsat: nat, held: Held, hashes: seq<Hash>, f: Filter, peer: Peer, nowMs: nat, n: nat)
    requires IsHonest(remote, priceMsat, nowMs, peer, hashes) && n <= |hashes| && SameSqueaks(held.squeaks, remote)
    requires forall h :: h in hashes ==> IsSelectedHash(remote, f, h)
    ensures var now := FetchSqueaks(held, hashes, f, peer, nowMs, n);
            && now.offers == held.offers && SameSqueaks(now.squeaks, remote)
            && (forall h :: h in held.squeaks ==> h in now.squeaks && now.squeaks[h] == held.squeaks[h])
            && (forall i :: 0 <= i < n ==> hashes[i] in now.squeaks)
  {
    if n > 0 {
      FetchedSqueaks(remote, priceMsat, held, hashes, f, peer, nowMs, n - 1);
      assert AnswersHonestly(remote, priceMsat, nowMs, peer, n - 1, hashes[n - 1]);
      assert hashes[n - 1] in hashes;
    }
  }

  lemma {:induction false} HeldSqueaksAreIdle(held: Held, hashes: seq<Hash>, f: Filter, peer: Peer, nowMs: nat, n: nat)
    requires n <= |hashes| && forall h :: h in hashes ==> h in held.squeaks
    ensures FetchSqueaks(held, hashes, f, peer, nowMs, n) == held
  {
    if n > 0 {
      HeldSqueaksAreIdle(held, hashes, f, peer, nowMs, n - 1);
      assert hashes[n - 1] in hashes;
    }
  }

  // ----- Second phase -----
  /** There is nothing left to fetch for a hash: its key is held, or an offer for it is live, or the peer has no key. */
  ghost predicate IsDone(remote: map<Hash, SqueakRow>, held: Held, peer: PeerAddress, nowMs: nat, priceMsat: nat, h: Hash) {
    && h in held.squeaks
    && (HasKey(held.squeaks, h) || !HasKey(remote, h) || (priceMsat > 0 && HasLiveOffer(held.offers, h, peer, nowMs)))
  }

  /** Keys and offers that are held stay. */
  ghost predicate Keeps(was: Held, now: Held) {
    && (forall h :: h in was.squeaks ==> h in now.squeaks && now.squeaks[h].squeak == was.squeaks[h].squeak)
    && (forall h :: HasKey(was.squeaks, h) ==> now.squeaks[h] == was.squeaks[h])
    && (forall p :: p in was.offers ==> p in now.offers && now.offers[p] == was.offers[p])
  }

  lemma DoneStays(remote: map<Hash, SqueakRow>, was: Held, now: Held, peer: PeerAddress, nowMs: nat, priceMsat: nat, h: Hash)
    requires Keeps(was, now) && IsDone(remote, was, peer, nowMs, priceMsat, h)
    ensures IsDone(remote, now, peer, nowMs, priceMsat, h)
  {
    if HasLiveOffer(was.offers, h, peer, nowMs) {
      var p :| p in was.offers && IsLiveFor(was.offers[p], h, peer, nowMs);
      assert p in now.offers && IsLiveFor(now.offers[p], h, peer, nowMs);
    }
  }

  lemma FetchKeyFinishes(
      node: Node, remote: map<Hash, SqueakRow>, priceMsat: nat, held: Held, h: Hash, peer: Peer, nowMs: nat, n: nat)
    requires AnswersHonestly(remote, priceMsat, nowMs, peer, n, h) && h in held.squeaks && SameSqueaks(held.squeaks, remote)
    requires peer.offerAt(n).Got? ==> peer.offerAt(n).value.payReq.paymentHash !in held.offers
    ensures var now := FetchKey(node, held, h, peer.address, peer.keyAt(n), peer.offerAt(n), nowMs);
            && Keeps(held, now) && SameSqueaks(now.squeaks, remote) && IsDone(remote, now, peer.address, nowMs, priceMsat, h)
            && now.squeaks.Keys == held.squeaks.Keys
            && (forall p :: p in now.offers && p !in held.offers ==>
                  peer.offerAt(n).Got? && p == peer.offerAt(n).value.payReq.paymentHash)
  {
    var now := FetchKey(node, held, h, peer.address, peer.keyAt(n), peer.offerAt(n), nowMs);
    if now.offers != held.offers {
      var p := peer.offerAt(n).value.payReq.paymentHash;
      assert p in now.offers && IsLiveFor(now.offers[p], h, peer.address, nowMs);
    }
  }

  /** What the second phase has done for the first `n` hashes. */
  ghost predicate KeysFetched(
      remote: map<Hash, SqueakRow>, priceMsat: nat, held: Held, now: Held, hashes: seq<Hash>, peer: Peer, nowMs: nat, n: nat)
    requires n <= |hashes|
  {
    && Keeps(held, now) && SameSqueaks(now.squeaks, remote) && now.squeaks.Keys == held.squeaks.Keys
    && (forall i :: 0 <= i < n ==> IsDone(remote, now, peer.address, nowMs, priceMsat, hashes[i]))
    && (forall p :: p in now.offers && p !in held.offers ==> IsOfferedBefore(peer, n, p))
  }

  ghost predicate IsOfferedBefore(peer: Peer, n: nat, p: Hash) {
    exists i :: 0 <= i < n && peer.offerAt(i).Got? && p == peer.offerAt(i).value.payReq.paymentHash
  }

  lemma NoKeysFetched(remote: map<Hash, SqueakRow>, priceMsat: nat, held: Held, hashes: seq<Hash>, peer: Peer, nowMs: nat)
    requires SameSqueaks(held.squeaks, remote)
    ensures KeysFetched(remote, priceMsat, held, held, hashes, peer, nowMs, 0)
  {
  }

  lemma FetchedKeysStep(
      node: Node, remote: map<Hash, SqueakRow>, priceMsat: nat, held: Held, was: Held, now: Held, hashes: seq<Hash>, peer: Peer,
      nowMs: nat, n: nat)
    requires n < |hashes| && AnswersHonestly(remote, priceMsat, nowMs, peer, n, hashes[n]) && hashes[n] in held.squeaks
    requires OffersAreNew(held.offers, peer, |hashes|) && KeysFetched(remote, priceMsat, held, was, hashes, peer, nowMs, n)
    requires now == FetchKey(node, was, hashes[n], peer.address, peer.keyAt(n), peer.offerAt(n), nowMs)
    ensures KeysFetched(remote, priceMsat, held, now, hashes, peer, nowMs, n + 1)
  {
    FetchKeyFinishes(node, remote, priceMsat, was, hashes[n], peer, nowMs, n);
    forall i | 0 <= i < n ensures IsDone(remote, now, peer.address, nowMs, priceMsat, hashes[i]) {
      DoneStays(remote, was, now, peer.address, nowMs, priceMsat, hashes[i]);
    }
    forall p | p in now.offers && p !in held.offers ensures IsOfferedBefore(peer, n + 1, p) {
      if p in was.offers {
        assert IsOfferedBefore(peer, n, p);
      }
    }
  }

  lemma NextKeyFetched(
      node: Node, remote: map<Hash, SqueakRow>, priceMsat: nat, held: Held, was: Held, hashes: seq<Hash>, peer: Peer, nowMs: nat, n: nat)
    requires IsHonest(remote, priceMsat, nowMs, peer, hashes) && n < |hashes| && hashes[n] in held.squeaks
    requires OffersAreNew(held.offers, peer, |hashes|) && KeysFetched(remote, priceMsat, held, was, hashes, peer, nowMs, n)
    ensures KeysFetched(remote, priceMsat, held, FetchKey(node, was, hashes[n], peer.address, peer.keyAt(n), peer.offerAt(n), nowMs),
                        hashes, peer, nowMs, n + 1)
  {
    assert AnswersHonestly(remote, priceMsat, nowMs, peer, n, hashes[n]);
    FetchedKeysStep(node, remote, priceMsat, held, was,
                    FetchKey(node, was, hashes[n], peer.address, peer.keyAt(n), peer.offerAt(n), nowMs), hashes, peer, nowMs, n);
  }

  lemma {:induction false} FetchedKeys(
      node: Node, remote: map<Hash, SqueakRow>, priceMsat: nat, held: Held, hashes: seq<Hash>, peer: Peer, nowMs: nat, n: nat)
    requires IsHonest(remote, priceMsat, nowMs, peer, hashes) && n <= |hashes| && SameSqueaks(held.squeaks, remote)
    requires OffersAreNew(held.offers, peer, |hashes|) && forall h :: h in hashes ==> h in held.squeaks
    ensures KeysFetched(remote, priceMsat, held, FetchKeys(node, held, hashes, peer, nowMs, n), hashes, peer, nowMs, n)
  {
    if n == 0 {
      NoKeysFetched(remote, priceMsat, held, hashes, peer, nowMs);
    } else {
      var was := FetchKeys(node, held, hashes, peer, nowMs, n - 1);
      assert KeysFetched(remote, priceMsat, held, was, hashes, peer, nowMs, n - 1) by {
        FetchedKeys(node, remote, priceMsat, held, hashes, peer, nowMs, n - 1);
      }
      assert hashes[n - 1] in hashes;
      NextKeyFetched(node, remote, priceMsat, held, was, hashes, peer, nowMs, n - 1);
      assert FetchKeys(node, held, hashes, peer, nowMs, n)
          == FetchKey(node, was, hashes[n - 1], peer.address, peer.keyAt(n - 1), peer.offerAt(n - 1), nowMs);
    }
  }

  lemma {:induction false} DoneKeysAreIdle(
      node: Node, remote: map<Hash, SqueakRow>, priceMsat: nat, held: Held, hashes: seq<Hash>, peer: Peer, nowMs: nat, n: nat)
    requires IsHonest(remote, priceMsat, nowMs, peer, hashes) && n <= |hashes|
    requires forall h :: h in hashes ==> IsDone(remote, held, peer.address, nowMs, priceMsat, h)
    ensures FetchKeys(node, held, hashes, peer, nowMs, n) == held
  {
    if n > 0 {
      DoneKeysAreIdle(node, remote, priceMsat, held, hashes, peer, nowMs, n - 1);
      assert AnswersHonestly(remote, priceMsat, nowMs, peer, n - 1, hashes[n - 1]);
      assert hashes[n - 1] in hashes;
    }
  }

  // ----- Results -----
  lemma HonestRun(
      node: Node, remote: map<Hash, SqueakRow>, priceMsat: nat, held: Held, hashes: seq<Hash>, f: Filter, peer: Peer, nowMs: nat)
    requires IsHonest(remote, priceMsat, nowMs, peer, hashes) && SameSqueaks(held.squeaks, remote)
    requires OffersAreNew(held.offers, peer, |hashes|) && forall h :: h in hashes ==> IsSelectedHash(remote, f, h)
    ensures var now := Download(node, held, f, peer, nowMs);
            && Keeps(held, now) && SameSqueaks(now.squeaks, remote)
            && (forall h :: h in hashes ==> IsDone(remote, now, peer.address, nowMs, priceMsat, h))
            && (forall p :: p in now.offers && p !in held.offers ==> IsOfferedBefore(peer, |hashes|, p))
  {
    var between := FetchSqueaks(held, hashes, f, peer, nowMs, |hashes|);
    FetchedSqueaks(remote, priceMsat, held, hashes, f, peer, nowMs, |hashes|);
    FetchedKeys(node, remote, priceMsat, between, hashes, peer, nowMs, |hashes|);
  }

  /**
   Convergence. A run against an honest peer that does not raise, for some key and a non-zero upper bound,
   leaves the node holding every squeak the peer holds within the filter, and whatever it held before as it
   was; each key that the peer gives away is held, and each key it sells is held or under a live offer.
   */
  lemma HonestPeerConvergence(
      node: Node, remote: map<Hash, SqueakRow>, order: seq<Hash>, priceMsat: nat, held: Held,
      minBlock: nat, maxBlock: nat, pubkeys: seq<Bytes>, peer: Peer, nowMs: nat)
    requires pubkeys != [] && maxBlock != 0 && IsRowOrder(order, remote) && HasHeights(remote)
    requires IsHonest(remote, priceMsat, nowMs, peer, LookupRoute(remote, order, minBlock, maxBlock, pubkeys))
    requires OffersAreNew(held.offers, peer, |LookupRoute(remote, order, minBlock, maxBlock, pubkeys)|)
    requires SameSqueaks(held.squeaks, remote)
    ensures var f := RangeFilter(minBlock, maxBlock, pubkeys);
            var now := Download(node, held, f, peer, nowMs);
            && Keeps(held, now)
            && forall h :: IsSelectedHash(remote, f, h) ==>
                 && IsSelectedHash(now.squeaks, f, h)
                 && (HasKey(remote, h) && priceMsat == 0 ==> HasKey(now.squeaks, h))
                 && (HasKey(remote, h) && priceMsat > 0 ==>
                       HasKey(now.squeaks, h) || HasLiveOffer(now.offers, h, peer.address, nowMs))
  {
    var f, hashes := RangeFilter(minBlock, maxBlock, pubkeys), LookupRoute(remote, order, minBlock, maxBlock, pubkeys);
    RouteAgreesExactlyWhen(minBlock, maxBlock, pubkeys);
    HonestRun(node, remote, priceMsat, held, hashes, f, peer, nowMs);
    forall h | IsSelectedHash(remote, f, h)
      ensures IsDone(remote, Download(node, held, f, peer, nowMs), peer.address, nowMs, priceMsat, h)
    {
      assert h in hashes;
    }
  }

  /** The peer's squeaks are acceptable to the node, and its keys open them and decrypt what is public. */
  ghost predicate IsSoundStock(node: Node, remote: map<Hash, SqueakRow>)
    requires node.primitives.group.order > 0
  {
    forall h :: h in remote ==>
      && IsAcceptable(node, remote[h].squeak)
      && (HasKey(remote, h) ==>
            && AcceptsKey(node.primitives, remote[h].squeak, remote[h].secretKey.value)
            && (remote[h].squeak.recipient.None? ==>
                  node.decrypt(remote[h].squeak, remote[h].secretKey.value, Anyone).Some?))
  }

  ghost function Selected(remote: map<Hash, SqueakRow>, f: Filter): set<Hash> {
    set h | h in remote && IsSelectedHash(remote, f, h)
  }

  /** No limit is hit: what is held and what is selected fit together, in the total and for each author and height. */
  ghost predicate HasRoomForSelected(
      squeaks: map<Hash, SqueakRow>, remote: map<Hash, SqueakRow>, f: Filter, maxSqueaks: nat, maxPerGroup: nat)
  {
    && |squeaks.Keys + Selected(remote, f)| <= maxSqueaks
    && forall author, height ::
         |SqueaksBy(squeaks, author, height) + (SqueaksBy(remote, author, height) * Selected(remote, f))| <= maxPerGroup
  }

  lemma HonestRoom(
      remote: map<Hash, SqueakRow>, priceMsat: nat, nowMs: nat, peer: Peer, hashes: seq<Hash>, squeaks: map<Hash, SqueakRow>,
      f: Filter, maxSqueaks: nat, maxPerGroup: nat)
    requires IsHonest(remote, priceMsat, nowMs, peer, hashes)
    requires forall h :: h in hashes <==> IsSelectedHash(remote, f, h)
    requires HasRoomForSelected(squeaks, remote, f, maxSqueaks, maxPerGroup)
    ensures HasRoomForAll(squeaks, hashes, peer, maxSqueaks, maxPerGroup)
  {
    assert Listed(hashes) == Selected(remote, f);
    forall author, height
      ensures |SqueaksBy(squeaks, author, height) + ListedBy(hashes, peer, author, height)| <= maxPerGroup
    {
      HonestGroup(remote, priceMsat, nowMs, peer, hashes, f, author, height);
    }
  }

  lemma HonestGroup(
      remote: map<Hash, SqueakRow>, priceMsat: nat, nowMs: nat, peer: Peer, hashes: seq<Hash>, f: Filter, author: Bytes, height: int)
    requires IsHonest(remote, priceMsat, nowMs, peer, hashes)
    requires forall h :: h in hashes <==> IsSelectedHash(remote, f, h)
    ensures ListedBy(hashes, peer, author, height) == SqueaksBy(remote, author, height) * Selected(remote, f)
  {
    var listed, group := ListedBy(hashes, peer, author, height), SqueaksBy(remote, author, height) * Selected(remote, f);
    forall h | h in group ensures h in listed {
      assert h in hashes;
      var n :| 0 <= n < |hashes| && hashes[n] == h;
      assert AnswersHonestly(remote, priceMsat, nowMs, peer, n, h);
    }
    forall h | h in listed ensures h in group {
      var n :| 0 <= n < |hashes| && peer.squeakAt(n).Got? && hashes[n] == h
        && peer.squeakAt(n).value.author == author && peer.squeakAt(n).value.blockHeight == height;
      assert AnswersHonestly(remote, priceMsat, nowMs, peer, n, h) && h in hashes;
    }
  }

  /** A run against an honest peer with a sound stock, within the limits and the writes left, does not raise. */
  lemma HonestRunFinishes(
      node: Node, remote: map<Hash, SqueakRow>, priceMsat: nat, held: Held, hashes: seq<Hash>, f: Filter, peer: Peer, nowMs: nat,
      maxSqueaks: nat, maxPerGroup: nat, writesLeft: nat)
    requires node.primitives.group.order > 0
    requires IsHonest(remote, priceMsat, nowMs, peer, hashes) && IsSoundStock(node, remote) && SameSqueaks(held.squeaks, remote)
    requires forall h :: h in hashes <==> IsSelectedHash(remote, f, h)
    requires HasRoomForSelected(held.squeaks, remote, f, maxSqueaks, maxPerGroup) && writesLeft >= 3 * |hashes|
    ensures WillFinish(node, held, f, peer, nowMs, maxSqueaks, maxPerGroup, writesLeft)
  {
    HonestRoom(remote, priceMsat, nowMs, peer, hashes, held.squeaks, f, maxSqueaks, maxPerGroup);
    FetchedSqueaks(remote, priceMsat, held, hashes, f, peer, nowMs, |hashes|);
    forall n | 0 <= n < |hashes| ensures CanFetchSqueak(node, hashes[n], f, peer.squeakAt(n)) {
      assert AnswersHonestly(remote, priceMsat, nowMs, peer, n, hashes[n]);
    }
    HonestKeys(node, remote, priceMsat, nowMs, peer, hashes, FetchSqueaks(held, hashes, f, peer, nowMs, |hashes|).squeaks);
  }

  lemma HonestKeys(
      node: Node, remote: map<Hash, SqueakRow>, priceMsat: nat, nowMs: nat, peer: Peer, hashes: seq<Hash>, squeaks: map<Hash, SqueakRow>)
    requires node.primitives.group.order > 0
    requires IsHonest(remote, priceMsat, nowMs, peer, hashes) && IsSoundStock(node, remote) && SameSqueaks(squeaks, remote)
    ensures CanFetchKeys(node, squeaks, hashes, peer)
  {
    forall n | 0 <= n < |hashes| && hashes[n] in squeaks
      ensures CanFetchKey(node, squeaks[hashes[n]].squeak, hashes[n], peer.keyAt(n), peer.offerAt(n))
    {
      assert AnswersHonestly(remote, priceMsat, nowMs, peer, n, hashes[n]);
    }
  }

  /** Idempotence. An immediate second run, whatever new offers the peer would make, changes no table. */
  lemma SecondRunIsIdle(
      node: Node, remote: map<Hash, SqueakRow>, priceMsat: nat, held: Held, hashes: seq<Hash>, f: Filter,
      peer: Peer, again: Peer, nowMs: nat)
    requires IsHonest(remote, priceMsat, nowMs, peer, hashes) && IsHonest(remote, priceMsat, nowMs, again, hashes)
    requires peer.address == again.address
    requires OffersAreNew(held.offers, peer, |hashes|) && SameSqueaks(held.squeaks, remote)
    requires forall h :: h in hashes ==> IsSelectedHash(remote, f, h)
    ensures var now := Download(node, held, f, peer, nowMs);
            Download(node, now, f, again, nowMs) == now
  {
    var now := Download(node, held, f, peer, nowMs);
    HonestRun(node, remote, priceMsat, held, hashes, f, peer, nowMs);
    HeldSqueaksAreIdle(now, hashes, f, again, nowMs, |hashes|);
    DoneKeysAreIdle(node, remote, priceMsat, now, hashes, again, nowMs, |hashes|);
  }

  // ----- One live offer -----

  /**
   What happens to the node's squeaks and received offers, one thing at a time, with arbitrary peers. Squeaks and keys
   come and go in any way, offers are paid or deleted, and the clock runs.
   */
  datatype OfferEvent =
    | Fetch(h: Hash, peer: PeerAddress, keyAnswer: Answer<Bytes>, offer: Answer<PricedOffer>)
    | ChangeSqueaks(squeaks: map<Hash, SqueakRow>)
    | Pay(paymentHash: Hash)
    | DeleteOffers(paymentHashes: set<Hash>)
    | Tick(ms: nat)

  datatype Clocked = Clocked(held: Held, nowMs: nat)

  ghost function AfterOfferEvent(node: Node, s: Clocked, e: OfferEvent): Clocked {
    match e
    case Fetch(h, peer, key, offer) => s.(held := FetchKey(node, s.held, h, peer, key, offer, s.nowMs))
    case ChangeSqueaks(squeaks) => if SqueaksKeyed(squeaks) then s.(held := s.held.(squeaks := squeaks)) else s
    case Pay(p) => s.(held := s.held.(offers := SetReceivedOfferPaid(s.held.offers, p)))
    case DeleteOffers(ps) => s.(held := s.held.(offers := s.held.offers - ps))
    case Tick(ms) => s.(nowMs := s.nowMs + ms)
  }

  /** Once no offer of the peer is open, because it was paid, deleted or has expired, another one is taken. */
  lemma ClosedOfferIsReplaced(node: Node, s: Clocked, h: Hash, peer: PeerAddress, got: PricedOffer)
    requires h in s.held.squeaks && !HasKey(s.held.squeaks, h) && s.held.squeaks[h].squeak.hash == h == got.offer.squeakHash
    requires !HasOpenOffer(s.held.offers, h, peer, s.nowMs) && got.payReq.paymentHash !in s.held.offers
    ensures var s' := AfterOfferEvent(node, s, Fetch(h, peer, Missing, Got(got)));
            && s'.nowMs == s.nowMs && s'.held.squeaks == s.held.squeaks
            && s'.held.offers.Keys == s.held.offers.Keys + {got.payReq.paymentHash}
            && s'.held.offers[got.payReq.paymentHash].createdMs == s.nowMs
            && s'.held.offers[got.payReq.paymentHash].offer.squeakHash == h
            && s'.held.offers[got.payReq.paymentHash].offer.peerAddress == peer
  {
  }

  ghost function AfterOfferEvents(node: Node, s: Clocked, events: seq<OfferEvent>): Clocked {
    if events == [] then s else AfterOfferEvent(node, AfterOfferEvents(node, s, events[..|events| - 1]), events[|events| - 1])
  }

  lemma OfferEventKeepsOneLive(node: Node, s: Clocked, e: OfferEvent)
    requires OneLiveOffer(s.held.offers, s.nowMs) && SqueaksKeyed(s.held.squeaks)
    ensures var s' := AfterOfferEvent(node, s, e);
            OneLiveOffer(s'.held.offers, s'.nowMs) && SqueaksKeyed(s'.held.squeaks)
  {
    var s' := AfterOfferEvent(node, s, e);
    forall h, peer, p, q |
      && p in s'.held.offers && q in s'.held.offers
      && IsLiveFor(s'.held.offers[p], h, peer, s'.nowMs) && IsLiveFor(s'.held.offers[q], h, peer, s'.nowMs)
      ensures p == q
    {
      assert p in s.held.offers ==> IsLiveFor(s.held.offers[p], h, peer, s.nowMs);
      assert q in s.held.offers ==> IsLiveFor(s.held.offers[q], h, peer, s.nowMs);
    }
  }

  /** Over all sequential runs, no squeak ever has two live offers from one peer. */
  lemma {:induction false} NeverTwoLiveOffers(node: Node, s: Clocked, events: seq<OfferEvent>)
    requires OneLiveOffer(s.held.offers, s.nowMs) && SqueaksKeyed(s.held.squeaks)
    ensures var s' := AfterOfferEvents(node, s, events);
            OneLiveOffer(s'.held.offers, s'.nowMs) && SqueaksKeyed(s'.held.squeaks)
  {
    if events != [] {
      NeverTwoLiveOffers(node, s, events[..|events| - 1]);
      OfferEventKeepsOneLive(node, AfterOfferEvents(node, s, events[..|events| - 1]), events[|events| - 1]);
    }
  }

  /**
   Two downloaders at once can both look for a live offer before either has stored its own. They leave two live
   offers exactly if the offers have different payment hashes.
   */
  lemma TwoFetchesAtOnce(s: Clocked, h: Hash, peer: PeerAddress, p: PricedOffer, q: PricedOffer)
    requires OneLiveOffer(s.held.offers, s.nowMs) && SqueaksKeyed(s.held.squeaks) && h in s.held.squeaks
    requires !HasLiveOffer(s.held.offers, h, peer, s.nowMs)
    requires p.offer.squeakHash == h && q.offer.squeakHash == h
    requires p.payReq.paymentHash !in s.held.offers && q.payReq.paymentHash !in s.held.offers
    requires s.nowMs < (p.payReq.timestamp + p.payReq.expiry) * 1000 && s.nowMs < (q.payReq.timestamp + q.payReq.expiry) * 1000
    ensures var both := TakeOffer(TakeOffer(s.held, h, peer, p, s.nowMs), h, peer, q, s.nowMs);
            OneLiveOffer(both.offers, s.nowMs) <==> p.payReq.paymentHash == q.payReq.paymentHash
  {
    var one := TakeOffer(s.held, h, peer, p, s.nowMs);
    var both := TakeOffer(one, h, peer, q, s.nowMs);
    var a, b := p.payReq.paymentHash, q.payReq.paymentHash;
    assert IsLiveFor(both.offers[a], h, peer, s.nowMs) && IsLiveFor(both.offers[b], h, peer, s.nowMs);
    if a == b {
      forall g, from, x, y |
        && x in both.offers && y in both.offers
        && IsLiveFor(both.offers[x], g, from, s.nowMs) && IsLiveFor(both.offers[y], g, from, s.nowMs)
        ensures x == y
      {
        assert x != a ==> x in s.held.offers && IsLiveFor(s.held.offers[x], g, from, s.nowMs);
        assert y != a ==> y in s.held.offers && IsLiveFor(s.held.offers[y], g, from, s.nowMs);
      }
    }
  }
}
