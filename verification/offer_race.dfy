/**
 Downloading offers for one squeak from one peer, by several threads at once. Looking for a live offer and
 storing a new one are separate accesses to the database (`squeaknode/client/peer_downloader.py`), so that a
 downloader may store its offer on the strength of a look that others have since outdated.
 */
module OfferRace {
  import opened Basics
  import opened SqueakDatabase
  import opened PeerDownloading

  /** `looked` are the downloaders that have found no live offer and have not yet stored their own. */
  datatype Race = Race(held: Held, nowMs: nat, looked: set<nat>)

  /** Which squeak and peer the race is about, and how many downloaders take part. */
  datatype Course = Course(h: Hash, peer: PeerAddress, downloaders: nat)

  datatype Event =
    | Look(w: nat)
    | Store(w: nat, offer: PricedOffer)
    | GiveUp(w: nat)
    | StoreOther(paymentHash: Hash, row: ReceivedOfferRow)
    | Pay(paymentHash: Hash)
    | DeleteOffers(paymentHashes: set<Hash>)
    | Tick(ms: nat)

  predicate Possible(c: Course, s: Race, e: Event) {
    match e
    case Look(w) => w < c.downloaders && w !in s.looked && !HasLiveOffer(s.held.offers, c.h, c.peer, s.nowMs)
    case Store(w, _) => w in s.looked
    case GiveUp(w) => w in s.looked
    case StoreOther(_, row) => row.offer.squeakHash != c.h || row.offer.peerAddress != c.peer
    case _ => true
  }

  function After(c: Course, s: Race, e: Event): Race
    requires c.h in s.held.squeaks && Possible(c, s, e)
  {
    match e
    case Look(w) => s.(looked := s.looked + {w})
    case Store(w, offer) => s.(held := TakeOffer(s.held, c.h, c.peer, offer, s.nowMs), looked := s.looked - {w})
    case GiveUp(w) => s.(looked := s.looked - {w})
    case StoreOther(p, row) => if p in s.held.offers then s else s.(held := s.held.(offers := s.held.offers[p := row]))
    case Pay(p) => s.(held := s.held.(offers := SetReceivedOfferPaid(s.held.offers, p)))
    case DeleteOffers(ps) => s.(held := s.held.(offers := s.held.offers - ps))
    case Tick(ms) => s.(nowMs := s.nowMs + ms)
  }

  ghost predicate EventAt(c: Course, run: seq<Race>, events: seq<Event>, k: nat) {
    && k < |events| && k + 1 < |run| && c.h in run[k].held.squeaks
    && Possible(c, run[k], events[k]) && run[k + 1] == After(c, run[k], events[k])
  }

  ghost predicate IsRun(c: Course, run: seq<Race>, events: seq<Event>) {
    |run| == |events| + 1 && forall k: nat :: k < |events| ==> EventAt(c, run, events, k)
  }

  function LiveOffers(c: Course, s: Race): set<Hash> {
    set p | p in s.held.offers && IsLiveFor(s.held.offers[p], c.h, c.peer, s.nowMs)
  }

  // ----- Invariant -----

  /** Live offers, and offers that may yet be stored, together number at most the downloaders. */
  ghost predicate Inv(c: Course, s: Race) {
    (forall w :: w in s.looked ==> w < c.downloaders) && |LiveOffers(c, s)| + |s.looked| <= c.downloaders
  }

  lemma LookStep(c: Course, s: Race, w: nat)
    requires c.h in s.held.squeaks && Possible(c, s, Look(w)) && Inv(c, s)
    ensures Inv(c, After(c, s, Look(w)))
  {
    var s' := After(c, s, Look(w));
    assert LiveOffers(c, s') == {};
    BoundedSetSize(s'.looked, c.downloaders);
  }

  lemma StoreStep(c: Course, s: Race, w: nat, offer: PricedOffer)
    requires c.h in s.held.squeaks && Possible(c, s, Store(w, offer)) && Inv(c, s)
    ensures Inv(c, After(c, s, Store(w, offer)))
  {
    var s' := After(c, s, Store(w, offer));
    var with := LiveOffers(c, s) + {offer.payReq.paymentHash};
    assert LiveOffers(c, s') <= with;
    SubsetSize(LiveOffers(c, s'), with);
    assert |s'.looked| == |s.looked| - 1;
  }

  /** Other offers, payment, deletion and the passing of time bring no offer to life. */
  lemma OtherStep(c: Course, s: Race, e: Event)
    requires c.h in s.held.squeaks && Possible(c, s, e) && Inv(c, s) && !e.Look? && !e.Store?
    ensures Inv(c, After(c, s, e))
  {
    var s' := After(c, s, e);
    assert LiveOffers(c, s') <= LiveOffers(c, s);
    SubsetSize(LiveOffers(c, s'), LiveOffers(c, s));
    SubsetSize(s'.looked, s.looked);
  }

  lemma {:induction false} RunKeepsInv(c: Course, run: seq<Race>, events: seq<Event>, k: nat)
    requires IsRun(c, run, events) && k < |run| && c.downloaders > 0
    requires run[0].looked == {} && |LiveOffers(c, run[0])| <= 1
    ensures Inv(c, run[k])
  {
    if k > 0 {
      RunKeepsInv(c, run, events, k - 1);
      assert EventAt(c, run, events, k - 1);
      var s, e := run[k - 1], events[k - 1];
      match e
      case Look(w) => LookStep(c, s, w);
      case Store(w, offer) => StoreStep(c, s, w, offer);
      case _ => OtherStep(c, s, e);
    }
  }

  // ----- Results -----

  /**
   With T downloaders interleaving at every access, and other offers, payments, deletions and the clock besides, a
   squeak never has more than T live offers from one peer; with one downloader, never more than one.
   */
  lemma AtMostOneEach(c: Course, run: seq<Race>, events: seq<Event>, k: nat)
    requires IsRun(c, run, events) && k < |run| && c.downloaders > 0
    requires run[0].looked == {} && |LiveOffers(c, run[0])| <= 1
    ensures |LiveOffers(c, run[k])| <= c.downloaders
  {
    RunKeepsInv(c, run, events, k);
  }

  // ----- The bound is reached -----

  function First(n: nat): (r: set<int>)
    ensures forall w :: w in r <==> 0 <= w < n
  {
    if n == 0 then {} else First(n - 1) + {n - 1}
  }

  /** Offers that a downloader each gets: for the squeak, unexpired, and under new payment hashes, all different. */
  ghost predicate AreFresh(c: Course, s: Race, offers: seq<PricedOffer>) {
    && (forall i :: 0 <= i < |offers| ==>
          && offers[i].offer.squeakHash == c.h && offers[i].payReq.paymentHash !in s.held.offers
          && s.nowMs < (offers[i].payReq.timestamp + offers[i].payReq.expiry) * 1000)
    && (forall i, j :: 0 <= i < j < |offers| ==> offers[i].payReq.paymentHash != offers[j].payReq.paymentHash)
  }

  ghost predicate IsReady(c: Course, s: Race, offers: seq<PricedOffer>) {
    && c.h in s.held.squeaks && s.held.squeaks[c.h].squeak.hash == c.h
    && s.looked == {} && LiveOffers(c, s) == {} && |offers| == c.downloaders && AreFresh(c, s, offers)
  }

  lemma Extend(c: Course, run: seq<Race>, events: seq<Event>, e: Event) returns (run': seq<Race>, events': seq<Event>)
    requires IsRun(c, run, events) && c.h in run[|run| - 1].held.squeaks && Possible(c, run[|run| - 1], e)
    ensures IsRun(c, run', events') && run'[0] == run[0] && events' == events + [e]
    ensures run'[|run'| - 1] == After(c, run[|run| - 1], e)
  {
    run', events' := run + [After(c, run[|run| - 1], e)], events + [e];
    forall k: nat | k < |events'| ensures EventAt(c, run', events', k) {
      if k < |events| {
        assert EventAt(c, run, events, k);
      }
    }
  }

  /** The first `n` downloaders look. */
  lemma {:induction false} AllLook(c: Course, s: Race, offers: seq<PricedOffer>, n: nat) returns (run: seq<Race>, events: seq<Event>)
    requires IsReady(c, s, offers) && n <= c.downloaders
    ensures IsRun(c, run, events) && run[0] == s && run[|run| - 1] == s.(looked := First(n))
  {
    if n == 0 {
      run, events := [s], [];
    } else {
      run, events := AllLook(c, s, offers, n - 1);
      assert forall p :: p in s.held.offers ==> IsLiveFor(s.held.offers[p], c.h, c.peer, s.nowMs) ==> p in LiveOffers(c, s);
      run, events := Extend(c, run, events, Look(n - 1));
    }
  }

  /** What has been stored once the first `n` have stored theirs. */
  ghost predicate HasStored(c: Course, s: Race, offers: seq<PricedOffer>, n: nat, now: Race)
    requires n <= |offers| == c.downloaders
  {
    && now.nowMs == s.nowMs && now.held.squeaks == s.held.squeaks
    && (forall w :: w in now.looked <==> n <= w < c.downloaders)
    && (forall p :: p in now.held.offers ==> p in s.held.offers || IsHashOf(offers, n, p))
    && (forall i :: 0 <= i < n ==> offers[i].payReq.paymentHash in LiveOffers(c, now))
  }

  ghost predicate IsHashOf(offers: seq<PricedOffer>, n: nat, p: Hash)
    requires n <= |offers|
  {
    exists i :: 0 <= i < n && offers[i].payReq.paymentHash == p
  }

  lemma StoreNext(c: Course, s: Race, offers: seq<PricedOffer>, n: nat, was: Race)
    requires IsReady(c, s, offers) && n < c.downloaders && HasStored(c, s, offers, n, was)
    ensures HasStored(c, s, offers, n + 1, After(c, was, Store(n, offers[n])))
  {
    var now, p := After(c, was, Store(n, offers[n])), offers[n].payReq.paymentHash;
    assert p !in was.held.offers;
    forall q | q in now.held.offers && q !in s.held.offers ensures IsHashOf(offers, n + 1, q) {
      if q != p {
        assert IsHashOf(offers, n, q);
      }
    }
    assert p in LiveOffers(c, now);
    forall i | 0 <= i < n ensures offers[i].payReq.paymentHash in LiveOffers(c, now) {
      assert offers[i].payReq.paymentHash in LiveOffers(c, was);
    }
  }

  lemma {:induction false} AllStore(c: Course, s: Race, offers: seq<PricedOffer>, n: nat) returns (run: seq<Race>, events: seq<Event>)
    requires IsReady(c, s, offers) && n <= c.downloaders
    ensures IsRun(c, run, events) && run[0] == s && HasStored(c, s, offers, n, run[|run| - 1])
  {
    if n == 0 {
      run, events := AllLook(c, s, offers, c.downloaders);
    } else {
      run, events := AllStore(c, s, offers, n - 1);
      StoreNext(c, s, offers, n - 1, run[|run| - 1]);
      run, events := Extend(c, run, events, Store(n - 1, offers[n - 1]));
    }
  }

  lemma {:induction false} DistinctHashes(offers: seq<PricedOffer>, n: nat) returns (hashes: set<Hash>)
    requires n <= |offers|
    requires forall i, j :: 0 <= i < j < |offers| ==> offers[i].payReq.paymentHash != offers[j].payReq.paymentHash
    ensures |hashes| == n && forall p :: p in hashes <==> IsHashOf(offers, n, p)
  {
    if n == 0 {
      hashes := {};
    } else {
      var rest := DistinctHashes(offers, n - 1);
      var p := offers[n - 1].payReq.paymentHash;
      hashes := rest + {p};
      forall q ensures q in hashes <==> IsHashOf(offers, n, q) {
        assert IsHashOf(offers, n - 1, q) ==> IsHashOf(offers, n, q);
        assert IsHashOf(offers, n, q) ==> q == p || IsHashOf(offers, n - 1, q);
      }
    }
  }

  /**
   The bound is the best possible. Whenever no offer is live, and T downloaders get offers under different new
   payment hashes, there is a run in which all look before any stores: it ends with T live offers.
   */
  lemma BoundIsReached(c: Course, s: Race, offers: seq<PricedOffer>) returns (run: seq<Race>, events: seq<Event>)
    requires IsReady(c, s, offers) && c.downloaders > 0
    ensures IsRun(c, run, events) && run[0] == s
    ensures |LiveOffers(c, run[|run| - 1])| == c.downloaders
  {
    run, events := AllStore(c, s, offers, c.downloaders);
    var last := run[|run| - 1];
    var hashes := DistinctHashes(offers, c.downloaders);
    assert hashes <= LiveOffers(c, last);
    SubsetSize(hashes, LiveOffers(c, last));
    var m: nat := |run| - 1;
    AtMostOneEach(c, run, events, m);
  }

  // ----- One downloader, again and again -----

  /** A downloader can look on exactly while no unpaid offer of the peer for the squeak is unexpired. */
  lemma LookExactlyWhen(c: Course, s: Race, w: nat)
    ensures Possible(c, s, Look(w)) <==>
              w < c.downloaders && w !in s.looked && !HasOpenOffer(s.held.offers, c.h, c.peer, s.nowMs)
  {
  }

  /** Offers for another squeak or from another peer come in, offers go, and time passes, without a downloader taking part. */
  lemma OthersTakePart(c: Course, s: Race, p: Hash, row: ReceivedOfferRow, gone: set<Hash>, ms: nat)
    requires c.h in s.held.squeaks
    ensures Possible(c, s, StoreOther(p, row)) <==> row.offer.squeakHash != c.h || row.offer.peerAddress != c.peer
    ensures Possible(c, s, StoreOther(p, row)) && p !in s.held.offers ==>
              After(c, s, StoreOther(p, row)) == s.(held := s.held.(offers := s.held.offers[p := row]))
    ensures Possible(c, s, StoreOther(p, row)) && p in s.held.offers ==> After(c, s, StoreOther(p, row)) == s
    ensures Possible(c, s, DeleteOffers(gone)) && Possible(c, s, Tick(ms))
    ensures forall q :: q in After(c, s, DeleteOffers(gone)).held.offers <==> q in s.held.offers && q !in gone
    ensures After(c, s, Tick(ms)) == s.(nowMs := s.nowMs + ms)
  {
  }

  lemma LookNow(c: Course, run: seq<Race>, events: seq<Event>) returns (run': seq<Race>, events': seq<Event>)
    requires IsRun(c, run, events) && c.downloaders > 0
    requires var s := run[|run| - 1]; s.looked == {} && LiveOffers(c, s) == {} && c.h in s.held.squeaks
    ensures IsRun(c, run', events') && run'[0] == run[0] && events' == events + [Look(0)]
    ensures run'[|run'| - 1] == run[|run| - 1].(looked := {0})
  {
    var s := run[|run| - 1];
    forall p | p in s.held.offers ensures !IsLiveFor(s.held.offers[p], c.h, c.peer, s.nowMs) {
      assert p !in LiveOffers(c, s);
    }
    run', events' := Extend(c, run, events, Look(0));
    assert {} + {0} == {0};
  }

  /** A downloader that has given up may look again, and once its offer is paid it takes another. */
  lemma OfferAfterOffer(c: Course, s: Race, offers: seq<PricedOffer>) returns (run: seq<Race>, events: seq<Event>)
    requires IsReady(c, s, offers) && |offers| == 2
    ensures IsRun(c, run, events) && run[0] == s
    ensures events == [Look(0)] + [GiveUp(0)] + [Look(0)] + [Store(0, offers[0])] + [Pay(offers[0].payReq.paymentHash)]
                      + [Look(0)] + [Store(0, offers[1])]
    ensures var last, p, q := run[|run| - 1], offers[0].payReq.paymentHash, offers[1].payReq.paymentHash;
            && last.nowMs == s.nowMs && last.looked == {} && last.held.squeaks == s.held.squeaks
            && last.held.offers.Keys == s.held.offers.Keys + {p, q} && LiveOffers(c, last) == {q}
            && last.held.offers[p].offer.paid && last.held.offers[p].createdMs == s.nowMs
            && last.held.offers[q].createdMs == s.nowMs
  {
    run, events := [s], [];
    run, events := LookNow(c, run, events);
    run, events := Extend(c, run, events, GiveUp(0));
    assert run[|run| - 1] == s;
    run, events := TakeAndPay(c, run, events, s, offers[0]);
    var paid, q := run[|run| - 1], offers[1].payReq.paymentHash;
    run, events := LookNow(c, run, events);
    run, events := Extend(c, run, events, Store(0, offers[1]));
    StoresOne(c, paid, offers[1]);
  }

  /** Storing an offer while none is live makes it the only live one. */
  lemma StoresOne(c: Course, s: Race, offer: PricedOffer)
    requires LiveOffers(c, s) == {} && offer.offer.squeakHash == c.h && offer.payReq.paymentHash !in s.held.offers
    requires s.nowMs < (offer.payReq.timestamp + offer.payReq.expiry) * 1000
    requires c.h in s.held.squeaks && s.held.squeaks[c.h].squeak.hash == c.h
    ensures var s', p := After(c, s.(looked := {0}), Store(0, offer)), offer.payReq.paymentHash;
            && s'.looked == {} && s'.nowMs == s.nowMs && s'.held.squeaks == s.held.squeaks
            && s'.held.offers.Keys == s.held.offers.Keys + {p} && LiveOffers(c, s') == {p}
            && s'.held.offers[p].createdMs == s.nowMs
            && forall q :: q in s.held.offers ==> s'.held.offers[q] == s.held.offers[q]
  {
    var s', p := After(c, s.(looked := {0}), Store(0, offer)), offer.payReq.paymentHash;
    forall q | q in LiveOffers(c, s') ensures q == p {
      assert q != p ==> q in LiveOffers(c, s);
    }
    assert p in LiveOffers(c, s');
  }

  lemma TakeAndPay(c: Course, run: seq<Race>, events: seq<Event>, s: Race, offer: PricedOffer)
    returns (run': seq<Race>, events': seq<Event>)
    requires IsRun(c, run, events) && run[|run| - 1] == s && c.downloaders > 0 && s.looked == {} && LiveOffers(c, s) == {}
    requires offer.offer.squeakHash == c.h && offer.payReq.paymentHash !in s.held.offers
    requires s.nowMs < (offer.payReq.timestamp + offer.payReq.expiry) * 1000
    requires c.h in s.held.squeaks && s.held.squeaks[c.h].squeak.hash == c.h
    ensures IsRun(c, run', events') && run'[0] == run[0]
    ensures events' == events + [Look(0)] + [Store(0, offer)] + [Pay(offer.payReq.paymentHash)]
    ensures var s', p := run'[|run'| - 1], offer.payReq.paymentHash;
            && s'.looked == {} && s'.nowMs == s.nowMs && s'.held.squeaks == s.held.squeaks
            && s'.held.offers.Keys == s.held.offers.Keys + {p} && LiveOffers(c, s') == {}
            && s'.held.offers[p].offer.paid && s'.held.offers[p].createdMs == s.nowMs
  {
    run', events' := LookNow(c, run, events);
    StoresOne(c, s, offer);
    run', events' := Extend(c, run', events', Store(0, offer));
    var stored, p := run'[|run'| - 1], offer.payReq.paymentHash;
    run', events' := Extend(c, run', events', Pay(p));
    assert LiveOffers(c, run'[|run'| - 1]) <= LiveOffers(c, stored) - {p};
  }
}
