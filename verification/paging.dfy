/**
 Keyset pagination: the paged queries of the database, and the loop of the
 web page that appends each page to its list and asks again from the last
 item. A row is identified by its hash, which is the primary key of a squeak
 and unique for a payment, and ordered by a key that ends in that hash.
 */
module Paging {
  import opened Basics

  // ----- Order: row comparison of SQL, and bytes compared as the database does -----

  type Key = seq<int>

  const MAX_INT := 999999999999

  function Ints(hash: Hash): (r: Key)
    ensures |r| == |hash| && forall i :: 0 <= i < |r| ==> r[i] == hash[i] as int
  {
    seq(|hash|, i requires 0 <= i < |hash| => hash[i] as int)
  }

  /** 32 bytes of 0xff. */
  function MaxHash(): Hash {
    seq(32, _ => 255)
  }

  /** Lexicographic order of keys. */
  predicate Less(a: Key, b: Key) {
    b != [] && (a == [] || a[0] < b[0] || (a[0] == b[0] && Less(a[1..], b[1..])))
  }

  lemma {:induction false} LessTransitive(a: Key, b: Key, c: Key)
    requires Less(a, b) && Less(b, c)
    ensures Less(a, c)
  {
    if a != [] && a[0] == b[0] == c[0] {
      LessTransitive(a[1..], b[1..], c[1..]);
    }
  }

  lemma {:induction false} LessIsTotal(a: Key, b: Key)
    ensures a == b || Less(a, b) || Less(b, a)
    ensures !(Less(a, b) && Less(b, a))
    ensures a == b ==> !Less(a, b)
  {
    if a == [] || b == [] || a[0] != b[0] {
    } else {
      LessIsTotal(a[1..], b[1..]);
      assert a == [a[0]] + a[1..] && b == [b[0]] + b[1..];
    }
  }

  /** Comparing keys made of a position and a hash is comparing the positions first, then the hashes. */
  lemma {:induction false} TupleOrder(a: Key, b: Key, s: Key, t: Key)
    requires |a| == |b|
    ensures Less(a + s, b + t) <==> (Less(a, b) || (a == b && Less(s, t)))
  {
    if a == [] {
      assert a + s == s && b + t == t;
    } else {
      TupleOrder(a[1..], b[1..], s, t);
      assert (a + s)[1..] == a[1..] + s && (b + t)[1..] == b[1..] + t;
      assert a == [a[0]] + a[1..] && b == [b[0]] + b[1..];
    }
  }

  /** The sort key of each hash. It does not change while the row exists. */
  type Ranking = Hash -> Key

  ghost predicate IsRanking(rank: Ranking) {
    forall a, b :: rank(a) == rank(b) ==> a == b
  }

  /** A ranking by position, then hash: what every paged query sorts by. */
  function RankBy(position: Hash -> Key): Ranking {
    h => position(h) + Ints(h)
  }

  lemma PositionThenHashIsRanking(position: Hash -> Key, n: nat)
    requires forall h :: |position(h)| == n
    ensures IsRanking(RankBy(position))
  {
    forall a, b | RankBy(position)(a) == RankBy(position)(b) ensures a == b {
      assert RankBy(position)(a)[n..] == Ints(a);
      assert RankBy(position)(b)[n..] == Ints(b);
      forall i | 0 <= i < |a| ensures a[i] == b[i] {
        assert Ints(a)[i] == Ints(b)[i];
      }
    }
  }

  // ----- First cursors -----

  /** A hash of 32 bytes is below the greatest one, unless it is that one. */
  lemma BelowMaxHash(h: Hash)
    requires |h| == 32
    ensures Less(Ints(h), Ints(MaxHash())) <==> h != MaxHash()
  {
    AtMostBytes(Ints(h), Ints(MaxHash()));
    if h != MaxHash() {
      var i :| 0 <= i < 32 && h[i] != MaxHash()[i];
      assert Ints(h)[i] != Ints(MaxHash())[i];
    }
  }

  lemma {:induction false} AtMostBytes(a: Key, b: Key)
    requires |a| == |b|
    requires forall i :: 0 <= i < |a| ==> a[i] <= b[i] && b[i] == 255
    ensures Less(a, b) <==> a != b
  {
    if a == [] {
    } else {
      AtMostBytes(a[1..], b[1..]);
      assert a == [a[0]] + a[1..] && b == [b[0]] + b[1..];
    }
  }

  /** Squeaks are listed by block height, then time, then hash. */
  function SqueakPosition(height: Hash -> int, time: Hash -> int): Hash -> Key {
    h => [height(h), time(h)]
  }

  function FirstSqueakCursor(): Key {
    [MAX_INT, MAX_INT] + Ints(MaxHash())
  }

  /** The squeaks that a first page can show: all but those stamped at or beyond the greatest height and time. */
  lemma BelowFirstSqueakCursor(height: Hash -> int, time: Hash -> int, h: Hash)
    requires |h| == 32
    ensures Less(RankBy(SqueakPosition(height, time))(h), FirstSqueakCursor()) <==>
              || height(h) < 999999999999
              || (height(h) == 999999999999
                  && (time(h) < 999999999999 || (time(h) == 999999999999 && exists i :: 0 <= i < |h| && h[i] != 255)))
  {
    BelowMaxHash(h);
    var a, b := [height(h), time(h)], [MAX_INT, MAX_INT];
    TupleOrder(a, b, Ints(h), Ints(MaxHash()));
    assert Less(a[1..], b[1..]) <==> time(h) < MAX_INT;
  }

  /** Payments are listed by creation time, then payment hash. */
  function PaymentPosition(created: Hash -> int): Hash -> Key {
    h => [created(h)]
  }

  function FirstPaymentCursor(nowMs: int): Key {
    [nowMs] + Ints(MaxHash())
  }

  /** The payments that a first page asked at `nowMs` can show. */
  lemma BelowFirstPaymentCursor(created: Hash -> int, nowMs: int, h: Hash)
    requires |h| == 32
    ensures Less(RankBy(PaymentPosition(created))(h), FirstPaymentCursor(nowMs)) <==>
              (created(h) < nowMs || (created(h) == nowMs && h != MaxHash()))
  {
    BelowMaxHash(h);
    TupleOrder([created(h)], [nowMs], Ints(h), Ints(MaxHash()));
  }

  // ----- Sorting -----

  predicate IsDescending(rank: Ranking, s: seq<Hash>) {
    forall i, j :: 0 <= i < j < |s| ==> Less(rank(s[j]), rank(s[i]))
  }

  ghost predicate IsGreatest(rank: Ranking, s: set<Hash>, g: Hash) {
    g in s && forall h :: h in s && h != g ==> Less(rank(h), rank(g))
  }

  lemma {:induction false} GreatestExists(rank: Ranking, s: set<Hash>)
    requires IsRanking(rank) && s != {}
    ensures exists g :: IsGreatest(rank, s, g)
    decreases |s|
  {
    var x :| x in s;
    var rest := s - {x};
    assert forall h :: h in s ==> h == x || h in rest;
    if rest == {} {
      assert IsGreatest(rank, s, x);
    } else {
      GreatestExists(rank, rest);
      var y :| IsGreatest(rank, rest, y);
      LessIsTotal(rank(x), rank(y));
      if Less(rank(y), rank(x)) {
        forall h | h in rest && h != y ensures Less(rank(h), rank(x)) {
          LessTransitive(rank(h), rank(y), rank(x));
        }
        assert IsGreatest(rank, s, x);
      } else {
        assert IsGreatest(rank, s, y);
      }
    }
  }

  lemma GreatestFirst(rank: Ranking, s: set<Hash>, g: Hash, rest: seq<Hash>)
    requires IsGreatest(rank, s, g) && IsDescending(rank, rest) && |rest| == |s - {g}|
    requires forall h :: h in rest <==> h in s - {g}
    ensures IsDescending(rank, [g] + rest) && |[g] + rest| == |s|
    ensures forall h :: h in [g] + rest <==> h in s
  {
    var r := [g] + rest;
    forall i, j | 0 <= i < j < |r| ensures Less(rank(r[j]), rank(r[i])) {
      assert r[j] == rest[j - 1] && rest[j - 1] in rest;
    }
    assert s == (s - {g}) + {g};
  }

  /** The members of a set in descending order. */
  ghost function Descending(rank: Ranking, s: set<Hash>): (r: seq<Hash>)
    requires IsRanking(rank)
    ensures IsDescending(rank, r)
    ensures forall h :: h in r <==> h in s
    ensures |r| == |s|
    decreases |s|
  {
    if s == {} then [] else
    GreatestExists(rank, s);
    var g :| IsGreatest(rank, s, g);
    var rest := Descending(rank, s - {g});
    GreatestFirst(rank, s, g, rest);
    [g] + rest
  }

  lemma {:induction false} DescendingIsUnique(rank: Ranking, p: seq<Hash>, q: seq<Hash>)
    requires IsDescending(rank, p) && IsDescending(rank, q)
    requires forall h :: h in p <==> h in q
    ensures p == q
  {
    assert p != [] ==> p[0] in q;
    assert q != [] ==> q[0] in p;
    if p != [] && q != [] {
      HeadIsSame(rank, p, q);
      forall h ensures h in p[1..] <==> h in q[1..] {
        NotInTail(rank, p, h);
        NotInTail(rank, q, h);
      }
      DescendingIsUnique(rank, p[1..], q[1..]);
      assert p == [p[0]] + p[1..] && q == [q[0]] + q[1..];
    }
  }

  lemma HeadIsSame(rank: Ranking, p: seq<Hash>, q: seq<Hash>)
    requires IsDescending(rank, p) && IsDescending(rank, q)
    requires forall h :: h in p <==> h in q
    requires p != [] && q != []
    ensures p[0] == q[0]
  {
    assert p[0] in q && q[0] in p;
    LessIsTotal(rank(p[0]), rank(q[0]));
  }

  lemma NotInTail(rank: Ranking, p: seq<Hash>, h: Hash)
    requires IsDescending(rank, p) && p != []
    ensures h in p[1..] <==> (h in p && h != p[0])
  {
    LessIsTotal(rank(p[0]), rank(p[0]));
    if h in p && h != p[0] {
      var i :| 0 <= i < |p| && p[i] == h;
      assert p[1..][i - 1] == h;
    }
  }

  // ----- The paged query -----

  /** One item of a page, or of the list on screen: a row as it was when it was read. */
  datatype Entry<T> = Entry(hash: Hash, value: T)

  function Hashes<T>(list: seq<Entry<T>>): (r: seq<Hash>)
    ensures |r| == |list| && forall i :: 0 <= i < |r| ==> r[i] == list[i].hash
  {
    seq(|list|, i requires 0 <= i < |list| => list[i].hash)
  }

  lemma HashesOfSum<T>(p: seq<Entry<T>>, q: seq<Entry<T>>)
    ensures Hashes(p + q) == Hashes(p) + Hashes(q)
  {
  }

  function Below<T>(rank: Ranking, table: map<Hash, T>, cursor: Key): set<Hash> {
    set h | h in table && Less(rank(h), cursor)
  }

  /** Every item of a list shows its row as the table holds it. */
  ghost predicate ShowsTable<T>(list: seq<Entry<T>>, table: map<Hash, T>) {
    forall i :: 0 <= i < |list| ==> list[i].hash in table && list[i].value == table[list[i].hash]
  }

  function Read<T>(table: map<Hash, T>, hashes: seq<Hash>): (r: seq<Entry<T>>)
    requires forall h :: h in hashes ==> h in table
    ensures Hashes(r) == hashes
    ensures ShowsTable(r, table)
  {
    var r := seq(|hashes|, i requires 0 <= i < |hashes| => Entry(hashes[i], table[hashes[i]]));
    assert Hashes(r) == hashes;
    r
  }

  function Take<T>(s: seq<T>, n: nat): (r: seq<T>)
    ensures |r| == if n < |s| then n else |s|
    ensures forall i :: 0 <= i < |r| ==> r[i] == s[i]
    ensures forall x :: x in r ==> x in s
    ensures forall i :: 0 <= i < |s| && i < n ==> s[i] in r
  {
    var r := if n < |s| then s[..n] else s;
    assert forall i :: 0 <= i < |s| && i < n ==> r[i] == s[i];
    r
  }

  lemma TakeIsGreatest(rank: Ranking, all: seq<Hash>, limit: nat)
    requires IsDescending(rank, all)
    ensures IsDescending(rank, Take(all, limit))
    ensures forall h :: h in all && h !in Take(all, limit) ==>
              |Take(all, limit)| == limit && forall x :: x in Take(all, limit) ==> Less(rank(h), rank(x))
  {
    forall h | h in all && h !in Take(all, limit)
      ensures |Take(all, limit)| == limit
      ensures forall x :: x in Take(all, limit) ==> Less(rank(h), rank(x))
    {
      var i :| 0 <= i < |all| && all[i] == h;
      assert i >= limit;
    }
  }

  /**
   The rows of `table` below the cursor, sorted descending, at most `limit` of
   them. `table` holds the rows that pass the other filters of the query.
   */
  ghost function Page<T>(rank: Ranking, table: map<Hash, T>, cursor: Key, limit: nat): (r: seq<Entry<T>>)
    requires IsRanking(rank)
    ensures IsDescending(rank, Hashes(r)) && |r| <= limit
    ensures ShowsTable(r, table)
    ensures forall h :: h in Hashes(r) ==> h in Below(rank, table, cursor)
    ensures forall h :: h in Below(rank, table, cursor) && h !in Hashes(r) ==>
              |r| == limit && forall x :: x in Hashes(r) ==> Less(rank(h), rank(x))
  {
    var all := Descending(rank, Below(rank, table, cursor));
    TakeIsGreatest(rank, all, limit);
    Read(table, Take(all, limit))
  }

  // ----- Pages of a table that does not change -----

  /** Where the next request starts: at the last item, or at the first cursor when the list is empty. */
  function NextCursor<T>(rank: Ranking, list: seq<Entry<T>>, first: Key): Key {
    if list == [] then first else rank(list[|list| - 1].hash)
  }

  /** The list after `k` requests of `limit` rows each, every answer appended. */
  ghost function Fetched<T>(rank: Ranking, table: map<Hash, T>, first: Key, limit: nat, k: nat): seq<Entry<T>>
    requires IsRanking(rank)
  {
    if k == 0 then [] else
    var list := Fetched(rank, table, first, limit, k - 1);
    list + Page(rank, table, NextCursor(rank, list, first), limit)
  }

  /** Everything the query selects, in one sorted list. */
  ghost function WholeList<T>(rank: Ranking, table: map<Hash, T>, first: Key): seq<Hash>
    requires IsRanking(rank)
  {
    Descending(rank, Below(rank, table, first))
  }

  /** In a descending list, the members below the `m`-th are those that come after it. */
  lemma AfterIsBelow(rank: Ranking, all: seq<Hash>, m: nat, h: Hash)
    requires IsDescending(rank, all) && 0 < m <= |all|
    ensures h in all[m..] <==> h in all && Less(rank(h), rank(all[m - 1]))
  {
    if h in all[m..] {
      var i :| 0 <= i < |all[m..]| && all[m..][i] == h;
      assert all[m + i] == h;
    }
    if h in all && Less(rank(h), rank(all[m - 1])) {
      var i :| 0 <= i < |all| && all[i] == h;
      LessIsTotal(rank(h), rank(all[m - 1]));
      assert i >= m;
      assert all[m..][i - m] == h;
    }
  }

  /** Below the `m`-th item of the sorted list lies exactly the rest of the list. */
  lemma RestOfList<T>(rank: Ranking, table: map<Hash, T>, first: Key, m: nat)
    requires IsRanking(rank)
    requires 0 < m <= |WholeList(rank, table, first)|
    ensures Descending(rank, Below(rank, table, rank(WholeList(rank, table, first)[m - 1])))
         == WholeList(rank, table, first)[m..]
  {
    var all := WholeList(rank, table, first);
    var cursor := rank(all[m - 1]);
    assert all[m - 1] in all;
    forall h ensures h in Below(rank, table, cursor) <==> h in all[m..] {
      AfterIsBelow(rank, all, m, h);
      if h in Below(rank, table, cursor) {
        LessTransitive(rank(h), cursor, first);
      }
    }
    DescendingIsUnique(rank, Descending(rank, Below(rank, table, cursor)), all[m..]);
  }

  lemma TakeMore<T>(s: seq<T>, n: nat, k: nat)
    ensures Take(s, n) + Take(s[|Take(s, n)|..], k) == Take(s, n + k)
  {
    if n < |s| <= n + k {
      assert s[..n] + s[n..] == s;
    } else if n + k < |s| {
      assert s[n..][..k] == s[n..n + k] && s[..n + k] == s[..n] + s[n..n + k];
    }
  }

  /** What the next request selects from, after a list that is a prefix of the sorted list. */
  lemma RestAfter<T>(rank: Ranking, table: map<Hash, T>, first: Key, list: seq<Entry<T>>, n: nat)
    requires IsRanking(rank)
    requires Hashes(list) == Take(WholeList(rank, table, first), n)
    ensures Descending(rank, Below(rank, table, NextCursor(rank, list, first)))
         == WholeList(rank, table, first)[|list|..]
  {
    var m := |list|;
    if m > 0 {
      RestOfList(rank, table, first, m);
      assert Hashes(list)[m - 1] == WholeList(rank, table, first)[m - 1];
    }
  }

  lemma NextPage<T>(rank: Ranking, table: map<Hash, T>, first: Key, list: seq<Entry<T>>, n: nat, limit: nat)
    requires IsRanking(rank)
    requires Hashes(list) == Take(WholeList(rank, table, first), n)
    ensures Hashes(list + Page(rank, table, NextCursor(rank, list, first), limit))
         == Take(WholeList(rank, table, first), n + limit)
  {
    RestAfter(rank, table, first, list, n);
    HashesOfSum(list, Page(rank, table, NextCursor(rank, list, first), limit));
    TakeMore(WholeList(rank, table, first), n, limit);
  }

  function Times(k: nat, limit: nat): (r: nat)
    ensures r == k * limit
  {
    if k == 0 then 0 else Times(k - 1, limit) + limit
  }

  /** The list is the first `n` rows of the sorted list. */
  ghost predicate IsPrefix<T>(rank: Ranking, table: map<Hash, T>, first: Key, list: seq<Entry<T>>, n: nat)
    requires IsRanking(rank)
  {
    Hashes(list) == Take(WholeList(rank, table, first), n)
  }

  /** Each request takes a prefix to a longer one. */
  ghost predicate PrefixesGrow<T>(rank: Ranking, table: map<Hash, T>, first: Key, limit: nat)
    requires IsRanking(rank)
  {
    forall k: nat :: IsPrefix(rank, table, first, Fetched(rank, table, first, limit, k), Times(k, limit)) ==>
      IsPrefix(rank, table, first, Fetched(rank, table, first, limit, k + 1), Times(k + 1, limit))
  }

  lemma RequestsExtendPrefixes<T>(rank: Ranking, table: map<Hash, T>, first: Key, limit: nat)
    requires IsRanking(rank)
    ensures PrefixesGrow(rank, table, first, limit)
  {
    forall k: nat | IsPrefix(rank, table, first, Fetched(rank, table, first, limit, k), Times(k, limit))
      ensures IsPrefix(rank, table, first, Fetched(rank, table, first, limit, k + 1), Times(k + 1, limit))
    {
      NextPage(rank, table, first, Fetched(rank, table, first, limit, k), Times(k, limit), limit);
    }
  }

  lemma {:induction false} FetchedIsPrefix<T>(rank: Ranking, table: map<Hash, T>, first: Key, limit: nat, k: nat)
    requires IsRanking(rank) && PrefixesGrow(rank, table, first, limit)
    ensures IsPrefix(rank, table, first, Fetched(rank, table, first, limit, k), Times(k, limit))
  {
    if k > 0 {
      var m: nat := k - 1;
      FetchedIsPrefix(rank, table, first, limit, m);
      assert IsPrefix(rank, table, first, Fetched(rank, table, first, limit, m + 1), Times(m + 1, limit));
    } else {
      assert Fetched(rank, table, first, limit, 0) == [] && Times(0, limit) == 0;
    }
  }

  /** On a fixed table, `k` requests of size `limit` show exactly the first `k * limit` rows of the sorted list. */
  lemma PagesAreThePrefix<T>(rank: Ranking, table: map<Hash, T>, first: Key, limit: nat, k: nat)
    requires IsRanking(rank)
    ensures Hashes(Fetched(rank, table, first, limit, k)) == Take(WholeList(rank, table, first), Times(k, limit))
  {
    RequestsExtendPrefixes(rank, table, first, limit);
    FetchedIsPrefix(rank, table, first, limit, k);
  }

  lemma JoinShowsTable<T>(p: seq<Entry<T>>, q: seq<Entry<T>>, table: map<Hash, T>)
    requires ShowsTable(p, table) && ShowsTable(q, table)
    ensures ShowsTable(p + q, table)
  {
  }

  /** What those requests show of each row is what the table holds. */
  lemma {:induction false} PagesShowTheTable<T>(rank: Ranking, table: map<Hash, T>, first: Key, limit: nat, k: nat)
    requires IsRanking(rank)
    ensures ShowsTable(Fetched(rank, table, first, limit, k), table)
  {
    if k > 0 {
      var list := Fetched(rank, table, first, limit, k - 1);
      PagesShowTheTable(rank, table, first, limit, k - 1);
      JoinShowsTable(list, Page(rank, table, NextCursor(rank, list, first), limit), table);
    }
  }

  // ----- Nothing is out of reach -----

  /** Enough pages of a fixed table show exactly the rows below the first cursor. */
  lemma EnoughPagesShowAll<T>(rank: Ranking, table: map<Hash, T>, first: Key, limit: nat, k: nat)
    requires IsRanking(rank) && k * limit >= |table|
    ensures Hashes(Fetched(rank, table, first, limit, k)) == WholeList(rank, table, first)
  {
    PagesAreThePrefix(rank, table, first, limit, k);
    SubsetSize(Below(rank, table, first), table.Keys);
  }

  /**
   Enough pages from the first cursor show every squeak whose height and time fit their fields, each once, the highest
   and among those the latest first.
   */
  lemma EverySqueakIsShown<T>(height: Hash -> int, time: Hash -> int, table: map<Hash, T>, limit: nat, k: nat)
    requires forall h :: h in table ==> |h| == 32 && 0 <= height(h) < 0x8000_0000 && 0 <= time(h) < 0x1_0000_0000
    requires k * limit >= |table|
    ensures IsRanking(RankBy(SqueakPosition(height, time)))
    ensures var list := Fetched(RankBy(SqueakPosition(height, time)), table, FirstSqueakCursor(), limit, k);
            && |list| == |table|
            && (forall h :: h in table ==> Entry(h, table[h]) in list)
            && (forall i, j :: 0 <= i < j < |list| ==>
                  || height(list[j].hash) < height(list[i].hash)
                  || (height(list[j].hash) == height(list[i].hash) && time(list[j].hash) <= time(list[i].hash)))
  {
    var rank := RankBy(SqueakPosition(height, time));
    PositionThenHashIsRanking(SqueakPosition(height, time), 2);
    var list := Fetched(rank, table, FirstSqueakCursor(), limit, k);
    EnoughPagesShowAll(rank, table, FirstSqueakCursor(), limit, k);
    assert Below(rank, table, FirstSqueakCursor()) == table.Keys by {
      forall h | h in table ensures h in Below(rank, table, FirstSqueakCursor()) {
        BelowFirstSqueakCursor(height, time, h);
      }
    }
    assert forall h :: h in table ==> Entry(h, table[h]) in list by {
      PagesShowTheTable(rank, table, FirstSqueakCursor(), limit, k);
      ListedIsShown(list, table);
    }
    HighestFirst(height, time, list);
  }

  lemma ListedIsShown<T>(list: seq<Entry<T>>, table: map<Hash, T>)
    requires ShowsTable(list, table)
    ensures forall h :: h in Hashes(list) ==> h in table && Entry(h, table[h]) in list
  {
    forall h | h in Hashes(list) ensures h in table && Entry(h, table[h]) in list {
      var i :| 0 <= i < |list| && Hashes(list)[i] == h;
      assert list[i] == Entry(h, table[h]);
    }
  }

  lemma HighestFirst<T>(height: Hash -> int, time: Hash -> int, list: seq<Entry<T>>)
    requires IsDescending(RankBy(SqueakPosition(height, time)), Hashes(list))
    ensures forall i, j :: 0 <= i < j < |list| ==>
              || height(list[j].hash) < height(list[i].hash)
              || (height(list[j].hash) == height(list[i].hash) && time(list[j].hash) <= time(list[i].hash))
  {
    forall i, j | 0 <= i < j < |list|
      ensures height(list[j].hash) < height(list[i].hash)
           || (height(list[j].hash) == height(list[i].hash) && time(list[j].hash) <= time(list[i].hash))
    {
      var rank := RankBy(SqueakPosition(height, time));
      assert Less(rank(Hashes(list)[j]), rank(Hashes(list)[i]));
      HigherFirst(height, time, list[j].hash, list[i].hash);
    }
  }

  lemma HigherFirst(height: Hash -> int, time: Hash -> int, g: Hash, h: Hash)
    requires Less(RankBy(SqueakPosition(height, time))(g), RankBy(SqueakPosition(height, time))(h))
    ensures height(g) < height(h) || (height(g) == height(h) && time(g) <= time(h))
  {
    TupleOrder([height(g), time(g)], [height(h), time(h)], Ints(g), Ints(h));
    assert [height(g), time(g)][1..] == [time(g)] && [height(h), time(h)][1..] == [time(h)];
  }
}
