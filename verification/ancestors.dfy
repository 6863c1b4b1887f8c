/**
 The recursive query that shows the squeaks above a reply. `held` maps each
 stored squeak to the hash it replies to, if any.
 */
module Ancestors {
  import opened Basics

  type Replies = map<Hash, Option<Hash>>

  /** A row of the recursive table: a hash, which may be null, and how far up it is. */
  datatype Row = Row(hash: Option<Hash>, depth: nat)

  predicate IsHeld(held: Replies, row: Row) {
    row.hash.Some? && row.hash.value in held
  }

  /** What one row leads to: the hash that its squeak replies to. */
  function Above(held: Replies, row: Row): seq<Row> {
    if IsHeld(held, row) then [Row(held[row.hash.value], row.depth + 1)] else []
  }

  /** The rows that one round of the recursion adds. */
  function NextRound(held: Replies, rows: seq<Row>): seq<Row> {
    if rows == [] then [] else Above(held, rows[0]) + NextRound(held, rows[1..])
  }

  function Round(held: Replies, h: Hash, k: nat): seq<Row> {
    if k > 0 then NextRound(held, Round(held, h, k - 1))
    else if h in held then [Row(Some(h), 0)]
    else []
  }

  /** The rows of the first `k` rounds, put together without removing repeats. */
  function FirstRounds(held: Replies, h: Hash, k: nat): seq<Row> {
    if k == 0 then [] else FirstRounds(held, h, k - 1) + Round(held, h, k - 1)
  }

  /** The recursion ends at the first round that adds nothing. */
  ghost predicate Terminates(held: Replies, h: Hash) {
    exists k: nat :: Round(held, h, k) == []
  }

  /** The join with the stored squeaks drops rows whose hash is null or not stored. */
  function Joined(held: Replies, rows: seq<Row>): seq<Row> {
    if rows == [] then [] else
    var rest := Joined(held, rows[1..]);
    if IsHeld(held, rows[0]) then [rows[0]] + rest else rest
  }

  /** The joined rows, in some order in which no row is followed by a deeper one. */
  ghost predicate IsSortedByDepth(rows: seq<Row>, sorted: seq<Row>) {
    && multiset(sorted) == multiset(rows)
    && forall i, j :: 0 <= i < j < |sorted| ==> sorted[i].depth >= sorted[j].depth
  }

  /** What the query can return, when its recursion ends after `k` rounds. */
  ghost predicate IsAnswer(held: Replies, h: Hash, k: nat, answer: seq<Row>) {
    && Round(held, h, k) == []
    && IsSortedByDepth(Joined(held, FirstRounds(held, h, k)), answer)
  }

  // ----- The plain walk -----

  /**
   The chain that ends at `h`, oldest first: each squeak replies to the one
   before it, and the first is not a reply or replies to a squeak not stored.
   */
  ghost predicate IsThread(held: Replies, h: Hash, thread: seq<Hash>) {
    if h !in held then thread == [] else
    && thread != []
    && thread[|thread| - 1] == h
    && (forall i :: 0 <= i < |thread| ==> thread[i] in held)
    && (forall i :: 0 < i < |thread| ==> held[thread[i]] == Some(thread[i - 1]))
    && (held[thread[0]].None? || held[thread[0]].value !in held)
  }

  /** The `k`-th hash up the reply chain. */
  function Ancestor(held: Replies, h: Hash, k: nat): Option<Hash> {
    if k == 0 then Some(h) else
    var below := Ancestor(held, h, k - 1);
    if below.Some? && below.value in held then held[below.value] else None
  }

  predicate HeldAt(held: Replies, h: Hash, k: nat) {
    IsHeld(held, Row(Ancestor(held, h, k), k))
  }

  ghost predicate NeverRepeats(held: Replies, h: Hash) {
    forall i: nat, j: nat :: i < j && HeldAt(held, h, i) && HeldAt(held, h, j) ==>
      Ancestor(held, h, i) != Ancestor(held, h, j)
  }

  lemma {:induction false} HeldBelow(held: Replies, h: Hash, i: nat, k: nat)
    requires i <= k && HeldAt(held, h, k)
    ensures HeldAt(held, h, i)
    decreases k - i
  {
    if i < k {
      HeldBelow(held, h, i + 1, k);
    }
  }

  /** Each round holds at most one row: the ancestor at that depth, if the one below it is stored. */
  lemma {:induction false} RoundIsAncestor(held: Replies, h: Hash, k: nat)
    ensures Round(held, h, k)
         == if (if k == 0 then h in held else HeldAt(held, h, k - 1)) then [Row(Ancestor(held, h, k), k)] else []
  {
    if k > 0 {
      RoundIsAncestor(held, h, k - 1);
      if HeldAt(held, h, k - 1) {
        HeldBelow(held, h, if k == 1 then 0 else k - 2, k - 1);
        var row := Row(Ancestor(held, h, k - 1), k - 1);
        assert Round(held, h, k - 1) == [row];
        assert NextRound(held, [row][1..]) == [];
      } else if Round(held, h, k - 1) != [] {
        assert NextRound(held, Round(held, h, k - 1)[1..]) == [];
      }
    }
  }

  function Chain(held: Replies, h: Hash, n: nat): seq<Row> {
    seq(n, i requires 0 <= i < n => Row(Ancestor(held, h, i), i))
  }

  lemma {:induction false} JoinedSum(held: Replies, p: seq<Row>, q: seq<Row>)
    ensures Joined(held, p + q) == Joined(held, p) + Joined(held, q)
  {
    if p == [] {
      assert p + q == q;
    } else {
      assert (p + q)[1..] == p[1..] + q;
      JoinedSum(held, p[1..], q);
    }
  }

  lemma JoinedRound(held: Replies, h: Hash, k: nat)
    ensures Joined(held, Round(held, h, k))
         == if HeldAt(held, h, k) then [Row(Ancestor(held, h, k), k)] else []
  {
    RoundIsAncestor(held, h, k);
    if HeldAt(held, h, k) && k > 0 {
      HeldBelow(held, h, k - 1, k);
    }
    var row := Row(Ancestor(held, h, k), k);
    assert Joined(held, [row][1..]) == [];
  }

  /** The joined rows are the stored part of the chain, each hash at its depth. */
  lemma {:induction false} RoundsAreChain(held: Replies, h: Hash, k: nat) returns (n: nat)
    ensures n <= k
    ensures forall i: nat :: i < k ==> (HeldAt(held, h, i) <==> i < n)
    ensures Joined(held, FirstRounds(held, h, k)) == Chain(held, h, n)
  {
    if k == 0 {
      n := 0;
    } else {
      n := RoundsAreChain(held, h, k - 1);
      JoinedSum(held, FirstRounds(held, h, k - 1), Round(held, h, k - 1));
      JoinedRound(held, h, k - 1);
      if HeldAt(held, h, k - 1) {
        if k > 1 { HeldBelow(held, h, k - 2, k - 1); }
        assert Chain(held, h, k) == Chain(held, h, k - 1) + [Row(Ancestor(held, h, k - 1), k - 1)];
        n := k;
      }
    }
  }

  lemma SameRest(row: Row, p: seq<Row>, q: seq<Row>)
    requires multiset([row] + p) == multiset(q + [row])
    ensures multiset(p) == multiset(q)
  {
    assert multiset([row] + p) - multiset{row} == multiset(p);
    assert multiset(q + [row]) - multiset{row} == multiset(q);
  }

  lemma FirstIsDeepest(held: Replies, h: Hash, n: nat, sorted: seq<Row>)
    requires IsSortedByDepth(Chain(held, h, n), sorted) && n > 0
    ensures sorted != [] && sorted[0] == Chain(held, h, n)[n - 1]
  {
    var chain := Chain(held, h, n);
    var deepest := chain[n - 1];
    assert deepest in multiset(chain);
    assert deepest in sorted;
    assert sorted[0] in multiset(sorted);
    assert sorted[0] in chain;
  }

  lemma RestIsSorted(held: Replies, h: Hash, n: nat, sorted: seq<Row>)
    requires IsSortedByDepth(Chain(held, h, n), sorted) && n > 0
    requires sorted != [] && sorted[0] == Chain(held, h, n)[n - 1]
    ensures IsSortedByDepth(Chain(held, h, n - 1), sorted[1..])
  {
    var deepest, rest := sorted[0], sorted[1..];
    assert [deepest] + rest == sorted;
    assert Chain(held, h, n - 1) + [deepest] == Chain(held, h, n);
    SameRest(deepest, rest, Chain(held, h, n - 1));
  }

  lemma {:induction false} OnlyReversal(held: Replies, h: Hash, n: nat, sorted: seq<Row>)
    requires IsSortedByDepth(Chain(held, h, n), sorted)
    ensures |sorted| == n && forall i :: 0 <= i < n ==> sorted[i] == Chain(held, h, n)[n - 1 - i]
  {
    assert |sorted| == |multiset(sorted)| == |Chain(held, h, n)| == n;
    if n > 0 {
      FirstIsDeepest(held, h, n, sorted);
      RestIsSorted(held, h, n, sorted);
      OnlyReversal(held, h, n - 1, sorted[1..]);
    }
  }

  /** The hash at each height of the chain, where there is one. */
  function HashAt(held: Replies, h: Hash, k: nat): Hash {
    var a := Ancestor(held, h, k);
    if a.Some? then a.value else h
  }

  function ThreadOf(held: Replies, h: Hash, n: nat): seq<Hash> {
    seq(n, i requires 0 <= i < n => HashAt(held, h, n - 1 - i))
  }

  lemma HeldHash(held: Replies, h: Hash, k: nat)
    requires HeldAt(held, h, k)
    ensures Ancestor(held, h, k) == Some(HashAt(held, h, k)) && HashAt(held, h, k) in held
    ensures Ancestor(held, h, k + 1) == held[HashAt(held, h, k)]
  {
  }

  lemma ChainIsThread(held: Replies, h: Hash, n: nat)
    requires forall i: nat :: i < n ==> HeldAt(held, h, i)
    requires !HeldAt(held, h, n)
    ensures IsThread(held, h, ThreadOf(held, h, n))
  {
    var thread := ThreadOf(held, h, n);
    if h in held {
      assert HeldAt(held, h, 0);
      forall i | 0 <= i < n ensures thread[i] in held {
        HeldHash(held, h, n - 1 - i);
      }
      forall i | 0 < i < n ensures held[thread[i]] == Some(thread[i - 1]) {
        HeldHash(held, h, n - 1 - i);
        HeldHash(held, h, n - i);
      }
      HeldHash(held, h, n - 1);
      assert thread[n - 1] == HashAt(held, h, 0) == h;
      assert held[thread[0]] == Ancestor(held, h, n);
    } else {
      assert n > 0 ==> HeldAt(held, h, 0);
    }
  }

  lemma ReversedChainHashes(held: Replies, h: Hash, n: nat, i: nat)
    requires forall j: nat :: j < n ==> HeldAt(held, h, j)
    requires i < n
    ensures Chain(held, h, n)[n - 1 - i].hash == Some(ThreadOf(held, h, n)[i])
  {
    HeldHash(held, h, n - 1 - i);
  }

  /** Whatever order the rows were found in, the answer lists the thread of `h`, oldest first. */
  lemma AnswerIsThread(held: Replies, h: Hash, k: nat, answer: seq<Row>) returns (thread: seq<Hash>)
    requires IsAnswer(held, h, k, answer)
    ensures IsThread(held, h, thread)
    ensures |answer| == |thread| && forall i :: 0 <= i < |answer| ==> answer[i].hash == Some(thread[i])
  {
    var n := RoundsAreChain(held, h, k);
    assert |answer| == n && forall i :: 0 <= i < n ==> answer[i] == Chain(held, h, n)[n - 1 - i] by {
      OnlyReversal(held, h, n, answer);
    }
    thread := ThreadOf(held, h, n);
    assert IsThread(held, h, thread) by {
      EndIsNotHeld(held, h, k, n);
      ChainIsThread(held, h, n);
    }
    forall i | 0 <= i < n ensures answer[i].hash == Some(thread[i]) {
      ReversedChainHashes(held, h, n, i);
    }
  }

  lemma EndIsNotHeld(held: Replies, h: Hash, k: nat, n: nat)
    requires Round(held, h, k) == []
    requires n <= k && forall i: nat :: i < k ==> (HeldAt(held, h, i) <==> i < n)
    ensures !HeldAt(held, h, n)
  {
    RoundIsAncestor(held, h, k);
    assert k > 0 ==> (HeldAt(held, h, k - 1) <==> k - 1 < n);
  }

  lemma {:induction false} ThreadIsChain(held: Replies, h: Hash, thread: seq<Hash>, i: nat)
    requires IsThread(held, h, thread) && i < |thread|
    ensures Ancestor(held, h, i) == Some(thread[|thread| - 1 - i])
  {
    if i > 0 {
      ThreadIsChain(held, h, thread, i - 1);
    }
  }

  /** There is at most one thread, so every answer to the query is the same. */
  lemma {:induction false} ThreadIsUnique(held: Replies, h: Hash, p: seq<Hash>, q: seq<Hash>)
    requires IsThread(held, h, p) && IsThread(held, h, q)
    ensures p == q
  {
    if h in held {
      if |p| < |q| {
        LongerThreadClashes(held, h, p, q);
      } else if |q| < |p| {
        LongerThreadClashes(held, h, q, p);
      }
      forall i | 0 <= i < |p| ensures p[i] == q[i] {
        ThreadIsChain(held, h, p, |p| - 1 - i);
        ThreadIsChain(held, h, q, |p| - 1 - i);
      }
    }
  }

  lemma LongerThreadClashes(held: Replies, h: Hash, p: seq<Hash>, q: seq<Hash>)
    requires h in held && IsThread(held, h, p) && IsThread(held, h, q)
    ensures |p| >= |q|
  {
    ThreadIsChain(held, h, p, |p| - 1);
    if |p| < |q| {
      ThreadIsChain(held, h, q, |p|);
    }
  }

  // ----- Termination -----

  lemma {:induction false} CycleGoesOn(held: Replies, h: Hash, i: nat, j: nat, k: nat)
    requires i < j && HeldAt(held, h, j) && Ancestor(held, h, i) == Ancestor(held, h, j)
    ensures HeldAt(held, h, k)
    ensures k >= j ==> Ancestor(held, h, k) == Ancestor(held, h, k - (j - i))
  {
    if k <= j {
      HeldBelow(held, h, k, j);
    } else {
      CycleGoesOn(held, h, i, j, k - 1);
      CycleGoesOn(held, h, i, j, k - (j - i));
    }
  }

  lemma {:induction false} DistinctAncestors(held: Replies, h: Hash, n: nat) returns (hashes: set<Hash>)
    requires NeverRepeats(held, h)
    requires forall i: nat :: i < n ==> HeldAt(held, h, i)
    ensures hashes <= held.Keys && |hashes| == n
    ensures forall x :: x in hashes ==> exists i: nat :: i < n && HeldAt(held, h, i) && Ancestor(held, h, i) == Some(x)
  {
    if n == 0 {
      hashes := {};
    } else {
      var rest := DistinctAncestors(held, h, n - 1);
      assert HeldAt(held, h, n - 1);
      var last := Ancestor(held, h, n - 1).value;
      assert last !in rest;
      hashes := rest + {last};
    }
  }

  /**
   The recursion ends exactly when no stored hash repeats on the way up, and
   then within one round more than there are stored squeaks.
   */
  lemma TerminatesExactlyWhenNoRepeats(held: Replies, h: Hash)
    ensures Terminates(held, h) <==> NeverRepeats(held, h)
    ensures NeverRepeats(held, h) ==> Round(held, h, |held| + 1) == []
  {
    if NeverRepeats(held, h) {
      var n := |held|;
      if HeldAt(held, h, n) {
        forall i: nat | i < n + 1 ensures HeldAt(held, h, i) {
          HeldBelow(held, h, i, n);
        }
        var hashes := DistinctAncestors(held, h, n + 1);
        SubsetSize(hashes, held.Keys);
      }
      RoundIsAncestor(held, h, n + 1);
    } else {
      var i: nat, j: nat :|
        i < j && HeldAt(held, h, i) && HeldAt(held, h, j) && Ancestor(held, h, i) == Ancestor(held, h, j);
      forall k: nat ensures Round(held, h, k) != [] {
        RoundIsAncestor(held, h, k);
        CycleGoesOn(held, h, i, j, 0);
        if k > 0 { CycleGoesOn(held, h, i, j, k - 1); }
      }
    }
  }

  lemma EndedQueryHasThread(held: Replies, h: Hash, k: nat) returns (thread: seq<Hash>)
    requires Round(held, h, k) == []
    ensures IsThread(held, h, thread)
  {
    var n := RoundsAreChain(held, h, k);
    EndIsNotHeld(held, h, k, n);
    ChainIsThread(held, h, n);
    thread := ThreadOf(held, h, n);
  }

  lemma ThreadEndsQuery(held: Replies, h: Hash, thread: seq<Hash>)
    requires IsThread(held, h, thread)
    ensures Round(held, h, |thread| + 1) == []
  {
    var n := |thread|;
    RoundIsAncestor(held, h, n + 1);
    if h in held {
      ThreadIsChain(held, h, thread, n - 1);
      assert Ancestor(held, h, n) == held[thread[0]];
    }
  }

  /** The query ends exactly when there is a thread to return. */
  lemma TerminatesExactlyWhenThread(held: Replies, h: Hash)
    ensures Terminates(held, h) <==> exists thread :: IsThread(held, h, thread)
  {
    if Terminates(held, h) {
      var k: nat :| Round(held, h, k) == [];
      var thread := EndedQueryHasThread(held, h, k);
    }
    if thread :| IsThread(held, h, thread) {
      ThreadEndsQuery(held, h, thread);
    }
  }

  /** Every query that ends has an answer. */
  lemma EndedQueryHasAnswer(held: Replies, h: Hash, k: nat) returns (answer: seq<Row>)
    requires Round(held, h, k) == []
    ensures IsAnswer(held, h, k, answer)
  {
    var n := RoundsAreChain(held, h, k);
    var chain := Chain(held, h, n);
    answer := seq(n, i requires 0 <= i < n => chain[n - 1 - i]);
    ReversalHasSameRows(chain, answer);
  }

  lemma {:induction false} ReversalHasSameRows(p: seq<Row>, q: seq<Row>)
    requires |p| == |q| && forall i :: 0 <= i < |p| ==> q[i] == p[|p| - 1 - i]
    ensures multiset(p) == multiset(q)
  {
    if p != [] {
      var n := |p| - 1;
      ReversalHasSameRows(p[..n], q[1..]);
      assert p == p[..n] + [p[n]] && q == [p[n]] + q[1..];
    }
  }

  /** A hash commits to the hash it replies to, so replies have an order in which parents come first. */
  lemma {:induction false} CommittedRepliesNeverRepeat(held: Replies, h: Hash, age: Hash -> int)
    requires forall x :: x in held && held[x].Some? ==> age(held[x].value) < age(x)
    ensures NeverRepeats(held, h)
  {
    forall i: nat, j: nat | i < j && HeldAt(held, h, i) && HeldAt(held, h, j)
      ensures Ancestor(held, h, i) != Ancestor(held, h, j)
    {
      AgeFalls(held, h, age, i, j);
    }
  }

  lemma {:induction false} AgeFalls(held: Replies, h: Hash, age: Hash -> int, i: nat, j: nat)
    requires forall x :: x in held && held[x].Some? ==> age(held[x].value) < age(x)
    requires i < j && HeldAt(held, h, i) && HeldAt(held, h, j)
    ensures age(Ancestor(held, h, j).value) < age(Ancestor(held, h, i).value)
    decreases j
  {
    HeldBelow(held, h, j - 1, j);
    if i < j - 1 {
      AgeFalls(held, h, age, i, j - 1);
    }
  }
}
