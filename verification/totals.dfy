/** Sums of amounts over sets of hashes, whatever the order they are taken in. */
module Totals {
  import opened Basics

  ghost function Total(hashes: set<Hash>, amounts: map<Hash, int>): int
    requires hashes <= amounts.Keys
  {
    if hashes == {} then 0 else
    var h :| h in hashes;
    amounts[h] + Total(hashes - {h}, amounts)
  }

  lemma {:induction false} TotalWithout(hashes: set<Hash>, amounts: map<Hash, int>, h: Hash)
    requires hashes <= amounts.Keys && h in hashes
    ensures Total(hashes, amounts) == amounts[h] + Total(hashes - {h}, amounts)
    decreases |hashes|
  {
    var g :| g in hashes && Total(hashes, amounts) == amounts[g] + Total(hashes - {g}, amounts);
    if g != h {
      TotalWithout(hashes - {g}, amounts, h);
      TotalWithout(hashes - {h}, amounts, g);
      assert hashes - {g} - {h} == hashes - {h} - {g};
    }
  }

  lemma {:induction false} TotalOfUnion(p: set<Hash>, q: set<Hash>, amounts: map<Hash, int>)
    requires p <= amounts.Keys && q <= amounts.Keys && p !! q
    ensures Total(p + q, amounts) == Total(p, amounts) + Total(q, amounts)
    decreases |p|
  {
    if p == {} {
      assert p + q == q;
    } else {
      var h :| h in p;
      TotalWithout(p, amounts, h);
      TotalWithout(p + q, amounts, h);
      assert p + q - {h} == (p - {h}) + q;
      TotalOfUnion(p - {h}, q, amounts);
    }
  }

  lemma {:induction false} SameAmounts(hashes: set<Hash>, p: map<Hash, int>, q: map<Hash, int>)
    requires hashes <= p.Keys && hashes <= q.Keys
    requires forall h :: h in hashes ==> p[h] == q[h]
    ensures Total(hashes, p) == Total(hashes, q)
    decreases |hashes|
  {
    if hashes != {} {
      var h :| h in hashes;
      TotalWithout(hashes, p, h);
      TotalWithout(hashes, q, h);
      SameAmounts(hashes - {h}, p, q);
    }
  }

  lemma {:induction false} PositiveTotal(hashes: set<Hash>, amounts: map<Hash, int>)
    requires hashes <= amounts.Keys && forall h :: h in amounts ==> amounts[h] > 0
    ensures Total(hashes, amounts) >= 0 && (Total(hashes, amounts) == 0 <==> hashes == {})
    decreases |hashes|
  {
    if hashes != {} {
      var h :| h in hashes;
      TotalWithout(hashes, amounts, h);
      PositiveTotal(hashes - {h}, amounts);
    }
  }

  /** Positive amounts: leaving out a hash lowers the total. */
  lemma TotalProperSubset(hashes: set<Hash>, more: set<Hash>, amounts: map<Hash, int>)
    requires hashes <= more <= amounts.Keys && forall h :: h in amounts ==> amounts[h] > 0
    ensures Total(hashes, amounts) <= Total(more, amounts)
    ensures Total(hashes, amounts) == Total(more, amounts) <==> hashes == more
  {
    assert hashes + (more - hashes) == more;
    TotalOfUnion(hashes, more - hashes, amounts);
    PositiveTotal(more - hashes, amounts);
  }
}
