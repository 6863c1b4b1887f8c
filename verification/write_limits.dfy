/**
 The limits of `save_squeak` under concurrency. Its two counts and its insert are three separate accesses
 to the database (`squeaknode/node/squeak_store.py`), and a pool of threads runs it at once
 (`squeaknode/client/network_controller.py`), so that a writer may insert on the strength of counts that
 other writers have since outdated.
 */
module WriteLimits {
  import opened Basics
  import opened SqueakDatabase
  import opened SqueakStorage

  /** A writer between two accesses: the row it wants to insert has passed one count, or both. */
  datatype Writer = Idle | Counted(row: SqueakRow) | CountedBoth(row: SqueakRow)

  datatype Pool = Pool(squeaks: map<Hash, SqueakRow>, writers: seq<Writer>)

  datatype Limits = Limits(maxSqueaks: nat, maxPerGroup: nat)

  datatype Event =
    | CountAll(w: nat, row: SqueakRow)
    | CountGroup(w: nat)
    | Insert(w: nat)
    | Abandon(w: nat)
    | Delete(h: Hash)

  function GroupOf(squeaks: map<Hash, SqueakRow>, row: SqueakRow): set<Hash> {
    SqueaksBy(squeaks, row.squeak.author, row.squeak.blockHeight)
  }

  /** A count that reaches its limit raises, and the writer is idle again; that is `Abandon`. */
  predicate Possible(l: Limits, s: Pool, e: Event) {
    match e
    case CountAll(w, row) => w < |s.writers| && s.writers[w].Idle? && |s.squeaks| < l.maxSqueaks
    case CountGroup(w) => w < |s.writers| && s.writers[w].Counted? && |GroupOf(s.squeaks, s.writers[w].row)| < l.maxPerGroup
    case Insert(w) => w < |s.writers| && s.writers[w].CountedBoth?
    case Abandon(w) => w < |s.writers|
    case Delete(_) => true
  }

  function InsertRow(squeaks: map<Hash, SqueakRow>, row: SqueakRow): map<Hash, SqueakRow> {
    if row.squeak.hash in squeaks then squeaks else squeaks[row.squeak.hash := row]
  }

  function DeleteRow(squeaks: map<Hash, SqueakRow>, h: Hash): (r: map<Hash, SqueakRow>)
    ensures |r| <= |squeaks|
  {
    var r := squeaks - {h};
    SmallerTable(squeaks, r);
    r
  }

  function After(l: Limits, s: Pool, e: Event): Pool
    requires Possible(l, s, e)
  {
    match e
    case CountAll(w, row) => s.(writers := s.writers[w := Counted(row)])
    case CountGroup(w) => s.(writers := s.writers[w := CountedBoth(s.writers[w].row)])
    case Insert(w) => Pool(InsertRow(s.squeaks, s.writers[w].row), s.writers[w := Idle])
    case Abandon(w) => s.(writers := s.writers[w := Idle])
    case Delete(h) => s.(squeaks := DeleteRow(s.squeaks, h))
  }

  ghost predicate EventAt(l: Limits, run: seq<Pool>, events: seq<Event>, k: nat) {
    k < |events| && k + 1 < |run| && Possible(l, run[k], events[k]) && run[k + 1] == After(l, run[k], events[k])
  }

  ghost predicate IsRun(l: Limits, run: seq<Pool>, events: seq<Event>) {
    |run| == |events| + 1 && forall k: nat :: k < |events| ==> EventAt(l, run, events, k)
  }

  /** All writers idle, and both limits kept. */
  ghost predicate Init(l: Limits, s: Pool) {
    && (forall w :: 0 <= w < |s.writers| ==> s.writers[w].Idle?)
    && WithinLimits(s.squeaks, l.maxSqueaks, l.maxPerGroup)
  }

  // ----- Invariant -----
  /** The writers whose insert may still follow a passed count of the whole table. */
  function Admitted(s: Pool): set<nat> {
    set w: nat | w < |s.writers| && !s.writers[w].Idle?
  }

  function AdmittedTo(s: Pool, author: Bytes, height: int): set<nat> {
    set w: nat | w < |s.writers| && s.writers[w].CountedBoth?
                 && s.writers[w].row.squeak.author == author && s.writers[w].row.squeak.blockHeight == height
  }

  /** Rows stored, plus rows that may yet be inserted, fit the limit with room for all writers but one. */
  ghost predicate TotalInv(l: Limits, s: Pool) {
    |s.squeaks| + |Admitted(s)| <= l.maxSqueaks + |s.writers| - 1
  }

  ghost predicate GroupInv(l: Limits, s: Pool, author: Bytes, height: int) {
    |SqueaksBy(s.squeaks, author, height)| + |AdmittedTo(s, author, height)| <= l.maxPerGroup + |s.writers| - 1
  }

  lemma InsertRowSize(squeaks: map<Hash, SqueakRow>, row: SqueakRow)
    ensures |InsertRow(squeaks, row)| <= |squeaks| + 1
  {
    assert InsertRow(squeaks, row).Keys <= squeaks.Keys + {row.squeak.hash};
  }

  lemma TotalStep(l: Limits, s: Pool, e: Event)
    requires Possible(l, s, e) && TotalInv(l, s)
    ensures TotalInv(l, After(l, s, e))
  {
    var s' := After(l, s, e);
    if e.CountAll? {
      BoundedSetSize(Admitted(s'), |s.writers|);
    } else if e.Insert? {
      InsertRowSize(s.squeaks, s.writers[e.w].row);
      assert e.w in Admitted(s) && Admitted(s') == Admitted(s) - {e.w};
    } else if e.Abandon? {
      assert Admitted(s') == Admitted(s) - {e.w};
    } else {
      assert Admitted(s') == Admitted(s);
    }
  }

  lemma GroupCount(l: Limits, s: Pool, w: nat, author: Bytes, height: int)
    requires Possible(l, s, CountGroup(w)) && GroupInv(l, s, author, height)
    ensures GroupInv(l, After(l, s, CountGroup(w)), author, height)
  {
    var s', row := After(l, s, CountGroup(w)), s.writers[w].row;
    if row.squeak.author == author && row.squeak.blockHeight == height {
      BoundedSetSize(AdmittedTo(s', author, height), |s.writers|);
    } else {
      assert AdmittedTo(s', author, height) == AdmittedTo(s, author, height);
    }
  }

  lemma InsertRowGroup(squeaks: map<Hash, SqueakRow>, row: SqueakRow, author: Bytes, height: int)
    ensures var was, now := SqueaksBy(squeaks, author, height), SqueaksBy(InsertRow(squeaks, row), author, height);
            if row.squeak.author == author && row.squeak.blockHeight == height then |now| <= |was| + 1 else |now| <= |was|
  {
    var was, now := SqueaksBy(squeaks, author, height), SqueaksBy(InsertRow(squeaks, row), author, height);
    if row.squeak.author == author && row.squeak.blockHeight == height && row.squeak.hash !in squeaks {
      assert now == was + {row.squeak.hash};
    } else {
      assert now == was;
    }
  }

  lemma GroupInsert(l: Limits, s: Pool, w: nat, author: Bytes, height: int)
    requires Possible(l, s, Insert(w)) && GroupInv(l, s, author, height)
    ensures GroupInv(l, After(l, s, Insert(w)), author, height)
  {
    InsertRowGroup(s.squeaks, s.writers[w].row, author, height);
    assert AdmittedTo(After(l, s, Insert(w)), author, height) == AdmittedTo(s, author, height) - {w};
  }

  lemma GroupStep(l: Limits, s: Pool, e: Event, author: Bytes, height: int)
    requires Possible(l, s, e) && GroupInv(l, s, author, height)
    ensures GroupInv(l, After(l, s, e), author, height)
  {
    var a, a' := AdmittedTo(s, author, height), AdmittedTo(After(l, s, e), author, height);
    match e
    case CountAll(w, _) =>
      assert a' == a;
    case CountGroup(w) =>
      GroupCount(l, s, w, author, height);
    case Insert(w) =>
      GroupInsert(l, s, w, author, height);
    case Abandon(w) =>
      assert a' == a - {w};
    case Delete(h) =>
      assert a' == a;
      assert SqueaksBy(s.squeaks - {h}, author, height) == SqueaksBy(s.squeaks, author, height) - {h};
  }

  lemma InitInv(l: Limits, s: Pool, author: Bytes, height: int)
    requires Init(l, s) && |s.writers| > 0
    ensures TotalInv(l, s) && GroupInv(l, s, author, height)
  {
    assert Admitted(s) == {} && AdmittedTo(s, author, height) == {};
  }

  lemma {:induction false} WritersStay(l: Limits, run: seq<Pool>, events: seq<Event>, k: nat)
    requires IsRun(l, run, events) && k < |run|
    ensures |run[k].writers| == |run[0].writers|
  {
    if k > 0 {
      WritersStay(l, run, events, k - 1);
      assert EventAt(l, run, events, k - 1);
      WritersNext(l, run[k - 1], events[k - 1]);
    }
  }

  lemma WritersNext(l: Limits, s: Pool, e: Event)
    requires Possible(l, s, e)
    ensures |After(l, s, e).writers| == |s.writers|
  {
  }

  lemma TotalNext(l: Limits, s: Pool, e: Event, s': Pool)
    requires Possible(l, s, e) && s' == After(l, s, e) && TotalInv(l, s)
    ensures TotalInv(l, s')
  {
    TotalStep(l, s, e);
  }

  lemma GroupNext(l: Limits, s: Pool, e: Event, s': Pool, author: Bytes, height: int)
    requires Possible(l, s, e) && s' == After(l, s, e) && GroupInv(l, s, author, height)
    ensures GroupInv(l, s', author, height)
  {
    GroupStep(l, s, e, author, height);
  }

  lemma {:induction false} TotalIsKept(l: Limits, run: seq<Pool>, events: seq<Event>, k: nat)
    requires IsRun(l, run, events) && k < |run| && TotalInv(l, run[0])
    ensures TotalInv(l, run[k])
  {
    if k > 0 {
      TotalIsKept(l, run, events, k - 1);
      assert EventAt(l, run, events, k - 1);
      TotalNext(l, run[k - 1], events[k - 1], run[k]);
    }
  }

  lemma {:induction false} GroupIsKept(l: Limits, run: seq<Pool>, events: seq<Event>, k: nat, author: Bytes, height: int)
    requires IsRun(l, run, events) && k < |run| && GroupInv(l, run[0], author, height)
    ensures GroupInv(l, run[k], author, height)
  {
    if k > 0 {
      GroupIsKept(l, run, events, k - 1, author, height);
      assert EventAt(l, run, events, k - 1);
      GroupNext(l, run[k - 1], events[k - 1], run[k], author, height);
    }
  }

  // ----- Results -----
  /**
   With T writers interleaving at every access, the table never holds more than `maxSqueaks + T - 1` squeaks,
   and no author has more than `maxPerGroup + T - 1` of them at one block height.
   */
  lemma LimitsUnderConcurrency(l: Limits, run: seq<Pool>, events: seq<Event>, k: nat)
    requires IsRun(l, run, events) && Init(l, run[0]) && k < |run| && |run[0].writers| > 0
    ensures WithinLimits(run[k].squeaks, l.maxSqueaks + |run[0].writers| - 1, l.maxPerGroup + |run[0].writers| - 1)
  {
    WritersStay(l, run, events, k);
    InitInv(l, run[0], [], 0);
    TotalIsKept(l, run, events, k);
    forall author, height
      ensures |SqueaksBy(run[k].squeaks, author, height)| <= l.maxPerGroup + |run[0].writers| - 1
    {
      InitInv(l, run[0], author, height);
      GroupIsKept(l, run, events, k, author, height);
    }
  }

  /** A single writer keeps both limits exactly. */
  lemma LimitsAreExactSequentially(l: Limits, run: seq<Pool>, events: seq<Event>, k: nat)
    requires IsRun(l, run, events) && Init(l, run[0]) && k < |run| && |run[0].writers| == 1
    ensures WithinLimits(run[k].squeaks, l.maxSqueaks, l.maxPerGroup)
  {
    LimitsUnderConcurrency(l, run, events, k);
  }

  /** While the table is full nobody gets past the first count; once a squeak is deleted, an idle writer does. */
  lemma DeletingMakesRoom(l: Limits, s: Pool, h: Hash, w: nat, row: SqueakRow)
    requires |s.squeaks| == l.maxSqueaks && h in s.squeaks && w < |s.writers|
    ensures !Possible(l, s, CountAll(w, row))
    ensures Possible(l, s, Abandon(w)) && Possible(l, After(l, s, Abandon(w)), Delete(h))
    ensures var s' := After(l, After(l, s, Abandon(w)), Delete(h));
            && Possible(l, s', CountAll(w, row)) && s'.squeaks == s.squeaks - {h}
            && forall v :: 0 <= v < |s.writers| && v != w ==> s'.writers[v] == s.writers[v]
  {
    var left := s.squeaks - {h};
    assert left.Keys == s.squeaks.Keys - {h};
    assert |left| == |left.Keys| && |s.squeaks| == |s.squeaks.Keys|;
  }

  // ----- The bounds are reached -----
  /** The squeaks of `base`, and the first `n` of `rows`. */
  function Plus(base: map<Hash, SqueakRow>, rows: seq<SqueakRow>, n: nat): map<Hash, SqueakRow>
    requires n <= |rows|
  {
    if n == 0 then base else InsertRow(Plus(base, rows, n - 1), rows[n - 1])
  }

  /** Where writer `j` stands after `k` steps of the run in which all count before any inserts. */
  function WriterAt(rows: seq<SqueakRow>, k: nat, j: nat): Writer
    requires j < |rows|
  {
    var n := |rows|;
    if k <= n then (if j < k then Counted(rows[j]) else Idle)
    else if k <= 2 * n then (if j < k - n then CountedBoth(rows[j]) else Counted(rows[j]))
    else if j < k - 2 * n then Idle else CountedBoth(rows[j])
  }

  function PoolAt(base: map<Hash, SqueakRow>, rows: seq<SqueakRow>, k: nat): Pool
    requires k <= 3 * |rows|
  {
    Pool(Plus(base, rows, if k <= 2 * |rows| then 0 else k - 2 * |rows|),
         seq(|rows|, j requires 0 <= j < |rows| => WriterAt(rows, k, j)))
  }

  function EventOf(rows: seq<SqueakRow>, k: nat): Event
    requires k < 3 * |rows|
  {
    var n := |rows|;
    if k < n then CountAll(k, rows[k]) else if k < 2 * n then CountGroup(k - n) else Insert(k - 2 * n)
  }

  ghost predicate FreshRows(base: map<Hash, SqueakRow>, rows: seq<SqueakRow>) {
    && (forall j :: 0 <= j < |rows| ==> rows[j].squeak.hash !in base)
    && (forall i, j :: 0 <= i < j < |rows| ==> rows[i].squeak.hash != rows[j].squeak.hash)
  }

  lemma {:induction false} PlusIsFresh(base: map<Hash, SqueakRow>, rows: seq<SqueakRow>, n: nat, j: nat)
    requires FreshRows(base, rows) && n <= j < |rows|
    ensures rows[j].squeak.hash !in Plus(base, rows, n)
  {
    if n > 0 {
      PlusIsFresh(base, rows, n - 1, j);
    }
  }

  lemma {:induction false} PlusSize(base: map<Hash, SqueakRow>, rows: seq<SqueakRow>, n: nat)
    requires FreshRows(base, rows) && n <= |rows|
    ensures |Plus(base, rows, n)| == |base| + n
  {
    if n > 0 {
      PlusSize(base, rows, n - 1);
      PlusIsFresh(base, rows, n - 1, n - 1);
    }
  }

  ghost predicate SameGroup(rows: seq<SqueakRow>, author: Bytes, height: int) {
    forall j :: 0 <= j < |rows| ==> rows[j].squeak.author == author && rows[j].squeak.blockHeight == height
  }

  lemma InsertFresh(squeaks: map<Hash, SqueakRow>, row: SqueakRow)
    requires row.squeak.hash !in squeaks
    ensures |GroupOf(InsertRow(squeaks, row), row)| == |GroupOf(squeaks, row)| + 1
  {
    assert GroupOf(InsertRow(squeaks, row), row) == GroupOf(squeaks, row) + {row.squeak.hash};
  }

  lemma {:induction false} PlusGroup(base: map<Hash, SqueakRow>, rows: seq<SqueakRow>, n: nat, author: Bytes, height: int)
    requires FreshRows(base, rows) && n <= |rows| && SameGroup(rows, author, height)
    ensures |SqueaksBy(Plus(base, rows, n), author, height)| == |SqueaksBy(base, author, height)| + n
  {
    if n > 0 {
      PlusGroup(base, rows, n - 1, author, height);
      PlusIsFresh(base, rows, n - 1, n - 1);
      InsertFresh(Plus(base, rows, n - 1), rows[n - 1]);
    }
  }

  lemma StepToBound(l: Limits, base: map<Hash, SqueakRow>, rows: seq<SqueakRow>, k: nat)
    requires |base| < l.maxSqueaks && k < 3 * |rows|
    requires forall j :: 0 <= j < |rows| ==> |GroupOf(base, rows[j])| < l.maxPerGroup
    ensures Possible(l, PoolAt(base, rows, k), EventOf(rows, k))
    ensures After(l, PoolAt(base, rows, k), EventOf(rows, k)) == PoolAt(base, rows, k + 1)
  {
    var s, s' := PoolAt(base, rows, k), PoolAt(base, rows, k + 1);
    assert After(l, s, EventOf(rows, k)).writers == s'.writers;
  }

  function BoundRun(base: map<Hash, SqueakRow>, rows: seq<SqueakRow>): seq<Pool> {
    seq(3 * |rows| + 1, k requires 0 <= k <= 3 * |rows| => PoolAt(base, rows, k))
  }

  function BoundEvents(rows: seq<SqueakRow>): seq<Event> {
    seq(3 * |rows|, k requires 0 <= k < 3 * |rows| => EventOf(rows, k))
  }

  /**
   The bounds are the best possible. From a table with places left, T writers that all count before any of
   them inserts add T squeaks: with one place left they reach `maxSqueaks + T - 1`; and if their squeaks share
   an author and a height where one place was left, they reach `maxPerGroup + T - 1` there.
   */
  lemma BoundsAreReached(l: Limits, base: map<Hash, SqueakRow>, rows: seq<SqueakRow>)
    requires |base| < l.maxSqueaks && WithinLimits(base, l.maxSqueaks, l.maxPerGroup) && FreshRows(base, rows)
    requires forall j :: 0 <= j < |rows| ==> |GroupOf(base, rows[j])| < l.maxPerGroup
    ensures IsRun(l, BoundRun(base, rows), BoundEvents(rows)) && Init(l, BoundRun(base, rows)[0])
    ensures |BoundRun(base, rows)[0].writers| == |rows| && BoundRun(base, rows)[0].squeaks == base
    ensures |BoundRun(base, rows)[3 * |rows|].squeaks| == |base| + |rows|
  {
    BoundRunIsRun(l, base, rows);
    BoundRunEnds(base, rows);
  }

  lemma BoundRunEnds(base: map<Hash, SqueakRow>, rows: seq<SqueakRow>)
    requires FreshRows(base, rows)
    ensures BoundRun(base, rows)[0] == PoolAt(base, rows, 0)
    ensures |BoundRun(base, rows)[3 * |rows|].squeaks| == |base| + |rows|
  {
    PlusSize(base, rows, |rows|);
  }

  lemma BoundRunIsRun(l: Limits, base: map<Hash, SqueakRow>, rows: seq<SqueakRow>)
    requires |base| < l.maxSqueaks
    requires forall j :: 0 <= j < |rows| ==> |GroupOf(base, rows[j])| < l.maxPerGroup
    ensures IsRun(l, BoundRun(base, rows), BoundEvents(rows))
  {
    var run, events := BoundRun(base, rows), BoundEvents(rows);
    forall k: nat | k < |events| ensures EventAt(l, run, events, k) {
      StepToBound(l, base, rows, k);
      assert run[k] == PoolAt(base, rows, k) && run[k + 1] == PoolAt(base, rows, k + 1) && events[k] == EventOf(rows, k);
    }
  }

  lemma GroupBoundIsReached(base: map<Hash, SqueakRow>, rows: seq<SqueakRow>, author: Bytes, height: int)
    requires FreshRows(base, rows) && SameGroup(rows, author, height)
    ensures |SqueaksBy(BoundRun(base, rows)[3 * |rows|].squeaks, author, height)| == |SqueaksBy(base, author, height)| + |rows|
  {
    PlusGroup(base, rows, |rows|, author, height);
  }
}
