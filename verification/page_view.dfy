/**
 A list on screen and the request that will extend it, while the table behind
 it changes: between any two steps the table may gain, lose and change rows.
 A clear forgets the request in flight; `page_runs.dfy` says what happens when
 its answer arrives all the same.
 */
module PageViews {
  import opened Basics
  import opened Paging
  import opened ScreenLists

  /**
   `Asked` is a request that has left the browser, `Answered` a response the
   database has computed and the browser has not yet received.
   */
  datatype Request<T> = Idle | Asked(cursor: Key, limit: nat) | Answered(cursor: Key, page: seq<Entry<T>>)

  /**
   `table` holds the rows that match the filter now, `gone` the hashes that
   have left it at some time, `first` the cursor of the latest request made
   with an empty list.
   */
  datatype View<T> = View(table: map<Hash, T>, gone: set<Hash>, list: seq<Entry<T>>, request: Request<T>, first: Key)

  datatype Action<T> =
    | TableChanges(table: map<Hash, T>)
    | Ask(first: Key, limit: nat)
    | Answer
    | Receive
    | Remove(hash: Hash)
    | Update(entry: Entry<T>)
    | Clear

  /** A squeak is taken off the screen once its deletion has returned; a list is cleared whenever its page opens. */
  ghost predicate Enabled<T>(v: View<T>, action: Action<T>) {
    match action
    case TableChanges(_) => true
    case Ask(_, _) => v.request.Idle?
    case Answer => v.request.Asked?
    case Receive => v.request.Answered?
    case Remove(hash) => hash in v.gone
    case Update(_) => true
    case Clear => true
  }

  ghost function Apply<T>(rank: Ranking, v: View<T>, action: Action<T>): View<T>
    requires IsRanking(rank) && Enabled(v, action)
  {
    match action
    case TableChanges(table) =>
      v.(table := table, gone := v.gone + (v.table.Keys - table.Keys))
    case Ask(first, limit) =>
      var start := if v.list == [] then first else v.first;
      v.(first := start, request := Asked(NextCursor(rank, v.list, start), limit))
    case Answer =>
      v.(request := Answered(v.request.cursor, Page(rank, v.table, v.request.cursor, v.request.limit)))
    case Receive =>
      v.(list := v.list + v.request.page, request := Idle)
    case Remove(hash) =>
      v.(list := RemovedFrom(v.list, hash))
    case Update(entry) =>
      v.(list := UpdatedIn(v.list, entry))
    case Clear =>
      v.(list := [], request := Idle)
  }

  /** What is above the cursor of the request in flight, or above everything not yet asked for. */
  function Frontier<T>(rank: Ranking, v: View<T>): Key {
    if v.request.Idle? then NextCursor(rank, v.list, v.first) else v.request.cursor
  }

  ghost predicate AllAtOrAbove(rank: Ranking, hashes: seq<Hash>, cursor: Key) {
    forall h :: h in hashes ==> !Less(rank(h), cursor)
  }

  ghost predicate AllBelow(rank: Ranking, hashes: seq<Hash>, cursor: Key) {
    forall h :: h in hashes ==> Less(rank(h), cursor)
  }

  /** The list is strictly descending, and so is what will be appended, all of it below the list. */
  ghost predicate Ordered<T>(rank: Ranking, v: View<T>) {
    && IsDescending(rank, Hashes(v.list))
    && AllAtOrAbove(rank, Hashes(v.list), Frontier(rank, v))
    && (v.request.Answered? ==>
          IsDescending(rank, Hashes(v.request.page)) && AllBelow(rank, Hashes(v.request.page), v.request.cursor))
  }

  /**
   A row that has never left the table is on screen if it lies at or above the
   frontier, and in the page in flight if it lies between that page's cursor
   and its last item.
   */
  ghost predicate Shows<T>(rank: Ranking, v: View<T>, row: Hash) {
    && (Less(rank(row), v.first) && !Less(rank(row), Frontier(rank, v)) ==> row in Hashes(v.list))
    && (v.request.Answered? && Less(rank(row), v.request.cursor) && row !in Hashes(v.request.page) ==>
          AllAbove(rank, v.request.page, row))
  }

  ghost predicate AllAbove<T>(rank: Ranking, page: seq<Entry<T>>, row: Hash) {
    forall h :: h in Hashes(page) ==> Less(rank(row), rank(h))
  }

  lemma LastIsLowest<T>(rank: Ranking, list: seq<Entry<T>>, first: Key)
    requires IsDescending(rank, Hashes(list))
    requires list != []
    ensures AllAtOrAbove(rank, Hashes(list), NextCursor(rank, list, first))
    ensures list[|list| - 1].hash in Hashes(list)
  {
    var hashes := Hashes(list);
    assert hashes[|hashes| - 1] == list[|list| - 1].hash;
    forall h | h in hashes ensures !Less(rank(h), NextCursor(rank, list, first)) {
      var i :| 0 <= i < |hashes| && hashes[i] == h;
      LessIsTotal(rank(h), rank(hashes[|hashes| - 1]));
    }
  }

  lemma JoinDescending(rank: Ranking, p: seq<Hash>, q: seq<Hash>, cursor: Key)
    requires IsDescending(rank, p) && IsDescending(rank, q)
    requires AllAtOrAbove(rank, p, cursor) && AllBelow(rank, q, cursor)
    ensures IsDescending(rank, p + q)
  {
    forall i, j | 0 <= i < |p| && 0 <= j < |q| ensures Less(rank(q[j]), rank(p[i])) {
      assert p[i] in p && q[j] in q;
      LessIsTotal(rank(p[i]), cursor);
      if cursor != rank(p[i]) {
        LessTransitive(rank(q[j]), cursor, rank(p[i]));
      }
    }
  }

  /** With nothing in flight, a descending list is at or above its own frontier. */
  lemma IdleIsOrdered<T>(rank: Ranking, v: View<T>)
    requires IsDescending(rank, Hashes(v.list)) && v.request.Idle?
    ensures Ordered(rank, v)
  {
    if v.list != [] {
      LastIsLowest(rank, v.list, v.first);
    }
  }

  lemma StepKeepsOrder<T>(rank: Ranking, v: View<T>, action: Action<T>)
    requires IsRanking(rank) && Enabled(v, action)
    requires Ordered(rank, v)
    ensures Ordered(rank, Apply(rank, v, action))
  {
    var w := Apply(rank, v, action);
    match action
    case TableChanges(table) =>
    case Ask(first, limit) =>
      if v.list != [] {
        LastIsLowest(rank, v.list, v.first);
      }
    case Answer =>
    case Receive =>
      JoinDescending(rank, Hashes(v.list), Hashes(v.request.page), v.request.cursor);
      HashesOfSum(v.list, v.request.page);
      IdleIsOrdered(rank, w);
    case Remove(hash) =>
      RemoveKeepsTheRest(v.list, hash);
      RemoveKeepsOrder(rank, v.list, hash);
      if w.request.Idle? { IdleIsOrdered(rank, w); }
    case Update(entry) =>
      UpdateKeepsHashes(v.list, entry);
      if w.request.Idle? { IdleIsOrdered(rank, w); }
    case Clear =>
      IdleIsOrdered(rank, w);
  }

  lemma AtLeastTransitive(a: Key, b: Key, c: Key)
    requires !Less(a, b) && !Less(b, c)
    ensures !Less(a, c)
  {
    LessIsTotal(a, b);
    LessIsTotal(b, c);
    LessIsTotal(a, c);
    if Less(b, a) && Less(c, b) {
      LessTransitive(c, b, a);
    }
  }

  /** Taking a row off the screen moves the frontier up over nothing but that row. */
  lemma RemoveShows<T>(rank: Ranking, v: View<T>, hash: Hash, row: Hash)
    requires Ordered(rank, v) && Shows(rank, v, row)
    requires row != hash
    ensures Shows(rank, v.(list := RemovedFrom(v.list, hash)), row)
  {
    var w := v.(list := RemovedFrom(v.list, hash));
    RemoveKeepsTheRest(v.list, hash);
    if v.request.Idle? && Less(rank(row), v.first) && !Less(rank(row), Frontier(rank, w)) {
      LessIsTotal(rank(row), v.first);
      var last := w.list[|w.list| - 1].hash;
      assert Hashes(w.list)[|w.list| - 1] == last;
      assert last in Hashes(v.list);
      AtLeastTransitive(rank(row), rank(last), Frontier(rank, v));
    }
  }

  lemma ReceiveShows<T>(rank: Ranking, v: View<T>, row: Hash)
    requires IsRanking(rank) && v.request.Answered?
    requires Ordered(rank, v) && Shows(rank, v, row)
    ensures Shows(rank, Apply(rank, v, Receive), row)
  {
    var w := Apply(rank, v, Receive);
    var page := v.request.page;
    HashesOfSum(v.list, page);
    LessIsTotal(rank(row), v.first);
    if page != [] {
      assert Hashes(page)[|page| - 1] == w.list[|w.list| - 1].hash;
    } else if v.list != [] {
      var last := v.list[|v.list| - 1].hash;
      assert Hashes(v.list)[|v.list| - 1] == last;
      if !Less(rank(row), rank(last)) {
        AtLeastTransitive(rank(row), rank(last), v.request.cursor);
      }
    }
  }

  lemma UpdateShows<T>(rank: Ranking, v: View<T>, entry: Entry<T>, row: Hash)
    requires Shows(rank, v, row)
    ensures Shows(rank, v.(list := UpdatedIn(v.list, entry)), row)
  {
    UpdateKeepsHashes(v.list, entry);
    if v.list != [] {
      var w := UpdatedIn(v.list, entry);
      assert Hashes(w)[|w| - 1] == w[|w| - 1].hash && Hashes(v.list)[|w| - 1] == v.list[|w| - 1].hash;
    }
  }

  lemma AnswerShows<T>(rank: Ranking, v: View<T>, row: Hash)
    requires IsRanking(rank) && v.request.Asked?
    requires Shows(rank, v, row) && row in v.table
    ensures Shows(rank, Apply(rank, v, Answer), row)
  {
    if Less(rank(row), v.request.cursor) {
      assert row in Below(rank, v.table, v.request.cursor);
    }
  }

  lemma StepKeepsShowing<T>(rank: Ranking, v: View<T>, action: Action<T>, row: Hash)
    requires IsRanking(rank) && Enabled(v, action)
    requires Ordered(rank, v) && Shows(rank, v, row)
    requires row in v.table && row !in v.gone && row in Apply(rank, v, action).table
    ensures Shows(rank, Apply(rank, v, action), row)
    ensures row !in Apply(rank, v, action).gone
  {
    match action
    case TableChanges(table) =>
    case Ask(first, limit) =>
      LessIsTotal(rank(row), NextCursor(rank, v.list, first));
    case Answer =>
      AnswerShows(rank, v, row);
    case Receive =>
      ReceiveShows(rank, v, row);
    case Remove(hash) =>
      RemoveShows(rank, v, hash, row);
    case Update(entry) =>
      UpdateShows(rank, v, entry, row);
    case Clear =>
      LessIsTotal(rank(row), v.first);
  }

  lemma StartShows<T>(rank: Ranking, v: View<T>, row: Hash)
    requires v.list == [] && v.request.Idle?
    ensures Shows(rank, v, row)
  {
    LessIsTotal(rank(row), v.first);
  }
}
