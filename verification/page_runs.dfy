/**
 A list on screen with any number of requests in flight. Opening the page clears the list and asks for the
 first page, whatever was asked before; the button that asks for more is offered only while the loading
 flag is down, but any answer takes the flag down. Answers may arrive in any order, or never.
 */
module PageRuns {
  import opened Basics
  import opened Paging
  import opened ScreenLists
  import opened PageViews

  /**
   `requests` are numbered as they are sent, `sent` of them so far; those below `current` were sent before
   the page was last opened. `gone` and `first` are as in a view.
   */
  datatype Browser<T> = Browser(
    table: map<Hash, T>,
    gone: set<Hash>,
    screen: Screen<T>,
    requests: map<nat, Request<T>>,
    sent: nat,
    current: nat,
    first: Key)

  datatype Move<T> =
    | TableMoves(table: map<Hash, T>)
    | Open(first: Key, limit: nat)
    | LoadMore(first: Key, limit: nat)
    | Reply(id: nat)
    | Arrive(id: nat)
    | TakeOff(hash: Hash)
    | Show(entry: Entry<T>)

  ghost predicate Possible<T>(b: Browser<T>, move: Move<T>) {
    match move
    case LoadMore(_, _) => !b.screen.isLoading
    case Reply(id) => id in b.requests && b.requests[id].Asked?
    case Arrive(id) => id in b.requests && b.requests[id].Answered?
    case TakeOff(hash) => hash in b.gone
    case _ => true
  }

  ghost function After<T>(rank: Ranking, b: Browser<T>, move: Move<T>): Browser<T>
    requires IsRanking(rank) && Possible(b, move)
  {
    match move
    case TableMoves(table) => b.(table := table, gone := b.gone + (b.table.Keys - table.Keys))
    case Open(first, limit) =>
      b.(screen := Opened(b.screen), first := first, current := b.sent,
         requests := b.requests[b.sent := Asked(first, limit)], sent := b.sent + 1)
    case LoadMore(first, limit) =>
      var start := if b.screen.list == [] then first else b.first;
      b.(screen := Pending(b.screen), first := start,
         requests := b.requests[b.sent := Asked(NextCursor(rank, b.screen.list, start), limit)], sent := b.sent + 1)
    case Reply(id) =>
      var request := b.requests[id];
      b.(requests := b.requests[id := Answered(request.cursor, Page(rank, b.table, request.cursor, request.limit))])
    case Arrive(id) =>
      b.(screen := Fulfilled(b.screen, b.requests[id].page), requests := b.requests - {id})
    case TakeOff(hash) => b.(screen := b.screen.(list := RemovedFrom(b.screen.list, hash)))
    case Show(entry) => b.(screen := b.screen.(list := UpdatedIn(b.screen.list, entry)))
  }

  function Start<T>(table: map<Hash, T>): Browser<T> {
    Browser(table, {}, Screen([], false), map[], 0, 0, [])
  }

  ghost predicate Moves<T>(rank: Ranking, run: seq<Browser<T>>, moves: seq<Move<T>>, k: nat)
    requires IsRanking(rank)
  {
    k < |moves| && k + 1 < |run| && Possible(run[k], moves[k]) && run[k + 1] == After(rank, run[k], moves[k])
  }

  ghost predicate IsRun<T>(rank: Ranking, run: seq<Browser<T>>, moves: seq<Move<T>>)
    requires IsRanking(rank)
  {
    && |run| == |moves| + 1 && run[0] == Start(run[0].table)
    && forall k: nat :: k < |moves| ==> Moves(rank, run, moves, k)
  }

  // ----- Every run: exactly when the list is sorted -----

  /** Every page in flight is sorted. */
  ghost predicate PagesAreSorted<T>(rank: Ranking, b: Browser<T>) {
    forall id :: id in b.requests && b.requests[id].Answered? ==> IsDescending(rank, Hashes(b.requests[id].page))
  }

  lemma {:induction false} PagesStaySorted<T>(rank: Ranking, run: seq<Browser<T>>, moves: seq<Move<T>>, k: nat)
    requires IsRanking(rank) && IsRun(rank, run, moves) && k < |run|
    ensures PagesAreSorted(rank, run[k])
  {
    if k > 0 {
      PagesStaySorted(rank, run, moves, k - 1);
      assert Moves(rank, run, moves, k - 1);
    }
  }

  ghost predicate IsSorted<T>(rank: Ranking, b: Browser<T>) {
    IsDescending(rank, Hashes(b.screen.list))
  }

  /** If the move is an arrival, the page that arrives begins below the last item on screen. */
  ghost predicate ArrivesBelow<T>(rank: Ranking, b: Browser<T>, move: Move<T>) {
    move.Arrive? && Possible(b, move) ==> LiesBelow(rank, b.screen.list, b.requests[move.id].page)
  }

  lemma MoveKeepsSortedExactlyWhen<T>(rank: Ranking, b: Browser<T>, move: Move<T>)
    requires IsRanking(rank) && Possible(b, move)
    requires PagesAreSorted(rank, b) && IsSorted(rank, b)
    ensures IsSorted(rank, After(rank, b, move)) <==> ArrivesBelow(rank, b, move)
  {
    match move
    case Arrive(id) => AppendDescendsExactlyWhen(rank, b.screen.list, b.requests[id].page);
    case TakeOff(hash) => RemoveKeepsOrder(rank, b.screen.list, hash);
    case Show(entry) => UpdateKeepsHashes(b.screen.list, entry);
    case _ =>
  }

  /**
   Whatever is in flight: the list has been strictly descending in every state up to `n` if and only if every
   page that arrived began below the last item then on screen.
   */
  lemma {:induction false} SortedExactlyWhenPagesArriveBelow<T>(rank: Ranking, run: seq<Browser<T>>, moves: seq<Move<T>>, n: nat)
    requires IsRanking(rank) && IsRun(rank, run, moves) && n < |run|
    ensures (forall k :: 0 <= k <= n ==> IsSorted(rank, run[k]))
       <==> (forall k :: 0 <= k < n ==> ArrivesBelow(rank, run[k], moves[k]))
  {
    if n > 0 {
      SortedExactlyWhenPagesArriveBelow(rank, run, moves, n - 1);
      assert Moves(rank, run, moves, n - 1);
      PagesStaySorted(rank, run, moves, n - 1);
      if IsSorted(rank, run[n - 1]) {
        MoveKeepsSortedExactlyWhen(rank, run[n - 1], moves[n - 1]);
      }
    }
  }

  /** A descending list repeats nothing. */
  lemma SortedHasNoRepeats(rank: Ranking, hashes: seq<Hash>)
    requires IsDescending(rank, hashes)
    ensures NoRepeats(hashes)
  {
    forall i, j | 0 <= i < j < |hashes| ensures hashes[i] != hashes[j] {
      LessIsTotal(rank(hashes[i]), rank(hashes[j]));
    }
  }

  // ----- Every run: exactly when the list also misses nothing -----

  /** Every one of these rows that lies below the first cursor and not below the last item is on screen. */
  ghost predicate IsComplete<T>(rank: Ranking, b: Browser<T>, rows: set<Hash>) {
    var list := b.screen.list;
    list != [] ==>
      forall r :: r in rows && Less(rank(r), b.first) && !Less(rank(r), rank(list[|list| - 1].hash)) ==> r in Hashes(list)
  }

  /** A row lies in the gap between the last item on screen and the cursor from which a page was read. */
  ghost predicate InGap<T>(rank: Ranking, b: Browser<T>, cursor: Key, r: Hash) {
    Less(rank(r), b.first) && Less(rank(r), NextCursor(rank, b.screen.list, b.first)) && !Less(rank(r), cursor)
  }

  /** If the move brings a page that is not empty, none of the rows lies in the gap above it. */
  ghost predicate ArrivesWithoutGap<T>(rank: Ranking, b: Browser<T>, move: Move<T>, rows: set<Hash>) {
    move.Arrive? && Possible(b, move) && b.requests[move.id].page != [] ==>
      forall r :: r in rows ==> !InGap(rank, b, b.requests[move.id].cursor, r)
  }

  /** A page lies below its cursor, and a row it leaves out is above the cursor or below the whole page. */
  ghost predicate IsAnswer(rank: Ranking, page: seq<Hash>, cursor: Key, rows: set<Hash>) {
    && IsDescending(rank, page) && AllBelow(rank, page, cursor)
    && forall r, h :: r in rows && Less(rank(r), cursor) && r !in page && h in page ==> Less(rank(r), rank(h))
  }

  ghost predicate AllAnswers<T>(rank: Ranking, b: Browser<T>, rows: set<Hash>) {
    forall id :: id in b.requests && b.requests[id].Answered? ==>
      IsAnswer(rank, Hashes(b.requests[id].page), b.requests[id].cursor, rows)
  }

  lemma PageIsAnswer<T>(rank: Ranking, table: map<Hash, T>, cursor: Key, limit: nat, rows: set<Hash>)
    requires IsRanking(rank) && rows <= table.Keys
    ensures IsAnswer(rank, Hashes(Page(rank, table, cursor, limit)), cursor, rows)
  {
    var page := Page(rank, table, cursor, limit);
    forall r, h | r in rows && Less(rank(r), cursor) && r !in Hashes(page) && h in Hashes(page)
      ensures Less(rank(r), rank(h))
    {
      assert r in Below(rank, table, cursor);
    }
  }

  lemma {:induction false} AnswersStay<T>(rank: Ranking, run: seq<Browser<T>>, moves: seq<Move<T>>, rows: set<Hash>, k: nat)
    requires IsRanking(rank) && IsRun(rank, run, moves) && k < |run|
    requires forall i :: 0 <= i <= k ==> rows <= run[i].table.Keys
    ensures AllAnswers(rank, run[k], rows)
  {
    if k > 0 {
      AnswersStay(rank, run, moves, rows, k - 1);
      assert Moves(rank, run, moves, k - 1);
      if moves[k - 1].Reply? {
        var request := run[k - 1].requests[moves[k - 1].id];
        PageIsAnswer(rank, run[k - 1].table, request.cursor, request.limit, rows);
      }
    }
  }

  /** What has never left the table is never gone. */
  lemma {:induction false} NeverGone<T>(rank: Ranking, run: seq<Browser<T>>, moves: seq<Move<T>>, rows: set<Hash>, k: nat)
    requires IsRanking(rank) && IsRun(rank, run, moves) && k < |run|
    requires forall i :: 0 <= i <= k ==> rows <= run[i].table.Keys
    ensures rows !! run[k].gone
  {
    if k > 0 {
      NeverGone(rank, run, moves, rows, k - 1);
      assert Moves(rank, run, moves, k - 1);
      assert rows <= run[k].table.Keys;
    }
  }

  /** Appending a page below the list misses nothing if and only if none of the rows lies in the gap. */
  lemma AppendIsCompleteExactlyWhen<T>(rank: Ranking, b: Browser<T>, page: seq<Entry<T>>, cursor: Key, rows: set<Hash>)
    requires IsDescending(rank, Hashes(b.screen.list)) && IsComplete(rank, b, rows)
    requires page != [] && IsAnswer(rank, Hashes(page), cursor, rows)
    ensures IsComplete(rank, b.(screen := Fulfilled(b.screen, page)), rows) <==>
              forall r :: r in rows ==> !InGap(rank, b, cursor, r)
  {
    var list, whole := b.screen.list, b.screen.list + page;
    HashesOfSum(list, page);
    var last := whole[|whole| - 1].hash;
    assert Hashes(page)[|page| - 1] == last;
    if r :| r in rows && InGap(rank, b, cursor, r) {
      AboveCursorIsAbove(rank, r, last, cursor);
      NotBelowIsNotIn(rank, list, page, b.first, cursor, r);
    } else {
      forall r | r in rows && Less(rank(r), b.first) && !Less(rank(r), rank(last)) ensures r in Hashes(whole) {
        if r !in Hashes(page) {
          assert !Less(rank(r), cursor);
          assert list != [];
        }
      }
    }
  }

  lemma AboveCursorIsAbove(rank: Ranking, r: Hash, last: Hash, cursor: Key)
    requires !Less(rank(r), cursor) && Less(rank(last), cursor)
    ensures !Less(rank(r), rank(last))
  {
    if Less(rank(r), rank(last)) {
      LessTransitive(rank(r), rank(last), cursor);
    }
  }

  /** A row in the gap is neither on screen nor in the page. */
  lemma NotBelowIsNotIn<T>(rank: Ranking, list: seq<Entry<T>>, page: seq<Entry<T>>, first: Key, cursor: Key, r: Hash)
    requires IsDescending(rank, Hashes(list)) && AllBelow(rank, Hashes(page), cursor)
    requires Less(rank(r), NextCursor(rank, list, first)) && !Less(rank(r), cursor)
    ensures r !in Hashes(list + page)
  {
    HashesOfSum(list, page);
    if list != [] {
      LastIsLowest(rank, list, first);
    }
  }

  /** The last item that a removal leaves is not below the last one before. */
  lemma LastKept<T>(rank: Ranking, list: seq<Entry<T>>, hash: Hash, first: Key)
    requires IsDescending(rank, Hashes(list)) && RemovedFrom(list, hash) != []
    ensures var kept := RemovedFrom(list, hash);
            list != [] && !Less(rank(kept[|kept| - 1].hash), rank(list[|list| - 1].hash))
  {
    var kept := RemovedFrom(list, hash);
    RemoveKeepsTheRest(list, hash);
    var last := kept[|kept| - 1].hash;
    assert Hashes(kept)[|kept| - 1] == last && last in Hashes(list);
    LastIsLowest(rank, list, first);
  }

  lemma TakeOffKeepsRow<T>(rank: Ranking, b: Browser<T>, hash: Hash, rows: set<Hash>, r: Hash)
    requires IsDescending(rank, Hashes(b.screen.list)) && IsComplete(rank, b, rows) && RemovedFrom(b.screen.list, hash) != []
    requires var kept := RemovedFrom(b.screen.list, hash);
             r in rows && r != hash && Less(rank(r), b.first) && !Less(rank(r), rank(kept[|kept| - 1].hash))
    ensures r in Hashes(RemovedFrom(b.screen.list, hash))
  {
    var list, kept := b.screen.list, RemovedFrom(b.screen.list, hash);
    LastKept(rank, list, hash, b.first);
    AtLeastTransitive(rank(r), rank(kept[|kept| - 1].hash), rank(list[|list| - 1].hash));
    RowIsKept(list, hash, r);
  }

  lemma TakeOffIsComplete<T>(rank: Ranking, b: Browser<T>, hash: Hash, rows: set<Hash>)
    requires IsDescending(rank, Hashes(b.screen.list)) && IsComplete(rank, b, rows) && hash !in rows
    ensures IsComplete(rank, b.(screen := b.screen.(list := RemovedFrom(b.screen.list, hash))), rows)
  {
    var kept := RemovedFrom(b.screen.list, hash);
    if kept != [] {
      forall r | r in rows && Less(rank(r), b.first) && !Less(rank(r), rank(kept[|kept| - 1].hash)) ensures r in Hashes(kept) {
        TakeOffKeepsRow(rank, b, hash, rows, r);
      }
    }
  }

  lemma RowIsKept<T>(list: seq<Entry<T>>, hash: Hash, r: Hash)
    requires r in Hashes(list) && r != hash
    ensures r in Hashes(RemovedFrom(list, hash))
  {
    RemoveKeepsTheRest(list, hash);
  }

  lemma ShowIsComplete<T>(rank: Ranking, b: Browser<T>, entry: Entry<T>, rows: set<Hash>)
    requires IsComplete(rank, b, rows)
    ensures IsComplete(rank, b.(screen := b.screen.(list := UpdatedIn(b.screen.list, entry))), rows)
  {
    var list, updated := b.screen.list, UpdatedIn(b.screen.list, entry);
    UpdateKeepsHashes(list, entry);
    if list != [] {
      assert Hashes(updated)[|list| - 1] == updated[|list| - 1].hash && Hashes(list)[|list| - 1] == list[|list| - 1].hash;
    }
  }

  lemma ArrivalIsCompleteExactlyWhen<T>(rank: Ranking, b: Browser<T>, id: nat, rows: set<Hash>)
    requires IsRanking(rank) && Possible(b, Arrive(id))
    requires IsSorted(rank, b) && IsComplete(rank, b, rows) && AllAnswers(rank, b, rows)
    ensures IsComplete(rank, After(rank, b, Arrive(id)), rows) <==> ArrivesWithoutGap(rank, b, Arrive(id), rows)
  {
    var page := b.requests[id].page;
    if page == [] {
      assert b.screen.list + page == b.screen.list;
    } else {
      AppendIsCompleteExactlyWhen(rank, b, page, b.requests[id].cursor, rows);
    }
  }

  lemma MoveKeepsCompleteExactlyWhen<T>(rank: Ranking, b: Browser<T>, move: Move<T>, rows: set<Hash>)
    requires IsRanking(rank) && Possible(b, move)
    requires IsSorted(rank, b) && IsComplete(rank, b, rows) && AllAnswers(rank, b, rows) && rows !! b.gone
    ensures IsComplete(rank, After(rank, b, move), rows) <==> ArrivesWithoutGap(rank, b, move, rows)
  {
    match move
    case Arrive(id) => ArrivalIsCompleteExactlyWhen(rank, b, id, rows);
    case TakeOff(hash) => TakeOffIsComplete(rank, b, hash, rows);
    case Show(entry) => ShowIsComplete(rank, b, entry, rows);
    case _ =>
  }

  ghost predicate ShowsAll<T>(rank: Ranking, b: Browser<T>, rows: set<Hash>) {
    IsSorted(rank, b) && IsComplete(rank, b, rows)
  }

  ghost predicate ArrivesWell<T>(rank: Ranking, b: Browser<T>, move: Move<T>, rows: set<Hash>) {
    ArrivesBelow(rank, b, move) && ArrivesWithoutGap(rank, b, move, rows)
  }

  lemma MoveShowsAllExactlyWhen<T>(rank: Ranking, b: Browser<T>, move: Move<T>, rows: set<Hash>)
    requires IsRanking(rank) && Possible(b, move)
    requires ShowsAll(rank, b, rows) && PagesAreSorted(rank, b) && AllAnswers(rank, b, rows) && rows !! b.gone
    ensures ShowsAll(rank, After(rank, b, move), rows) <==> ArrivesWell(rank, b, move, rows)
  {
    MoveKeepsSortedExactlyWhen(rank, b, move);
    MoveKeepsCompleteExactlyWhen(rank, b, move, rows);
  }

  lemma NextShowsAllExactlyWhen<T>(rank: Ranking, run: seq<Browser<T>>, moves: seq<Move<T>>, rows: set<Hash>, k: nat)
    requires IsRanking(rank) && IsRun(rank, run, moves) && k < |moves|
    requires forall i :: 0 <= i <= k ==> rows <= run[i].table.Keys
    requires ShowsAll(rank, run[k], rows)
    ensures ShowsAll(rank, run[k + 1], rows) <==> ArrivesWell(rank, run[k], moves[k], rows)
  {
    assert Moves(rank, run, moves, k);
    PagesStaySorted(rank, run, moves, k);
    AnswersStay(rank, run, moves, rows, k);
    NeverGone(rank, run, moves, rows, k);
    MoveShowsAllExactlyWhen(rank, run[k], moves[k], rows);
  }

  /**
   Whatever is in flight, and for any rows that match throughout: in every state up to `n` the list has been
   strictly descending and has shown each of these rows that lies below the first cursor and not below its last
   item, if and only if every page that arrived began below the last item and left none of these rows in between.
   */
  lemma {:induction false} ShowsAllExactlyWhen<T>(
      rank: Ranking, run: seq<Browser<T>>, moves: seq<Move<T>>, rows: set<Hash>, n: nat)
    requires IsRanking(rank) && IsRun(rank, run, moves) && n < |run|
    requires forall k :: 0 <= k <= n ==> rows <= run[k].table.Keys
    ensures (forall k :: 0 <= k <= n ==> ShowsAll(rank, run[k], rows))
       <==> (forall k :: 0 <= k < n ==> ArrivesWell(rank, run[k], moves[k], rows))
  {
    if n > 0 {
      ShowsAllExactlyWhen(rank, run, moves, rows, n - 1);
      if ShowsAll(rank, run[n - 1], rows) {
        NextShowsAllExactlyWhen(rank, run, moves, rows, n - 1);
      }
    }
  }

  // ----- Runs in which no answer outlives its page -----

  /** No answer that arrives was asked for before the page was last opened. */
  ghost predicate IsFresh<T>(b: Browser<T>, move: Move<T>) {
    move.Arrive? ==> move.id >= b.current
  }

  ghost predicate AllFresh<T>(run: seq<Browser<T>>, moves: seq<Move<T>>, n: nat) {
    forall k :: 0 <= k < n && k < |run| && k < |moves| ==> IsFresh(run[k], moves[k])
  }

  /** The page is opened only while nothing is in flight. */
  ghost predicate OpensWhenIdle<T>(run: seq<Browser<T>>, moves: seq<Move<T>>, n: nat) {
    forall k :: 0 <= k < n && k < |run| && k < |moves| && moves[k].Open? ==> run[k].requests == map[]
  }

  /** The request sent last, if it is still in flight and was sent since the page was opened. */
  function CurrentRequest<T>(b: Browser<T>): Request<T> {
    if b.sent > b.current && b.sent - 1 in b.requests then b.requests[b.sent - 1] else Idle
  }

  /** Only the last request can be current; while the flag is down none is. */
  ghost predicate Coherent<T>(b: Browser<T>) {
    && b.current <= b.sent
    && (forall id :: id in b.requests ==> id < b.sent && !b.requests[id].Idle? && (id < b.current || id == b.sent - 1))
    && (!b.screen.isLoading ==> CurrentRequest(b) == Idle)
  }

  /** What there is besides answers that come too late. */
  function Focus<T>(b: Browser<T>): View<T> {
    View(b.table, b.gone, b.screen.list, CurrentRequest(b), b.first)
  }

  ghost predicate Follows<T>(rank: Ranking, v: View<T>, action: Action<T>, w: View<T>)
    requires IsRanking(rank)
  {
    Enabled(v, action) && w == Apply(rank, v, action)
  }

  lemma MoveKeepsCoherent<T>(rank: Ranking, b: Browser<T>, move: Move<T>)
    requires IsRanking(rank) && Possible(b, move) && Coherent(b) && IsFresh(b, move)
    ensures Coherent(After(rank, b, move))
  {
  }

  /** A page that is opened is a clear followed by a request. */
  lemma OpenIsClearAndAsk<T>(rank: Ranking, b: Browser<T>, first: Key, limit: nat)
    requires IsRanking(rank) && Coherent(b)
    ensures var cleared := Apply(rank, Focus(b), Clear);
            Follows(rank, cleared, Ask(first, limit), Focus(After(rank, b, Open(first, limit))))
  {
  }

  /** Every other fresh move is one step of the view, or none: the reply to a request that comes too late. */
  lemma MoveIsStep<T>(rank: Ranking, b: Browser<T>, move: Move<T>)
    requires IsRanking(rank) && Possible(b, move) && Coherent(b) && IsFresh(b, move) && !move.Open?
    ensures var v, w := Focus(b), Focus(After(rank, b, move));
            match move
            case TableMoves(table) => Follows(rank, v, TableChanges(table), w)
            case LoadMore(first, limit) => Follows(rank, v, Ask(first, limit), w)
            case Reply(id) => w == v || Follows(rank, v, Answer, w)
            case Arrive(id) => Follows(rank, v, Receive, w)
            case TakeOff(hash) => Follows(rank, v, Remove(hash), w)
            case Show(entry) => Follows(rank, v, Update(entry), w)
            case Open(_, _) => true
  {
  }

  lemma MoveKeepsOrder<T>(rank: Ranking, b: Browser<T>, move: Move<T>)
    requires IsRanking(rank) && Possible(b, move) && Coherent(b) && IsFresh(b, move)
    requires Ordered(rank, Focus(b))
    ensures Ordered(rank, Focus(After(rank, b, move)))
  {
    var v := Focus(b);
    if move.Open? {
      OpenIsClearAndAsk(rank, b, move.first, move.limit);
      StepKeepsOrder(rank, v, Clear);
      StepKeepsOrder(rank, Apply(rank, v, Clear), Ask(move.first, move.limit));
    } else {
      MoveIsStep(rank, b, move);
      match move
      case TableMoves(table) => StepKeepsOrder(rank, v, TableChanges(table));
      case LoadMore(first, limit) => StepKeepsOrder(rank, v, Ask(first, limit));
      case Reply(id) => if Focus(After(rank, b, move)) != v { StepKeepsOrder(rank, v, Answer); }
      case Arrive(id) => StepKeepsOrder(rank, v, Receive);
      case TakeOff(hash) => StepKeepsOrder(rank, v, Remove(hash));
      case Show(entry) => StepKeepsOrder(rank, v, Update(entry));
    }
  }

  lemma MoveKeepsShowing<T>(rank: Ranking, b: Browser<T>, move: Move<T>, row: Hash)
    requires IsRanking(rank) && Possible(b, move) && Coherent(b) && IsFresh(b, move)
    requires Ordered(rank, Focus(b)) && Shows(rank, Focus(b), row)
    requires row in b.table && row !in b.gone && row in After(rank, b, move).table
    ensures Shows(rank, Focus(After(rank, b, move)), row) && row !in After(rank, b, move).gone
  {
    var v := Focus(b);
    if move.Open? {
      OpenIsClearAndAsk(rank, b, move.first, move.limit);
      StepKeepsOrder(rank, v, Clear);
      StepKeepsShowing(rank, v, Clear, row);
      StepKeepsShowing(rank, Apply(rank, v, Clear), Ask(move.first, move.limit), row);
    } else {
      MoveIsStep(rank, b, move);
      match move
      case TableMoves(table) => StepKeepsShowing(rank, v, TableChanges(table), row);
      case LoadMore(first, limit) => StepKeepsShowing(rank, v, Ask(first, limit), row);
      case Reply(id) => if Focus(After(rank, b, move)) != v { StepKeepsShowing(rank, v, Answer, row); }
      case Arrive(id) => StepKeepsShowing(rank, v, Receive, row);
      case TakeOff(hash) => StepKeepsShowing(rank, v, Remove(hash), row);
      case Show(entry) => StepKeepsShowing(rank, v, Update(entry), row);
    }
  }

  /** Opening the page only while nothing is in flight is enough: then every answer is fresh. */
  lemma {:induction false} IdleOpensAreFresh<T>(rank: Ranking, run: seq<Browser<T>>, moves: seq<Move<T>>, n: nat)
    requires IsRanking(rank) && IsRun(rank, run, moves) && n < |run| && OpensWhenIdle(run, moves, n)
    ensures AllFresh(run, moves, n)
    ensures forall id :: id in run[n].requests ==> id >= run[n].current
    ensures run[n].current <= run[n].sent
  {
    if n > 0 {
      IdleOpensAreFresh(rank, run, moves, n - 1);
      assert Moves(rank, run, moves, n - 1);
    }
  }

  /** If no answer outlives its page, the list is strictly descending in every state, and so repeats nothing. */
  lemma {:induction false} FreshListStaysDescending<T>(rank: Ranking, run: seq<Browser<T>>, moves: seq<Move<T>>, n: nat)
    requires IsRanking(rank) && IsRun(rank, run, moves) && n < |run| && AllFresh(run, moves, n)
    ensures Coherent(run[n]) && Ordered(rank, Focus(run[n]))
    ensures IsSorted(rank, run[n]) && NoRepeats(Hashes(run[n].screen.list))
  {
    if n > 0 {
      FreshListStaysDescending(rank, run, moves, n - 1);
      assert Moves(rank, run, moves, n - 1);
      MoveKeepsCoherent(rank, run[n - 1], moves[n - 1]);
      MoveKeepsOrder(rank, run[n - 1], moves[n - 1]);
    }
    SortedHasNoRepeats(rank, Hashes(run[n].screen.list));
  }

  lemma {:induction false} StableRowShows<T>(rank: Ranking, run: seq<Browser<T>>, moves: seq<Move<T>>, row: Hash, n: nat)
    requires IsRanking(rank) && IsRun(rank, run, moves) && n < |run| && AllFresh(run, moves, n)
    requires forall k :: 0 <= k <= n ==> row in run[k].table
    ensures Shows(rank, Focus(run[n]), row) && row !in run[n].gone
  {
    if n == 0 {
      StartShows(rank, Focus(run[0]), row);
    } else {
      StableRowShows(rank, run, moves, row, n - 1);
      FreshListStaysDescending(rank, run, moves, n - 1);
      assert Moves(rank, run, moves, n - 1);
      MoveKeepsShowing(rank, run[n - 1], moves[n - 1], row);
    }
  }

  /** A shown row of a sorted list is at exactly one place. */
  ghost predicate IsShownOnce<T>(list: seq<Entry<T>>, row: Hash) {
    exists k :: 0 <= k < |list| && Hashes(list)[k] == row
      && forall j :: 0 <= j < |list| && j != k ==> Hashes(list)[j] != row
  }

  /**
   If no answer outlives its page, a row that matches throughout, and lies below the first cursor and not below
   the last item on screen, is on screen at exactly one place.
   */
  lemma StableRowIsShownOnce<T>(rank: Ranking, run: seq<Browser<T>>, moves: seq<Move<T>>, row: Hash, n: nat)
    requires IsRanking(rank) && IsRun(rank, run, moves) && n < |run| && AllFresh(run, moves, n)
    requires forall k :: 0 <= k <= n ==> row in run[k].table
    requires var list := run[n].screen.list;
             list != [] && Less(rank(row), run[n].first) && !Less(rank(row), rank(list[|list| - 1].hash))
    ensures IsShownOnce(run[n].screen.list, row)
  {
    FreshListStaysDescending(rank, run, moves, n);
    StableRowShows(rank, run, moves, row, n);
    OrderedShowsOnce(rank, Focus(run[n]), row);
  }

  lemma OrderedShowsOnce<T>(rank: Ranking, v: View<T>, row: Hash)
    requires Ordered(rank, v) && Shows(rank, v, row)
    requires v.list != [] && Less(rank(row), v.first) && !Less(rank(row), rank(v.list[|v.list| - 1].hash))
    ensures IsShownOnce(v.list, row)
  {
    var last := v.list[|v.list| - 1].hash;
    assert Hashes(v.list)[|v.list| - 1] == last;
    AtLeastTransitive(rank(row), rank(last), Frontier(rank, v));
    assert row in Hashes(v.list);
    SortedHasNoRepeats(rank, Hashes(v.list));
    var k :| 0 <= k < |v.list| && Hashes(v.list)[k] == row;
  }

  // ----- Runs in which one does -----

  lemma Extend<T>(rank: Ranking, run: seq<Browser<T>>, moves: seq<Move<T>>, move: Move<T>)
    returns (run': seq<Browser<T>>, moves': seq<Move<T>>)
    requires IsRanking(rank) && IsRun(rank, run, moves) && Possible(run[|run| - 1], move)
    ensures IsRun(rank, run', moves') && run'[0] == run[0]
    ensures run'[|run'| - 1] == After(rank, run[|run| - 1], move) && moves' == moves + [move]
  {
    run', moves' := run + [After(rank, run[|run| - 1], move)], moves + [move];
    forall k: nat | k < |moves'| ensures Moves(rank, run', moves', k) {
      if k < |moves| {
        assert Moves(rank, run, moves, k);
      }
    }
  }

  /** The page is opened and the database replies. */
  lemma OpenAndReply<T>(rank: Ranking, run: seq<Browser<T>>, moves: seq<Move<T>>, first: Key, limit: nat)
    returns (run': seq<Browser<T>>, moves': seq<Move<T>>)
    requires IsRanking(rank) && IsRun(rank, run, moves)
    ensures IsRun(rank, run', moves') && run'[0] == run[0]
    ensures var b := run[|run| - 1];
            && moves' == moves + [Open(first, limit), Reply(b.sent)]
            && run'[|run'| - 1] == b.(screen := Screen([], true), first := first, current := b.sent, sent := b.sent + 1,
                                      requests := b.requests[b.sent := Answered(first, Page(rank, b.table, first, limit))])
  {
    var b := run[|run| - 1];
    run', moves' := Extend(rank, run, moves, Open(first, limit));
    run', moves' := Extend(rank, run', moves', Reply(b.sent));
    assert b.requests[b.sent := Asked(first, limit)][b.sent := Answered(first, Page(rank, b.table, first, limit))]
        == b.requests[b.sent := Answered(first, Page(rank, b.table, first, limit))];
  }

  /** More is asked for and the database replies. */
  lemma LoadMoreAndReply<T>(rank: Ranking, run: seq<Browser<T>>, moves: seq<Move<T>>, limit: nat)
    returns (run': seq<Browser<T>>, moves': seq<Move<T>>)
    requires IsRanking(rank) && IsRun(rank, run, moves) && !run[|run| - 1].screen.isLoading
    ensures IsRun(rank, run', moves') && run'[0] == run[0]
    ensures var b := run[|run| - 1];
            var cursor := NextCursor(rank, b.screen.list, b.first);
            && moves' == moves + [LoadMore(b.first, limit), Reply(b.sent)]
            && run'[|run'| - 1] == b.(screen := b.screen.(isLoading := true), sent := b.sent + 1,
                                      requests := b.requests[b.sent := Answered(cursor, Page(rank, b.table, cursor, limit))])
  {
    var b := run[|run| - 1];
    var cursor := NextCursor(rank, b.screen.list, b.first);
    run', moves' := Extend(rank, run, moves, LoadMore(b.first, limit));
    run', moves' := Extend(rank, run', moves', Reply(b.sent));
    assert b.requests[b.sent := Asked(cursor, limit)][b.sent := Answered(cursor, Page(rank, b.table, cursor, limit))]
        == b.requests[b.sent := Answered(cursor, Page(rank, b.table, cursor, limit))];
  }

  lemma PageIsEmpty<T>(rank: Ranking, table: map<Hash, T>, first: Key, limit: nat)
    requires IsRanking(rank)
    ensures Page(rank, table, first, limit) == [] <==> limit == 0 || Below(rank, table, first) == {}
  {
    var page := Page(rank, table, first, limit);
    if page != [] {
      assert Hashes(page)[0] in Below(rank, table, first);
    }
    if limit > 0 && Below(rank, table, first) != {} {
      var h :| h in Below(rank, table, first);
      assert h in Hashes(page) || |page| == limit;
    }
  }

  lemma DoublingRepeats<T>(page: seq<Entry<T>>)
    ensures NoRepeats(Hashes(page + page)) <==> page == []
  {
    if page != [] {
      assert Hashes(page + page)[0] == Hashes(page + page)[|page|];
    }
  }

  lemma TwoAnswersInFlight<T>(rank: Ranking, table: map<Hash, T>, first: Key, limit: nat)
    returns (run: seq<Browser<T>>, moves: seq<Move<T>>)
    requires IsRanking(rank)
    ensures IsRun(rank, run, moves) && run[0] == Start(table)
    ensures moves == [Open(first, limit), Reply(0)] + [Open(first, limit), Reply(1)]
    ensures var b, page := run[|run| - 1], Page(rank, table, first, limit);
            && b.screen.list == [] && 0 in b.requests && 1 in b.requests
            && b.requests[0] == Answered(first, page) && b.requests[1] == Answered(first, page)
  {
    run, moves := [Start(table)], [];
    run, moves := OpenAndReply(rank, run, moves, first, limit);
    run, moves := OpenAndReply(rank, run, moves, first, limit);
  }

  /** The page is opened, left and opened again before the first answer arrives; then both arrive. */
  lemma OpenedTwice<T>(rank: Ranking, table: map<Hash, T>, first: Key, limit: nat)
    returns (run: seq<Browser<T>>, moves: seq<Move<T>>)
    requires IsRanking(rank)
    ensures IsRun(rank, run, moves) && run[0].table == table && run[0].screen == Screen([], false)
    ensures moves == [Open(first, limit), Reply(0)] + [Open(first, limit), Reply(1)] + [Arrive(0), Arrive(1)]
    ensures run[|run| - 1].screen.list == Page(rank, table, first, limit) + Page(rank, table, first, limit)
  {
    var flying, movesBefore := TwoAnswersInFlight(rank, table, first, limit);
    run, moves := BothArrive(rank, flying, movesBefore, 0, 1);
    var page := Page(rank, table, first, limit);
    assert [] + page == page;
  }

  /** That run shows a row twice, unless the query selects none or asks for none. */
  lemma OpeningTwiceRepeatsRows<T>(rank: Ranking, table: map<Hash, T>, first: Key, limit: nat)
    returns (run: seq<Browser<T>>, moves: seq<Move<T>>)
    requires IsRanking(rank)
    ensures IsRun(rank, run, moves) && run[0].table == table && run[0].screen == Screen([], false)
    ensures moves == [Open(first, limit), Reply(0)] + [Open(first, limit), Reply(1)] + [Arrive(0), Arrive(1)]
    ensures NoRepeats(Hashes(run[|run| - 1].screen.list)) <==> limit == 0 || Below(rank, table, first) == {}
  {
    run, moves := OpenedTwice(rank, table, first, limit);
    PageIsEmpty(rank, table, first, limit);
    DoublingRepeats(Page(rank, table, first, limit));
  }

  ghost function SecondPage<T>(rank: Ranking, table: map<Hash, T>, first: Key, limit: nat): seq<Entry<T>>
    requires IsRanking(rank)
  {
    Page(rank, table, NextCursor(rank, Page(rank, table, first, limit), first), limit)
  }

  /** The first page is shown, more is asked for, and the database replies. */
  function AskedOnce<T>(first: Key, limit: nat): seq<Move<T>> {
    [Open(first, limit), Reply(0)] + [Arrive(0)]
  }

  function AskedTwice<T>(first: Key, limit: nat): seq<Move<T>> {
    AskedOnce(first, limit) + [LoadMore(first, limit), Reply(1)]
  }

  /** The first page is on screen. */
  lemma FirstPageOnScreen<T>(rank: Ranking, table: map<Hash, T>, first: Key, limit: nat)
    returns (run: seq<Browser<T>>, moves: seq<Move<T>>)
    requires IsRanking(rank)
    ensures IsRun(rank, run, moves) && run[0] == Start(table)
    ensures moves == AskedOnce(first, limit)
    ensures run[|run| - 1] == Browser(table, {}, Screen(Page(rank, table, first, limit), false), map[], 1, 0, first)
  {
    run, moves := [Start(table)], [];
    run, moves := OpenAndReply(rank, run, moves, first, limit);
    FirstArrives(rank, run[|run| - 1], table, first, Page(rank, table, first, limit));
    run, moves := Extend(rank, run, moves, Arrive(0));
  }

  lemma FirstArrives<T>(rank: Ranking, b: Browser<T>, table: map<Hash, T>, first: Key, page: seq<Entry<T>>)
    requires IsRanking(rank) && b == Browser(table, {}, Screen([], true), map[0 := Answered(first, page)], 1, 0, first)
    ensures Possible(b, Arrive(0)) && After(rank, b, Arrive(0)) == Browser(table, {}, Screen(page, false), map[], 1, 0, first)
  {
    assert [] + page == page;
  }

  /** Whatever the first page is: more is asked for and the database replies. */
  lemma LoadSecond<T>(
      rank: Ranking, run: seq<Browser<T>>, moves: seq<Move<T>>, table: map<Hash, T>, page: seq<Entry<T>>, first: Key, limit: nat)
    returns (run': seq<Browser<T>>, moves': seq<Move<T>>)
    requires IsRanking(rank) && IsRun(rank, run, moves)
    requires run[|run| - 1] == Browser(table, {}, Screen(page, false), map[], 1, 0, first)
    ensures IsRun(rank, run', moves') && run'[0] == run[0] && moves' == moves + [LoadMore(first, limit), Reply(1)]
    ensures var cursor := NextCursor(rank, page, first);
            run'[|run'| - 1] == Browser(table, {}, Screen(page, true), map[1 := Answered(cursor, Page(rank, table, cursor, limit))], 2, 0, first)
  {
    run', moves' := LoadMoreAndReply(rank, run, moves, limit);
    var answer := Answered(NextCursor(rank, page, first), Page(rank, table, NextCursor(rank, page, first), limit));
    assert run[|run| - 1].requests[1 := answer] == map[1 := answer];
  }

  /** The first page is on screen and the second is in flight. */
  lemma SecondPageInFlight<T>(rank: Ranking, table: map<Hash, T>, first: Key, limit: nat)
    returns (run: seq<Browser<T>>, moves: seq<Move<T>>)
    requires IsRanking(rank)
    ensures IsRun(rank, run, moves) && run[0] == Start(table)
    ensures moves == AskedTwice(first, limit)
    ensures var page := Page(rank, table, first, limit);
            run[|run| - 1] == Browser(table, {}, Screen(page, true),
              map[1 := Answered(NextCursor(rank, page, first), SecondPage(rank, table, first, limit))], 2, 0, first)
  {
    run, moves := FirstPageOnScreen(rank, table, first, limit);
    run, moves := LoadSecond(rank, run, moves, table, Page(rank, table, first, limit), first, limit);
  }

  lemma BothArrive<T>(rank: Ranking, run: seq<Browser<T>>, moves: seq<Move<T>>, p: nat, q: nat)
    returns (run': seq<Browser<T>>, moves': seq<Move<T>>)
    requires IsRanking(rank) && IsRun(rank, run, moves) && p != q
    requires p in run[|run| - 1].requests && run[|run| - 1].requests[p].Answered?
    requires q in run[|run| - 1].requests && run[|run| - 1].requests[q].Answered?
    ensures IsRun(rank, run', moves') && run'[0] == run[0] && moves' == moves + [Arrive(p), Arrive(q)]
    ensures var b := run[|run| - 1];
            run'[|run'| - 1].screen.list == b.screen.list + b.requests[p].page + b.requests[q].page
  {
    run', moves' := Extend(rank, run, moves, Arrive(p));
    run', moves' := Extend(rank, run', moves', Arrive(q));
  }

  /** The page is opened again with the second page still in flight. */
  lemma ReopenedBeforeSecondPage<T>(rank: Ranking, table: map<Hash, T>, first: Key, limit: nat)
    returns (run: seq<Browser<T>>, moves: seq<Move<T>>)
    requires IsRanking(rank)
    ensures IsRun(rank, run, moves) && run[0] == Start(table)
    ensures moves == AskedTwice(first, limit) + [Open(first, limit), Reply(2)]
    ensures var b := run[|run| - 1];
            && b.screen.list == [] && b.first == first && 1 in b.requests && 2 in b.requests && b.requests[1].Answered? && b.requests[2].Answered?
            && b.requests[1].page == SecondPage(rank, table, first, limit)
            && b.requests[2].page == Page(rank, table, first, limit)
  {
    run, moves := SecondPageInFlight(rank, table, first, limit);
    run, moves := OpenAndReply(rank, run, moves, first, limit);
  }

  /** More is asked for, the page is opened again, and the old second page arrives before the new first one. */
  lemma LateSecondPage<T>(rank: Ranking, table: map<Hash, T>, first: Key, limit: nat)
    returns (run: seq<Browser<T>>, moves: seq<Move<T>>)
    requires IsRanking(rank)
    ensures IsRun(rank, run, moves) && run[0].table == table && run[0].screen == Screen([], false)
    ensures moves == AskedTwice(first, limit) + [Open(first, limit), Reply(2)] + [Arrive(1), Arrive(2)]
    ensures run[|run| - 1].screen.list == SecondPage(rank, table, first, limit) + Page(rank, table, first, limit)
  {
    var reopened, movesBefore := ReopenedBeforeSecondPage(rank, table, first, limit);
    run, moves := BothArrive(rank, reopened, movesBefore, 1, 2);
    var second := SecondPage(rank, table, first, limit);
    assert [] + second == second;
  }

  /** The second page holds something exactly if the query selects more rows than a page holds. */
  lemma SecondPageIsEmpty<T>(rank: Ranking, table: map<Hash, T>, first: Key, limit: nat)
    requires IsRanking(rank)
    ensures SecondPage(rank, table, first, limit) == [] <==> limit == 0 || |Below(rank, table, first)| <= limit
  {
    var all, page := WholeList(rank, table, first), Page(rank, table, first, limit);
    assert Hashes(page) == Take(all, limit) by {
      NextPage(rank, table, first, [], 0, limit);
      assert [] + page == page;
    }
    NextPage(rank, table, first, page, limit, limit);
    HashesOfSum(page, SecondPage(rank, table, first, limit));
  }

  /** That run ends with a list out of order, unless the query selects at most one page or asks for none. */
  lemma LateSecondPageUnsorts<T>(rank: Ranking, table: map<Hash, T>, first: Key, limit: nat)
    returns (run: seq<Browser<T>>, moves: seq<Move<T>>)
    requires IsRanking(rank)
    ensures IsRun(rank, run, moves) && run[0].table == table && run[0].screen == Screen([], false)
    ensures moves == AskedTwice(first, limit) + [Open(first, limit), Reply(2)] + [Arrive(1), Arrive(2)]
    ensures IsSorted(rank, run[|run| - 1]) <==> limit == 0 || |Below(rank, table, first)| <= limit
  {
    run, moves := LateSecondPage(rank, table, first, limit);
    SecondPageIsEmpty(rank, table, first, limit);
    var page, second := Page(rank, table, first, limit), SecondPage(rank, table, first, limit);
    AppendDescendsExactlyWhen(rank, second, page);
    if second != [] {
      SecondPageIsLower(rank, table, first, limit);
    }
  }

  /** The last row of the second page lies below the last row of the first. */
  lemma LastRows<T>(rank: Ranking, table: map<Hash, T>, first: Key, limit: nat) returns (upper: Hash, lower: Hash)
    requires IsRanking(rank) && SecondPage(rank, table, first, limit) != []
    ensures Page(rank, table, first, limit) != []
    ensures upper == LastOf(Page(rank, table, first, limit)) && lower == LastOf(SecondPage(rank, table, first, limit))
    ensures upper in table && Less(rank(upper), first) && Less(rank(lower), rank(upper))
    ensures upper !in Hashes(SecondPage(rank, table, first, limit))
  {
    FirstPageIsNotEmpty(rank, table, first, limit);
    upper := LastOf(Page(rank, table, first, limit));
    lower := LastOf(SecondPage(rank, table, first, limit));
    assert upper in table && Less(rank(upper), first) by {
      LastIsBelow(rank, table, first, limit);
    }
    assert Less(rank(lower), rank(upper)) by {
      LastIsBelow(rank, table, rank(upper), limit);
    }
    assert upper !in Hashes(SecondPage(rank, table, first, limit)) by {
      CursorIsNotInPage(rank, table, upper, limit);
    }
  }

  function LastOf<T>(list: seq<Entry<T>>): Hash
    requires list != []
  {
    list[|list| - 1].hash
  }

  lemma FirstPageIsNotEmpty<T>(rank: Ranking, table: map<Hash, T>, first: Key, limit: nat)
    requires IsRanking(rank) && SecondPage(rank, table, first, limit) != []
    ensures Page(rank, table, first, limit) != []
  {
    SecondPageIsEmpty(rank, table, first, limit);
    PageIsEmpty(rank, table, first, limit);
  }

  lemma LastIsBelow<T>(rank: Ranking, table: map<Hash, T>, cursor: Key, limit: nat)
    requires IsRanking(rank) && Page(rank, table, cursor, limit) != []
    ensures LastOf(Page(rank, table, cursor, limit)) in table && Less(rank(LastOf(Page(rank, table, cursor, limit))), cursor)
  {
    var page := Page(rank, table, cursor, limit);
    assert Hashes(page)[|page| - 1] in Below(rank, table, cursor);
  }

  lemma CursorIsNotInPage<T>(rank: Ranking, table: map<Hash, T>, h: Hash, limit: nat)
    requires IsRanking(rank)
    ensures h !in Hashes(Page(rank, table, rank(h), limit))
  {
    assert h !in Below(rank, table, rank(h)) by {
      LessIsTotal(rank(h), rank(h));
    }
  }

  lemma SecondPageIsLower<T>(rank: Ranking, table: map<Hash, T>, first: Key, limit: nat)
    requires IsRanking(rank) && SecondPage(rank, table, first, limit) != []
    ensures !LiesBelow(rank, SecondPage(rank, table, first, limit), Page(rank, table, first, limit))
  {
    var upper, lower := LastRows(rank, table, first, limit);
    var p := Hashes(Page(rank, table, first, limit));
    if |p| > 1 {
      LessTransitive(rank(lower), rank(upper), rank(p[0]));
    }
    LessIsTotal(rank(lower), rank(p[0]));
  }

  /**
   Before the new first page arrives, that run shows a list that is in order and misses the first page, unless the
   query selects at most one page or the limit is zero.
   */
  lemma LateSecondPageMissesRows<T>(rank: Ranking, table: map<Hash, T>, first: Key, limit: nat)
    returns (run: seq<Browser<T>>, moves: seq<Move<T>>)
    requires IsRanking(rank)
    ensures IsRun(rank, run, moves) && run[0].table == table && run[0].screen == Screen([], false)
    ensures moves == AskedTwice(first, limit) + [Open(first, limit), Reply(2)] + [Arrive(1)]
    ensures var b := run[|run| - 1];
            && b.screen.list == SecondPage(rank, table, first, limit) && b.first == first && IsSorted(rank, b)
            && (IsComplete(rank, b, table.Keys) <==> limit == 0 || |Below(rank, table, first)| <= limit)
  {
    var flying, movesBefore := ReopenedBeforeSecondPage(rank, table, first, limit);
    run, moves := Extend(rank, flying, movesBefore, Arrive(1));
    var second := SecondPage(rank, table, first, limit);
    assert [] + second == second;
    SecondPageIsEmpty(rank, table, first, limit);
    if second != [] {
      FirstPageIsMissed(rank, table, first, limit);
    }
  }

  lemma FirstPageIsMissed<T>(rank: Ranking, table: map<Hash, T>, first: Key, limit: nat)
    requires IsRanking(rank) && SecondPage(rank, table, first, limit) != []
    ensures var second := SecondPage(rank, table, first, limit);
            exists r :: r in table && Less(rank(r), first) && !Less(rank(r), rank(second[|second| - 1].hash))
              && r !in Hashes(second)
  {
    var upper, lower := LastRows(rank, table, first, limit);
    assert !Less(rank(upper), rank(lower)) by {
      LessIsTotal(rank(lower), rank(upper));
    }
  }
}
