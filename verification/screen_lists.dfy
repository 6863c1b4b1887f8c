/** A list of rows on screen, and what the reducers of the web page do to it. */
module ScreenLists {
  import opened Basics
  import opened Paging

  /** `list` with the first entry of the same hash replaced by `newEntry`; unchanged if there is none. */
  function UpdatedIn<T>(list: seq<Entry<T>>, newEntry: Entry<T>): (r: seq<Entry<T>>)
    ensures |r| == |list|
  {
    if list == [] then []
    else if list[0].hash == newEntry.hash then [newEntry] + list[1..]
    else [list[0]] + UpdatedIn(list[1..], newEntry)
  }

  /** `list` without the entries of one hash. */
  function RemovedFrom<T>(list: seq<Entry<T>>, hash: Hash): (r: seq<Entry<T>>)
    ensures |r| <= |list|
  {
    if list == [] then []
    else if list[0].hash == hash then RemovedFrom(list[1..], hash)
    else [list[0]] + RemovedFrom(list[1..], hash)
  }

  lemma HashesOfTail<T>(list: seq<Entry<T>>)
    requires list != []
    ensures Hashes(list) == [list[0].hash] + Hashes(list[1..])
  {
  }

  /** An update keeps the order and the identity of every item. */
  lemma {:induction false} UpdateKeepsHashes<T>(list: seq<Entry<T>>, newEntry: Entry<T>)
    ensures Hashes(UpdatedIn(list, newEntry)) == Hashes(list)
  {
    if list != [] {
      HashesOfTail(list);
      HashesOfTail(UpdatedIn(list, newEntry));
      if list[0].hash != newEntry.hash {
        UpdateKeepsHashes(list[1..], newEntry);
      }
    }
  }

  /** In a list without repeats, an update shows the new value in place of the old and changes no other item. */
  lemma {:induction false} UpdateShowsNewValue<T>(list: seq<Entry<T>>, newEntry: Entry<T>, i: nat)
    requires NoRepeats(Hashes(list)) && i < |list|
    ensures UpdatedIn(list, newEntry)[i] == if list[i].hash == newEntry.hash then newEntry else list[i]
  {
    var hashes := Hashes(list);
    if list[0].hash == newEntry.hash {
      assert hashes[0] == list[0].hash && hashes[i] == list[i].hash;
    } else if i > 0 {
      HashesOfTail(list);
      assert hashes[1..] == Hashes(list[1..]);
      assert NoRepeats(hashes[1..]);
      UpdateShowsNewValue(list[1..], newEntry, i - 1);
    }
  }

  /** A removal drops the items of that hash and nothing else. */
  lemma {:induction false} RemoveKeepsTheRest<T>(list: seq<Entry<T>>, hash: Hash)
    ensures forall h :: h in Hashes(RemovedFrom(list, hash)) <==> (h in Hashes(list) && h != hash)
  {
    if list != [] {
      RemoveKeepsTheRest(list[1..], hash);
      HashesOfTail(list);
      if list[0].hash != hash {
        HashesOfTail(RemovedFrom(list, hash));
      }
    }
  }

  /** A removal keeps a descending list descending. */
  lemma {:induction false} RemoveKeepsOrder<T>(rank: Ranking, list: seq<Entry<T>>, hash: Hash)
    requires IsDescending(rank, Hashes(list))
    ensures IsDescending(rank, Hashes(RemovedFrom(list, hash)))
  {
    if list != [] {
      var hashes, tail := Hashes(list), list[1..];
      HashesOfTail(list);
      assert IsDescending(rank, hashes[1..]);
      assert hashes[1..] == Hashes(tail);
      RemoveKeepsOrder(rank, tail, hash);
      if list[0].hash != hash {
        RemoveKeepsTheRest(tail, hash);
        HashesOfTail(RemovedFrom(list, hash));
        PrependDescending(rank, list[0].hash, Hashes(tail), Hashes(RemovedFrom(tail, hash)));
      }
    }
  }

  lemma PrependDescending(rank: Ranking, h: Hash, tail: seq<Hash>, kept: seq<Hash>)
    requires IsDescending(rank, [h] + tail) && IsDescending(rank, kept)
    requires forall x :: x in kept ==> x in tail
    ensures IsDescending(rank, [h] + kept)
  {
    forall j | 0 <= j < |kept| ensures Less(rank(kept[j]), rank(h)) {
      assert kept[j] in tail;
      var i :| 0 <= i < |tail| && tail[i] == kept[j];
      assert ([h] + tail)[0] == h && ([h] + tail)[i + 1] == kept[j];
    }
  }

  lemma {:induction false} UpdatedAt<T>(list: seq<Entry<T>>, newEntry: Entry<T>, i: nat)
    requires i <= |list| && forall j :: 0 <= j < i ==> list[j].hash != newEntry.hash
    ensures i == |list| ==> UpdatedIn(list, newEntry) == list
    ensures i < |list| && list[i].hash == newEntry.hash ==> UpdatedIn(list, newEntry) == list[i := newEntry]
  {
    if i > 0 {
      UpdatedAt(list[1..], newEntry, i - 1);
    }
  }

  /** Writes the slot of the squeak with the same hash, found by a scan from the left. */
  method UpdateSqueakInArray<T>(squeakArr: seq<Entry<T>>, newSqueak: Entry<T>) returns (r: seq<Entry<T>>)
    ensures r == UpdatedIn(squeakArr, newSqueak)
  {
    r := squeakArr;
    var currentIndex := 0;
    while currentIndex < |squeakArr| && squeakArr[currentIndex].hash != newSqueak.hash
      invariant 0 <= currentIndex <= |squeakArr|
      invariant forall j :: 0 <= j < currentIndex ==> squeakArr[j].hash != newSqueak.hash
    {
      currentIndex := currentIndex + 1;
    }
    if currentIndex < |squeakArr| {
      r := squeakArr[currentIndex := newSqueak];
    }
    UpdatedAt(squeakArr, newSqueak, currentIndex);
  }

  // ----- Appending a page -----

  /** A list and its loading flag. While the flag is set the page offers no button that asks for more. */
  datatype Screen<T> = Screen(list: seq<Entry<T>>, isLoading: bool)

  /** The page is opened: the list is dropped, whatever is still being fetched, and a request is sent. */
  function Opened<T>(s: Screen<T>): Screen<T> {
    Screen([], true)
  }

  function Pending<T>(s: Screen<T>): Screen<T> {
    s.(isLoading := true)
  }

  function Fulfilled<T>(s: Screen<T>, page: seq<Entry<T>>): Screen<T> {
    Screen(s.list + page, false)
  }

  /** The page begins below the last item of the list. */
  predicate LiesBelow<T>(rank: Ranking, list: seq<Entry<T>>, page: seq<Entry<T>>) {
    list == [] || page == [] || Less(rank(page[0].hash), rank(list[|list| - 1].hash))
  }

  lemma BelowLastIsBelowAll(rank: Ranking, p: seq<Hash>, q: seq<Hash>, i: nat, j: nat)
    requires IsDescending(rank, p) && IsDescending(rank, q)
    requires i < |p| && j < |q| && Less(rank(q[0]), rank(p[|p| - 1]))
    ensures Less(rank(q[j]), rank(p[i]))
  {
    if j > 0 {
      LessTransitive(rank(q[j]), rank(q[0]), rank(p[|p| - 1]));
    }
    if i < |p| - 1 {
      LessTransitive(rank(q[j]), rank(p[|p| - 1]), rank(p[i]));
    }
  }

  /** Appending a sorted page keeps a list strictly descending if and only if the page begins below its last item. */
  lemma AppendDescendsExactlyWhen<T>(rank: Ranking, list: seq<Entry<T>>, page: seq<Entry<T>>)
    requires IsDescending(rank, Hashes(list)) && IsDescending(rank, Hashes(page))
    ensures IsDescending(rank, Hashes(list + page)) <==> LiesBelow(rank, list, page)
  {
    var p, q := Hashes(list), Hashes(page);
    HashesOfSum(list, page);
    if list != [] && page != [] {
      assert (p + q)[|p| - 1] == list[|list| - 1].hash && (p + q)[|p|] == page[0].hash;
      if LiesBelow(rank, list, page) {
        forall i, j | 0 <= i < |p| && 0 <= j < |q| ensures Less(rank(q[j]), rank(p[i])) {
          BelowLastIsBelowAll(rank, p, q, i, j);
        }
      }
    }
  }
}
