/** The part of the web page's state that holds lists of squeaks, and its reducers. */
module SqueaksSlices {
  import opened Basics
  import opened Paging
  import opened ScreenLists

  /** The five lists and the current squeak. `T` is everything a display entry holds besides its hash. */
  class SqueaksSlice<T(==)> {
    var currentSqueak: Option<Entry<T>>
    var timelineIsLoading: bool
    var timelineSqueaks: seq<Entry<T>>
    var searchSqueaks: seq<Entry<T>>
    var ancestorSqueaks: seq<Entry<T>>
    var replySqueaks: seq<Entry<T>>
    var profileSqueaks: seq<Entry<T>>

    constructor ()
      ensures currentSqueak == None && !timelineIsLoading
      ensures timelineSqueaks == searchSqueaks == ancestorSqueaks == replySqueaks == profileSqueaks == []
    {
      currentSqueak, timelineIsLoading := None, false;
      timelineSqueaks, searchSqueaks, ancestorSqueaks, replySqueaks, profileSqueaks := [], [], [], [], [];
    }

    /** The item from which the next page of the timeline is asked. */
    method SelectLastTimelineSqueak() returns (last: Option<Entry<T>>)
      ensures last == if timelineSqueaks == [] then None else Some(timelineSqueaks[|timelineSqueaks| - 1])
      ensures last.Some? ==> forall rank: Ranking, e ::
                IsDescending(rank, Hashes(timelineSqueaks)) && e in timelineSqueaks && e.hash != last.value.hash ==>
                  Less(rank(last.value.hash), rank(e.hash))
    {
      if |timelineSqueaks| == 0 {
        return None;
      }
      last := Some(timelineSqueaks[|timelineSqueaks| - 1]);
      forall rank: Ranking, e |
        IsDescending(rank, Hashes(timelineSqueaks)) && e in timelineSqueaks && e.hash != last.value.hash
        ensures Less(rank(last.value.hash), rank(e.hash))
      {
        var i :| 0 <= i < |timelineSqueaks| && timelineSqueaks[i] == e;
        var hashes := Hashes(timelineSqueaks);
        assert hashes[i] == e.hash && hashes[|hashes| - 1] == last.value.hash;
      }
    }

    function Timeline(): Screen<T>
      reads this
    {
      Screen(timelineSqueaks, timelineIsLoading)
    }

    /** The next request starts from the top, whatever is still being fetched. */
    method ClearTimeline()
      modifies `timelineSqueaks
      ensures timelineSqueaks == []
      ensures forall rank: Ranking, first :: NextCursor(rank, timelineSqueaks, first) == first
    {
      timelineSqueaks := [];
    }

    method FetchTimelinePending()
      modifies `timelineIsLoading
      ensures Timeline() == Pending(old(Timeline()))
    {
      timelineIsLoading := true;
    }

    /** The timeline page is mounted: it clears its list and asks for the first page, whatever is still being fetched. */
    method OpenTimeline()
      modifies `timelineSqueaks, `timelineIsLoading
      ensures Timeline() == Opened(old(Timeline()))
      ensures forall rank: Ranking, first :: NextCursor(rank, timelineSqueaks, first) == first
    {
      ClearTimeline();
      FetchTimelinePending();
    }

    /** The page is appended as it comes: a sorted list stays sorted exactly if the page begins below its last item. */
    method FetchTimelineFulfilled(page: seq<Entry<T>>)
      modifies `timelineSqueaks, `timelineIsLoading
      ensures Timeline() == Fulfilled(old(Timeline()), page)
      ensures forall rank: Ranking :: IsDescending(rank, Hashes(old(timelineSqueaks))) && IsDescending(rank, Hashes(page)) ==>
                (IsDescending(rank, Hashes(timelineSqueaks)) <==> LiesBelow(rank, old(timelineSqueaks), page))
    {
      forall rank: Ranking | IsDescending(rank, Hashes(timelineSqueaks)) && IsDescending(rank, Hashes(page))
        ensures IsDescending(rank, Hashes(timelineSqueaks + page)) <==> LiesBelow(rank, timelineSqueaks, page)
      {
        AppendDescendsExactlyWhen(rank, timelineSqueaks, page);
      }
      timelineSqueaks := timelineSqueaks + page;
      timelineIsLoading := false;
    }

    /** A squeak was liked, unliked or bought: every list shows it as it is now. */
    method SqueakChanged(newSqueak: Entry<T>)
      modifies this
      ensures currentSqueak == (if old(currentSqueak).Some? && old(currentSqueak).value.hash == newSqueak.hash
                                then Some(newSqueak) else old(currentSqueak))
      ensures timelineSqueaks == UpdatedIn(old(timelineSqueaks), newSqueak)
      ensures searchSqueaks == UpdatedIn(old(searchSqueaks), newSqueak)
      ensures ancestorSqueaks == UpdatedIn(old(ancestorSqueaks), newSqueak)
      ensures replySqueaks == UpdatedIn(old(replySqueaks), newSqueak)
      ensures profileSqueaks == UpdatedIn(old(profileSqueaks), newSqueak)
      ensures timelineIsLoading == old(timelineIsLoading)
    {
      if currentSqueak.Some? && currentSqueak.value.hash == newSqueak.hash {
        currentSqueak := Some(newSqueak);
      }
      timelineSqueaks := UpdateSqueakInArray(timelineSqueaks, newSqueak);
      searchSqueaks := UpdateSqueakInArray(searchSqueaks, newSqueak);
      ancestorSqueaks := UpdateSqueakInArray(ancestorSqueaks, newSqueak);
      replySqueaks := UpdateSqueakInArray(replySqueaks, newSqueak);
      profileSqueaks := UpdateSqueakInArray(profileSqueaks, newSqueak);
    }

    /** The node has deleted a squeak: no list shows it any more. */
    method SqueakDeleted(deletedSqueakHash: Hash)
      modifies this
      ensures currentSqueak == (if old(currentSqueak).Some? && old(currentSqueak).value.hash == deletedSqueakHash
                                then None else old(currentSqueak))
      ensures timelineSqueaks == RemovedFrom(old(timelineSqueaks), deletedSqueakHash)
      ensures searchSqueaks == RemovedFrom(old(searchSqueaks), deletedSqueakHash)
      ensures ancestorSqueaks == RemovedFrom(old(ancestorSqueaks), deletedSqueakHash)
      ensures replySqueaks == RemovedFrom(old(replySqueaks), deletedSqueakHash)
      ensures profileSqueaks == RemovedFrom(old(profileSqueaks), deletedSqueakHash)
      ensures timelineIsLoading == old(timelineIsLoading)
    {
      if currentSqueak.Some? && currentSqueak.value.hash == deletedSqueakHash {
        currentSqueak := None;
      }
      timelineSqueaks := RemovedFrom(timelineSqueaks, deletedSqueakHash);
      searchSqueaks := RemovedFrom(searchSqueaks, deletedSqueakHash);
      ancestorSqueaks := RemovedFrom(ancestorSqueaks, deletedSqueakHash);
      replySqueaks := RemovedFrom(replySqueaks, deletedSqueakHash);
      profileSqueaks := RemovedFrom(profileSqueaks, deletedSqueakHash);
    }
  }
}
