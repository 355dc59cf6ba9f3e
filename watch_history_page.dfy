/** The watch-history page (`WatchHistoryPage` component): load the user's history
    newest first and resolve it to videos, show each video once, and delete a video
    from the history. */
module WatchHistory {
  import opened Common
  import opened Store
  import StableSort

  /** `entry.watchedAt?.seconds ?? 0`: an absent time, or a string one, reads as 0. */
  function WatchedSeconds(e: HistoryEntry): real {
    if e.watchedAt.Some? && e.watchedAt.value.Timestamp? then e.watchedAt.value.seconds as real else 0.0
  }

  /** `history.sort((a, b) => seconds(b) - seconds(a))`: newest first, a permutation
      of the stored history, and stable: entries with the same seconds (in particular
      every entry without a Timestamp, all read as 0) keep their stored order. */
  function SortedHistory(history: seq<HistoryEntry>): (r: seq<HistoryEntry>)
    ensures multiset(r) == multiset(history)
    ensures forall i, j :: 0 <= i < j < |r| ==> WatchedSeconds(r[i]) >= WatchedSeconds(r[j])
    ensures forall k :: StableSort.WithKey(r, WatchedSeconds, k) == StableSort.WithKey(history, WatchedSeconds, k)
  {
    StableSort.SortDescending(history, WatchedSeconds);
    assert forall k :: StableSort.WithKey(StableSort.SortDesc(history, WatchedSeconds), WatchedSeconds, k)
                    == StableSort.WithKey(history, WatchedSeconds, k) by {
      forall k ensures StableSort.WithKey(StableSort.SortDesc(history, WatchedSeconds), WatchedSeconds, k)
                    == StableSort.WithKey(history, WatchedSeconds, k) {
        StableSort.SortKeepsEqualKeyOrder(history, WatchedSeconds, k);
      }
    }
    StableSort.SortDesc(history, WatchedSeconds)
  }

  function VideoIds(s: seq<Video>): (r: seq<VideoId>)
    ensures |r| == |s|
    ensures forall i :: 0 <= i < |s| ==> r[i] == s[i].videoId
  {
    if s == [] then [] else [s[0].videoId] + VideoIds(s[1..])
  }

  /** `history.find(entry => entry.videoId === id)`, when there is one: the first
      entry with that id. */
  function FirstEntry(history: seq<HistoryEntry>, id: VideoId): (e: HistoryEntry)
    requires id in Ids(history)
    ensures e in history && e.videoId == id
    ensures exists k :: 0 <= k < |history| && e == history[k] &&
                        forall j :: 0 <= j < k ==> history[j].videoId != id
  {
    history[IndexOf(Ids(history), id)]
  }

  /** Firestore's `arrayRemove(e)`: every element equal to `e` is removed. */
  function ArrayRemove(history: seq<HistoryEntry>, e: HistoryEntry): (r: seq<HistoryEntry>)
    ensures e !in r
    ensures forall x :: x in history && x != e ==> x in r
    ensures IsSubsequence(r, history)
  {
    FilterIsSubsequence(history, (x: HistoryEntry) => x != e);
    Filter(history, (x: HistoryEntry) => x != e)
  }

  /** `prev.filter(v => v.videoId !== id)`: the other videos, in their order. */
  function WithoutVideo(list: seq<Video>, id: VideoId): (r: seq<Video>)
    ensures id !in VideoIds(r)
    ensures forall v :: v in list && v.videoId != id ==> v in r
    ensures IsSubsequence(r, list)
  {
    FilterIsSubsequence(list, (v: Video) => v.videoId != id);
    Filter(list, (v: Video) => v.videoId != id)
  }

  /** The video at position `i` is the first one with its id: `findIndex` on its id
      gives back `i`, as `IsFirstIsFindIndex` shows. */
  predicate IsFirst(s: seq<Video>, i: nat)
    requires i < |s|
  {
    forall j :: 0 <= j < i ==> s[j].videoId != s[i].videoId
  }

  lemma IsFirstIsFindIndex(s: seq<Video>, i: nat)
    requires i < |s|
    ensures IsFirst(s, i) <==> IndexOf(VideoIds(s), s[i].videoId) == i
  {
    var ids := VideoIds(s);
    if IsFirst(s, i) {
      assert forall j :: 0 <= j < i ==> ids[j] != ids[i];
    }
  }

  /** Elements `i..` of `uniqueVideos`: those that are the first video with their id. */
  function KeepFirsts(s: seq<Video>, i: nat): seq<Video>
    requires i <= |s|
    decreases |s| - i
  {
    if i == |s| then []
    else (if IsFirst(s, i) then [s[i]] else []) + KeepFirsts(s, i + 1)
  }

  /** `watchHistory.filter((video, index, self) => index === self.findIndex(v => v.videoId === video.videoId))` */
  function UniqueVideos(s: seq<Video>): seq<Video> {
    KeepFirsts(s, 0)
  }

  /** Every element kept from position `i` on is the first video with its id, at
      a position `j` from `i` on. */
  lemma {:induction false} KeepFirstsOrigin(s: seq<Video>, i: nat, k: nat) returns (j: nat)
    requires i <= |s| && k < |KeepFirsts(s, i)|
    ensures i <= j < |s| && KeepFirsts(s, i)[k] == s[j] && IsFirst(s, j)
    decreases |s| - i
  {
    var rest := KeepFirsts(s, i + 1);
    if IsFirst(s, i) {
      assert KeepFirsts(s, i) == [s[i]] + rest;
      if k == 0 {
        j := i;
      } else {
        j := KeepFirstsOrigin(s, i + 1, k - 1);
        assert ([s[i]] + rest)[k] == rest[k - 1];
      }
    } else {
      assert KeepFirsts(s, i) == rest;
      j := KeepFirstsOrigin(s, i + 1, k);
    }
  }

  /** Every first occurrence at position `i` or later is kept. */
  lemma {:induction false} KeepFirstsComplete(s: seq<Video>, i: nat, j: nat)
    requires i <= j < |s| && IsFirst(s, j)
    ensures s[j] in KeepFirsts(s, i)
    decreases j - i
  {
    var rest := KeepFirsts(s, i + 1);
    if j == i {
      assert KeepFirsts(s, i) == [s[i]] + rest;
    } else {
      KeepFirstsComplete(s, i + 1, j);
      if IsFirst(s, i) {
        assert KeepFirsts(s, i) == [s[i]] + rest;
      } else {
        assert KeepFirsts(s, i) == rest;
      }
    }
  }

  lemma {:induction false} KeepFirstsSubsequence(s: seq<Video>, i: nat)
    requires i <= |s|
    ensures IsSubsequence(KeepFirsts(s, i), s[i..])
    decreases |s| - i
  {
    if i < |s| {
      var rest := KeepFirsts(s, i + 1);
      KeepFirstsSubsequence(s, i + 1);
      assert s[i..][1..] == s[i + 1..];
      if IsFirst(s, i) {
        assert KeepFirsts(s, i) == [s[i]] + rest;
        assert ([s[i]] + rest)[1..] == rest;
      } else {
        assert KeepFirsts(s, i) == rest;
        SubsequenceOfTail(rest, s[i..]);
      }
    }
  }

  /** No two kept elements share an id. */
  lemma {:induction false} KeepFirstsNoDup(s: seq<Video>, i: nat)
    requires i <= |s|
    ensures NoDup(VideoIds(KeepFirsts(s, i)))
    decreases |s| - i
  {
    if i < |s| {
      var rest := KeepFirsts(s, i + 1);
      KeepFirstsNoDup(s, i + 1);
      if IsFirst(s, i) {
        assert KeepFirsts(s, i) == [s[i]] + rest;
        NotKeptLater(s, i);
        NoDupCons(s[i], rest);
      } else {
        assert KeepFirsts(s, i) == rest;
      }
    }
  }

  /** A video's id is not among the ids kept after its position. */
  lemma NotKeptLater(s: seq<Video>, i: nat)
    requires i < |s|
    ensures s[i].videoId !in VideoIds(KeepFirsts(s, i + 1))
  {
    var rest := KeepFirsts(s, i + 1);
    forall k | 0 <= k < |rest| ensures rest[k].videoId != s[i].videoId {
      var j := KeepFirstsOrigin(s, i + 1, k);
    }
  }

  lemma NoDupCons(v: Video, rest: seq<Video>)
    requires NoDup(VideoIds(rest)) && v.videoId !in VideoIds(rest)
    ensures NoDup(VideoIds([v] + rest))
  {
    var r := [v] + rest;
    forall a, b | 0 <= a < b < |r| ensures VideoIds(r)[a] != VideoIds(r)[b] {
      assert VideoIds(r)[b] == VideoIds(rest)[b - 1];
      if a > 0 {
        assert VideoIds(r)[a] == VideoIds(rest)[a - 1];
      }
    }
  }

  /** `uniqueVideos` holds every video id of the list exactly once, as its first
      occurrence, in list order. */
  lemma UniqueVideosFacts(s: seq<Video>)
    ensures NoDup(VideoIds(UniqueVideos(s)))
    ensures forall id :: id in VideoIds(s) ==> s[IndexOf(VideoIds(s), id)] in UniqueVideos(s)
    ensures forall v :: v in UniqueVideos(s) ==> v.videoId in VideoIds(s) && v == s[IndexOf(VideoIds(s), v.videoId)]
    ensures IsSubsequence(UniqueVideos(s), s)
  {
    KeepFirstsNoDup(s, 0);
    KeepFirstsSubsequence(s, 0);
    assert s[0..] == s;
    forall id | id in VideoIds(s) ensures s[IndexOf(VideoIds(s), id)] in UniqueVideos(s) {
      var j := IndexOf(VideoIds(s), id);
      IsFirstIsFindIndex(s, j);
      KeepFirstsComplete(s, 0, j);
    }
    forall v | v in UniqueVideos(s) ensures v.videoId in VideoIds(s) && v == s[IndexOf(VideoIds(s), v.videoId)] {
      var k :| 0 <= k < |UniqueVideos(s)| && UniqueVideos(s)[k] == v;
      var j := KeepFirstsOrigin(s, 0, k);
      IsFirstIsFindIndex(s, j);
      assert VideoIds(s)[j] == v.videoId;
    }
  }

  /** Deleting one entry removes only the entries equal to it: another entry for the
      same video that differs in any field (a time differing only in nanoseconds, or
      a different date string) stays in the stored history. */
  lemma DeleteKeepsOtherEntriesOfVideo(history: seq<HistoryEntry>, id: VideoId, other: HistoryEntry)
    requires id in Ids(history)
    requires other in history && other.videoId == id && other != FirstEntry(history, id)
    ensures other in ArrayRemove(history, FirstEntry(history, id))
    ensures id in Ids(ArrayRemove(history, FirstEntry(history, id)))
  {
    var r := ArrayRemove(history, FirstEntry(history, id));
    var k :| 0 <= k < |r| && r[k] == other;
    assert Ids(r)[k] == id;
  }

  class WatchHistoryPage {
    var user: Option<Uid>
    var watchHistory: seq<Video>
    var loading: bool

    constructor ()
      ensures user == None && watchHistory == [] && loading
    {
      user, watchHistory, loading := None, [], true;
    }

    /** `fetchHistory(uid)` */
    method FetchHistory(uid: Uid, users: map<Uid, UserDoc>, videoDocs: map<VideoId, Video>)
      modifies this`watchHistory, this`loading
      ensures uid !in users ==> watchHistory == []
      ensures uid in users ==> watchHistory == Resolve(videoDocs, Ids(SortedHistory(HistoryOf(users[uid]))))
      ensures !loading
    {
      loading := true;
      if uid !in users {
        watchHistory := [];
        loading := false;
        return;
      }
      var history := SortedHistory(HistoryOf(users[uid]));
      var videos: seq<Video> := [];
      for i := 0 to |history|
        invariant videos == Resolve(videoDocs, Ids(history[..i]))
      {
        assert Ids(history[..i + 1])[..i] == Ids(history[..i]);
        if history[i].videoId in videoDocs {
          videos := videos + [videoDocs[history[i].videoId]];
        }
      }
      assert history[..|history|] == history;
      watchHistory := videos;
      loading := false;
    }

    /** The `onAuthStateChanged` callback. */
    method OnAuthStateChanged(usr: Option<Uid>, users: map<Uid, UserDoc>, videoDocs: map<VideoId, Video>)
      modifies this
      ensures user == usr
      ensures usr == None ==> watchHistory == []
      ensures usr.Some? && usr.value !in users ==> watchHistory == []
      ensures usr.Some? && usr.value in users ==>
                watchHistory == Resolve(videoDocs, Ids(SortedHistory(HistoryOf(users[usr.value]))))
      ensures !loading
    {
      user := usr;
      if usr == None {
        watchHistory := [];
        loading := false;
        return;
      }
      FetchHistory(usr.value, users, videoDocs);
    }

    /** `deleteFromHistory(videoIdToDelete)`: remove the first matching entry's value
      from the stored array, then drop the video from the list shown. */
    method DeleteFromHistory(videoIdToDelete: VideoId, store: UserStore)
      modifies this`watchHistory, store
      ensures user == None || user.value !in old(store.users) ||
              videoIdToDelete !in Ids(HistoryOf(old(store.users)[user.value])) ==>
                store.users == old(store.users) && watchHistory == old(watchHistory)
      ensures user.Some? && user.value in old(store.users) &&
              videoIdToDelete in Ids(HistoryOf(old(store.users)[user.value])) ==>
                var data := old(store.users)[user.value];
                && store.users == old(store.users)[user.value := data.(watchHistory :=
                     Some(ArrayRemove(HistoryOf(data), FirstEntry(HistoryOf(data), videoIdToDelete))))]
                && watchHistory == WithoutVideo(old(watchHistory), videoIdToDelete)
    {
      if user == None {
        return;
      }
      if user.value !in store.users {
        return;
      }
      var data := store.users[user.value];
      var history := HistoryOf(data);
      if videoIdToDelete !in Ids(history) {
        return;
      }
      var entryToRemove := FirstEntry(history, videoIdToDelete);
      store.users := store.users[user.value := data.(watchHistory := Some(ArrayRemove(history, entryToRemove)))];
      watchHistory := WithoutVideo(watchHistory, videoIdToDelete);
    }
  }
}
