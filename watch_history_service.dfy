/** `updateWatchHistory(userUid, videoId)`: record that a user watched a video, by
    refreshing the time of the first history entry for that video or appending a
    new entry, and writing the whole array back to the user document. */
module WatchHistoryService {
  import opened Common
  import opened Store

  /** `currentHistory.findIndex(entry => entry.videoId === videoId)` */
  method FindIndex(history: seq<HistoryEntry>, videoId: VideoId) returns (k: int)
    ensures -1 <= k < |history|
    ensures k == -1 <==> videoId !in Ids(history)
    ensures k != -1 ==> history[k].videoId == videoId && forall j :: 0 <= j < k ==> history[j].videoId != videoId
  {
    k := -1;
    var i := 0;
    while i < |history|
      invariant 0 <= i <= |history|
      invariant forall j :: 0 <= j < i ==> history[j].videoId != videoId
    {
      if history[i].videoId == videoId {
        return i;
      }
      i := i + 1;
    }
  }

  /** The array written back: the first entry for `videoId` gets the new time in its
      `timestamp` field, or a new `{videoId, timestamp}` entry is appended. */
  function Upserted(history: seq<HistoryEntry>, videoId: VideoId, now: Timestamp): seq<HistoryEntry> {
    var k := IndexOf(Ids(history), videoId);
    if k < |history| then history[k := history[k].(timestamp := Some(now))]
    else history + [HistoryEntry(videoId, None, Some(now))]
  }

  /** Rewatching: same length, only the first entry for the video changes, and
      only in its `timestamp`. */
  lemma UpsertExisting(history: seq<HistoryEntry>, videoId: VideoId, now: Timestamp)
    requires videoId in Ids(history)
    ensures var r := Upserted(history, videoId, now);
      && |r| == |history|
      && var k := IndexOf(Ids(history), videoId);
      && r[k] == HistoryEntry(videoId, history[k].watchedAt, Some(now))
      && (forall j :: 0 <= j < |history| && j != k ==> r[j] == history[j])
  {
  }

  /** First watch: the old array with `{videoId, timestamp}` appended; the time is
      not stored in `watchedAt`. */
  lemma UpsertNew(history: seq<HistoryEntry>, videoId: VideoId, now: Timestamp)
    requires videoId !in Ids(history)
    ensures Upserted(history, videoId, now) == history + [HistoryEntry(videoId, None, Some(now))]
  {
  }

  /** Either way, existing entries keep their positions and videos, nothing is
      collapsed, and the video is in the history afterwards. */
  lemma UpsertKeepsPositions(history: seq<HistoryEntry>, videoId: VideoId, now: Timestamp)
    ensures |history| <= |Upserted(history, videoId, now)| <= |history| + 1
    ensures Ids(Upserted(history, videoId, now))[..|history|] == Ids(history)
    ensures videoId in Ids(Upserted(history, videoId, now))
  {
    var r := Upserted(history, videoId, now);
    var k := IndexOf(Ids(history), videoId);
    if k < |history| {
      assert Ids(r)[k] == videoId;
    } else {
      assert Ids(r)[|history|] == videoId;
    }
  }

  /** Watching the same video twice gives the same list of videos as watching it
      once. */
  lemma UpsertTwiceSameIds(history: seq<HistoryEntry>, videoId: VideoId, t1: Timestamp, t2: Timestamp)
    ensures Ids(Upserted(Upserted(history, videoId, t1), videoId, t2)) == Ids(Upserted(history, videoId, t1))
  {
    var once := Upserted(history, videoId, t1);
    UpsertKeepsPositions(history, videoId, t1);
    var k := IndexOf(Ids(once), videoId);
    assert k < |once|;
    assert Upserted(once, videoId, t2) == once[k := once[k].(timestamp := Some(t2))];
  }

  /** The service. A missing user document writes nothing; otherwise only the
      `watchHistory` field of the user's document is replaced. */
  method UpdateWatchHistory(store: UserStore, userUid: Uid, videoId: VideoId, now: Timestamp)
    modifies store
    ensures userUid !in old(store.users) ==> store.users == old(store.users)
    ensures userUid in old(store.users) ==>
              store.users == old(store.users)[userUid := old(store.users)[userUid].(
                watchHistory := Some(Upserted(HistoryOf(old(store.users)[userUid]), videoId, now)))]
  {
    if userUid !in store.users {
      return;
    }
    var userData := store.users[userUid];
    var currentHistory := HistoryOf(userData);
    ghost var original := currentHistory;
    var existingIndex := FindIndex(currentHistory, videoId);
    FindIndexIsIndexOf(currentHistory, videoId, existingIndex);
    var updatedHistory;
    if existingIndex != -1 {
      currentHistory := currentHistory[existingIndex := currentHistory[existingIndex].(timestamp := Some(now))];
      updatedHistory := currentHistory;
    } else {
      updatedHistory := currentHistory + [HistoryEntry(videoId, None, Some(now))];
    }
    assert updatedHistory == Upserted(original, videoId, now);
    store.users := store.users[userUid := userData.(watchHistory := Some(updatedHistory))];
  }

  /** `findIndex` and the first-occurrence index agree. */
  lemma FindIndexIsIndexOf(history: seq<HistoryEntry>, videoId: VideoId, k: int)
    requires -1 <= k < |history|
    requires k == -1 <==> videoId !in Ids(history)
    requires k != -1 ==> history[k].videoId == videoId && forall j :: 0 <= j < k ==> history[j].videoId != videoId
    ensures k == -1 ==> IndexOf(Ids(history), videoId) == |history|
    ensures k != -1 ==> IndexOf(Ids(history), videoId) == k
  {
    var m := IndexOf(Ids(history), videoId);
    if k != -1 {
      assert Ids(history)[k] == videoId;
      assert m <= k;
      assert history[m].videoId == videoId;
    }
  }
}
