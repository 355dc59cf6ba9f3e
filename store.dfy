/** The documents of the hosted database that the modelled code reads and writes,
    and the one collection it writes to (`users`), as a mutable object. */
module Store {
  import opened Common

  type VideoId = string
  type Uid = string

  /** A `videos` document, reduced to the fields the modelled code reads. */
  datatype Video = Video(videoId: VideoId, title: string, subCategory: Option<string>)

  /** A stored time value: a Firestore Timestamp (seconds and nanoseconds), or the
      ISO date string that the watch page writes into `watchedAt`. Two values are
      equal only when they are the same value, as the store compares them. */
  datatype Timestamp = Timestamp(seconds: int, nanoseconds: nat) | IsoString(text: string)

  /** One element of a user's `watchHistory` array. The history service writes the
      time into `timestamp`, the history page sorts on `watchedAt`. */
  datatype HistoryEntry = HistoryEntry(videoId: VideoId, watchedAt: Option<Timestamp>, timestamp: Option<Timestamp>)

  /** One `{videoId, score}` element of a `similar` list. */
  datatype Edge = Edge(videoId: VideoId, score: real)

  /** A `recommendations/{videoId}` document. */
  datatype RecDoc = RecDoc(videoId: VideoId, similar: Option<seq<Edge>>)

  /** A `users/{uid}` document: the fields the modelled code names, and every
      other field (e-mail, name, ...) kept opaque in `others`. */
  datatype UserDoc = UserDoc(
    watchHistory: Option<seq<HistoryEntry>>,
    preferences: Option<seq<string>>,
    createdAt: Option<Timestamp>,
    updatedAt: Option<Timestamp>,
    others: map<string, string>)

  function Ids(h: seq<HistoryEntry>): (r: seq<VideoId>)
    ensures |r| == |h|
    ensures forall i :: 0 <= i < |h| ==> r[i] == h[i].videoId
  {
    if h == [] then [] else [h[0].videoId] + Ids(h[1..])
  }

  /** The similar list stored for `id`: a missing record and a record without a
      `similar` field both read as the empty list (`recSnap.data().similar || []`). */
  function SimilarOf(recs: map<VideoId, RecDoc>, id: VideoId): (r: seq<Edge>)
    ensures id !in recs ==> r == []
    ensures id in recs && recs[id].similar.Some? ==> r == recs[id].similar.value
    ensures id in recs && recs[id].similar == None ==> r == []
  {
    if id in recs then recs[id].similar.GetOr([]) else []
  }

  /** Look every id up in the `videos` collection, keep the order, and drop the ids
      that have no document. */
  function Resolve(videos: map<VideoId, Video>, ids: seq<VideoId>): (r: seq<Video>)
    ensures |r| <= |ids|
    ensures forall v :: v in r ==> exists k :: 0 <= k < |ids| && ids[k] in videos && videos[ids[k]] == v
  {
    if ids == [] then []
    else
      var last := ids[|ids| - 1];
      var front := Resolve(videos, ids[..|ids| - 1]);
      if last in videos then front + [videos[last]] else front
  }

  /** Resolving a concatenation resolves the parts one after the other: the result
      keeps the order of the ids. */
  lemma {:induction false} ResolveAppend(videos: map<VideoId, Video>, a: seq<VideoId>, b: seq<VideoId>)
    ensures Resolve(videos, a + b) == Resolve(videos, a) + Resolve(videos, b)
    decreases |b|
  {
    if b != [] {
      var b' := b[..|b| - 1];
      assert (a + b)[..|a + b| - 1] == a + b';
      ResolveAppend(videos, a, b');
    } else {
      assert a + b == a;
    }
  }

  /** Nothing is dropped exactly when every id has a document, and then the i-th
      result is the document of the i-th id. */
  lemma {:induction false} ResolveAllPresent(videos: map<VideoId, Video>, ids: seq<VideoId>)
    ensures |Resolve(videos, ids)| == |ids| <==> forall k :: 0 <= k < |ids| ==> ids[k] in videos
    ensures (forall k :: 0 <= k < |ids| ==> ids[k] in videos) ==>
              forall k :: 0 <= k < |ids| ==> Resolve(videos, ids)[k] == videos[ids[k]]
  {
    if ids != [] {
      var front := ids[..|ids| - 1];
      ResolveAllPresent(videos, front);
      assert forall k :: 0 <= k < |front| ==> front[k] == ids[k];
    }
  }

  /** An id that has a document is not dropped. */
  lemma {:induction false} ResolveKeeps(videos: map<VideoId, Video>, ids: seq<VideoId>, id: VideoId)
    requires id in ids && id in videos
    ensures videos[id] in Resolve(videos, ids)
  {
    var front := ids[..|ids| - 1];
    if ids[|ids| - 1] != id {
      assert id in front by {
        var k :| 0 <= k < |ids| && ids[k] == id;
        assert front[k] == id;
      }
      ResolveKeeps(videos, front, id);
    }
  }

  /** `userData.watchHistory || []` */
  function HistoryOf(d: UserDoc): seq<HistoryEntry> {
    d.watchHistory.GetOr([])
  }

  /** `userData.preferences || []` */
  function PreferencesOf(d: UserDoc): seq<string> {
    d.preferences.GetOr([])
  }

  /** The `users` collection, the only one the modelled code writes to. */
  class UserStore {
    var users: map<Uid, UserDoc>

    constructor (users: map<Uid, UserDoc>)
      ensures this.users == users
    {
      this.users := users;
    }
  }
}
