/** `GET /api/home`: the home feed of the signed-in user, chosen by tiers —
    personalized from the watch history, then the preferred categories, then any
    twelve videos. */
module HomeRoute {
  import opened Common
  import opened Store
  import opened Aggregation

  /** `limit(12)` on both queries of the route. */
  const RouteLimit: nat := 12

  predicate InPreferences(prefs: seq<string>, v: Video) {
    v.subCategory.Some? && v.subCategory.value in prefs
  }

  /** The videos whose subcategory is one of the preferences, in catalog order. */
  function PreferenceMatches(catalog: seq<Video>, prefs: seq<string>): (r: seq<Video>)
    ensures forall k :: 0 <= k < |r| ==> r[k] in catalog && InPreferences(prefs, r[k])
    ensures forall v :: v in catalog && InPreferences(prefs, v) ==> v in r
    ensures IsSubsequence(r, catalog)
  {
    FilterIsSubsequence(catalog, (v: Video) => InPreferences(prefs, v));
    Filter(catalog, (v: Video) => InPreferences(prefs, v))
  }

  /** `query(videos, where("subCategory", "in", preferences), limit(12))`, the
      collection being listed in the store's order: the first twelve videos whose
      subcategory is one of the preferences. */
  function PreferenceQuery(catalog: seq<Video>, prefs: seq<string>): (r: seq<Video>)
    ensures |r| == if |PreferenceMatches(catalog, prefs)| < RouteLimit then |PreferenceMatches(catalog, prefs)| else RouteLimit
    ensures r == PreferenceMatches(catalog, prefs)[..|r|]
    ensures forall k :: 0 <= k < |r| ==> r[k] in catalog && InPreferences(prefs, r[k])
    ensures |r| < RouteLimit ==> forall v :: v in catalog && InPreferences(prefs, v) ==> v in r
  {
    Take(PreferenceMatches(catalog, prefs), RouteLimit)
  }

  /** `getHomePageVideos`. The user document is read from `users`; `recs` and
      `videos` are the `recommendations` and `videos` collections by id, and
      `catalog` the `videos` collection in query order. */
  method GetHomePageVideos(auth: Option<Uid>, users: map<Uid, UserDoc>, recs: map<VideoId, RecDoc>,
                           videos: map<VideoId, Video>, catalog: seq<Video>) returns (r: seq<Video>)
    // signed out, or no user document
    ensures auth == None || auth.value !in users ==> r == []
    // personalized: returned even when it is empty; watched videos are not removed
    ensures auth.Some? && auth.value in users && |HistoryOf(users[auth.value])| > 0 ==>
              r == Recommend(recs, videos, HistoryOf(users[auth.value]))
    // preferences, when the query finds something
    ensures auth.Some? && auth.value in users && |HistoryOf(users[auth.value])| == 0 &&
            |PreferencesOf(users[auth.value])| > 0 &&
            PreferenceQuery(catalog, PreferencesOf(users[auth.value])) != [] ==>
              r == PreferenceQuery(catalog, PreferencesOf(users[auth.value]))
    // otherwise the first twelve videos
    ensures auth.Some? && auth.value in users && |HistoryOf(users[auth.value])| == 0 &&
            (|PreferencesOf(users[auth.value])| == 0 || PreferenceQuery(catalog, PreferencesOf(users[auth.value])) == []) ==>
              r == Take(catalog, RouteLimit)
    ensures |r| <= RouteLimit
  {
    if auth == None {
      return [];
    }
    if auth.value !in users {
      return [];
    }
    var userData := users[auth.value];
    var history := HistoryOf(userData);
    var preferences := PreferencesOf(userData);

    if |history| > 0 {
      var allRecIds := AccumulateScores(recs, history);
      var sortedRecs := RankedIds(allRecIds, MaxRecommendations);
      r := Resolve(videos, sortedRecs);
      return;
    }

    if |preferences| > 0 {
      var snap := PreferenceQuery(catalog, preferences);
      if snap != [] {
        return snap;
      }
    }

    r := Take(catalog, RouteLimit);
  }

  /** Already-watched videos are not filtered out: a watched video that ranks among
      the candidates and has a document is recommended. */
  lemma WatchedVideoCanBeRecommended(recs: map<VideoId, RecDoc>, videos: map<VideoId, Video>,
                                     history: seq<HistoryEntry>, i: nat)
    requires i < |history|
    requires history[i].videoId in RankedIds(Merge(recs, history), MaxRecommendations)
    requires history[i].videoId in videos
    ensures videos[history[i].videoId] in Recommend(recs, videos, history)
  {
    ResolveKeeps(videos, RankedIds(Merge(recs, history), MaxRecommendations), history[i].videoId);
  }

  /** When no watched video has a recommendations record the personalized tier is
      empty, and that empty list is the answer: the other tiers are not consulted. */
  lemma EmptyPersonalizedIsFinal(recs: map<VideoId, RecDoc>, videos: map<VideoId, Video>, history: seq<HistoryEntry>)
    requires forall k :: 0 <= k < |history| ==> history[k].videoId !in recs
    ensures Recommend(recs, videos, history) == []
  {
    MergeWithoutRecordsIsEmpty(recs, history);
  }
}
