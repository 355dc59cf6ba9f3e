/** The home page (`HomePage` component): the feed it shows after loading, searching
    and toggling between the initial feed and every video. Its initial load repeats
    the personalized tier of the home route but has its own preference and
    fallback tiers. */
module HomeFeed {
  import opened Common
  import opened Store
  import opened Aggregation

  /** `limit(24)` of the fallback queries of the page. */
  const FallbackLimit: nat := 24

  /** `"Recommended" | "Trending" | "Fallback" | "Search" | ""` */
  datatype VideoType = Recommended | Trending | Fallback | Search | NoType

  /** What the page shows: the flat list, the per-category lists and the label. */
  datatype Feed = Feed(videos: seq<Video>, byCategory: map<string, seq<Video>>, videoType: VideoType)

  /** `query(videos, where("subCategory", "==", cat))`: every video of the category,
      in store order, without a limit. */
  function CategoryQuery(catalog: seq<Video>, cat: string): (r: seq<Video>)
    ensures forall k :: 0 <= k < |r| ==> r[k] in catalog && r[k].subCategory == Some(cat)
    ensures forall v :: v in catalog && v.subCategory == Some(cat) ==> v in r
    ensures IsSubsequence(r, catalog)
  {
    FilterIsSubsequence(catalog, (v: Video) => v.subCategory == Some(cat));
    Filter(catalog, (v: Video) => v.subCategory == Some(cat))
  }

  /** The `videosByCat` object after its loop: one entry per preference. */
  function CategoryMap(catalog: seq<Video>, prefs: seq<string>): map<string, seq<Video>> {
    map cat | cat in prefs :: CategoryQuery(catalog, cat)
  }

  /** The loop of the preference tier that fills `videosByCat`, one query per
      preference (a repeated preference overwrites its own entry). */
  method VideosByCategory(catalog: seq<Video>, preferences: seq<string>) returns (videosByCat: map<string, seq<Video>>)
    ensures videosByCat == CategoryMap(catalog, preferences)
  {
    videosByCat := map[];
    for i := 0 to |preferences|
      invariant forall cat :: cat in videosByCat <==> cat in preferences[..i]
      invariant forall cat :: cat in videosByCat ==> videosByCat[cat] == CategoryQuery(catalog, cat)
    {
      assert preferences[..i + 1] == preferences[..i] + [preferences[i]];
      var cat := preferences[i];
      videosByCat := videosByCat[cat := CategoryQuery(catalog, cat)];
    }
    assert preferences[..|preferences|] == preferences;
    assert videosByCat.Keys == CategoryMap(catalog, preferences).Keys;
  }

  /** `loadInitialVideos`, as a function of the feed shown before it ran. */
  function InitialFeed(auth: Option<Uid>, users: map<Uid, UserDoc>, recs: map<VideoId, RecDoc>,
                       videos: map<VideoId, Video>, catalog: seq<Video>, before: Feed): Feed
  {
    if auth == None then Feed(Take(catalog, FallbackLimit), map[], Fallback)
    else if auth.value !in users then before
    else
      var history := HistoryOf(users[auth.value]);
      var preferences := PreferencesOf(users[auth.value]);
      if |history| > 0 then Feed(Recommend(recs, videos, history), map[], Recommended)
      else if |preferences| > 0 then Feed([], CategoryMap(catalog, preferences), Trending)
      else Feed(Take(catalog, FallbackLimit), map[], Fallback)
  }

  /** The search predicate: the lower-cased title, or the lower-cased subcategory
      when there is one, contains the lower-cased query. */
  predicate Matches(v: Video, query: string) {
    Includes(Lower(v.title), Lower(query)) ||
    (v.subCategory.Some? && Includes(Lower(v.subCategory.value), Lower(query)))
  }

  /** `allVideos.filter(...)` of `performSearch`. */
  function SearchResults(catalog: seq<Video>, query: string): (r: seq<Video>)
    ensures forall k :: 0 <= k < |r| ==> r[k] in catalog && Matches(r[k], query)
    ensures forall v :: v in catalog && Matches(v, query) ==> v in r
    ensures IsSubsequence(r, catalog)
  {
    FilterIsSubsequence(catalog, (v: Video) => Matches(v, query));
    Filter(catalog, (v: Video) => Matches(v, query))
  }

  class HomePage {
    var videos: seq<Video>
    var videosByCategory: map<string, seq<Video>>
    var videoType: VideoType
    var searchQuery: string
    var showAllVideos: bool
    var loading: bool

    function Shown(): Feed
      reads this
    {
      Feed(videos, videosByCategory, videoType)
    }

    constructor ()
      ensures Shown() == Feed([], map[], NoType)
      ensures searchQuery == "" && !showAllVideos && loading
    {
      videos, videosByCategory, videoType := [], map[], NoType;
      searchQuery, showAllVideos, loading := "", false, true;
    }

    method LoadInitialVideos(auth: Option<Uid>, users: map<Uid, UserDoc>, recs: map<VideoId, RecDoc>,
                             videoDocs: map<VideoId, Video>, catalog: seq<Video>)
      modifies this
      ensures Shown() == InitialFeed(auth, users, recs, videoDocs, catalog, old(Shown()))
      ensures searchQuery == old(searchQuery) && showAllVideos == old(showAllVideos)
      ensures !loading
    {
      loading := true;
      if auth == None {
        videos := Take(catalog, FallbackLimit);
        videoType := Fallback;
        videosByCategory := map[];
        loading := false;
        return;
      }
      if auth.value !in users {
        loading := false;
        return;
      }
      var userData := users[auth.value];
      var history := HistoryOf(userData);
      var preferences := PreferencesOf(userData);

      if |history| > 0 {
        var allRecIds := AccumulateScores(recs, history);
        var sortedRecs := RankedIds(allRecIds, MaxRecommendations);
        videos := Resolve(videoDocs, sortedRecs);
        videoType := Recommended;
        videosByCategory := map[];
        loading := false;
        return;
      }

      if |preferences| > 0 {
        var videosByCat := VideosByCategory(catalog, preferences);
        videosByCategory := videosByCat;
        videos := [];
        videoType := Trending;
        loading := false;
        return;
      }

      videos := Take(catalog, FallbackLimit);
      videoType := Fallback;
      videosByCategory := map[];
      loading := false;
    }

    method LoadAllVideos(catalog: seq<Video>)
      modifies this
      ensures Shown() == Feed(catalog, map[], NoType)
      ensures searchQuery == old(searchQuery) && showAllVideos == old(showAllVideos)
      ensures !loading
    {
      loading := true;
      videos := catalog;
      videosByCategory := map[];
      videoType := NoType;
      loading := false;
    }

    /** `performSearch` once its debounce has fired. */
    method PerformSearch(input: string, auth: Option<Uid>, users: map<Uid, UserDoc>, recs: map<VideoId, RecDoc>,
                         videoDocs: map<VideoId, Video>, catalog: seq<Video>)
      modifies this
      ensures IsBlank(input) && old(showAllVideos) ==> Shown() == Feed(catalog, map[], NoType)
      ensures IsBlank(input) && !old(showAllVideos) ==>
                Shown() == InitialFeed(auth, users, recs, videoDocs, catalog, old(Shown()))
      ensures !IsBlank(input) ==> Shown() == Feed(SearchResults(catalog, input), map[], Search)
      ensures searchQuery == old(searchQuery) && showAllVideos == old(showAllVideos)
      ensures !loading
    {
      if IsBlank(input) {
        if showAllVideos {
          LoadAllVideos(catalog);
        } else {
          LoadInitialVideos(auth, users, recs, videoDocs, catalog);
        }
        return;
      }
      loading := true;
      var filtered := SearchResults(catalog, input);
      videos := filtered;
      videoType := Search;
      videosByCategory := map[];
      loading := false;
    }

    /** `handleToggle` */
    method HandleToggle()
      modifies this
      ensures searchQuery == "" && showAllVideos == !old(showAllVideos)
      ensures Shown() == old(Shown()) && loading == old(loading)
    {
      searchQuery := "";
      showAllVideos := !showAllVideos;
    }
  }

  /** Preference tier: exactly one entry per preferred category, holding every
      video of that category (no cap), an empty flat list and the "Trending" label,
      even when every category is empty. */
  lemma PreferenceTier(auth: Option<Uid>, users: map<Uid, UserDoc>, recs: map<VideoId, RecDoc>,
                       videos: map<VideoId, Video>, catalog: seq<Video>, before: Feed)
    requires auth.Some? && auth.value in users
    requires |HistoryOf(users[auth.value])| == 0 && |PreferencesOf(users[auth.value])| > 0
    ensures var f := InitialFeed(auth, users, recs, videos, catalog, before);
      && f.videos == [] && f.videoType == Trending
      && (forall cat :: cat in f.byCategory <==> cat in PreferencesOf(users[auth.value]))
      && (forall cat, v :: cat in f.byCategory ==>
            (v in f.byCategory[cat] <==> v in catalog && v.subCategory == Some(cat)))
  {
  }

  /** A non-empty history always ends with the "Recommended" label and no
      categories, even when none of the recommended videos resolves. */
  lemma HistoryAlwaysRecommended(auth: Option<Uid>, users: map<Uid, UserDoc>, recs: map<VideoId, RecDoc>,
                                 videos: map<VideoId, Video>, catalog: seq<Video>, before: Feed)
    requires auth.Some? && auth.value in users && |HistoryOf(users[auth.value])| > 0
    ensures var f := InitialFeed(auth, users, recs, videos, catalog, before);
      f.videoType == Recommended && f.byCategory == map[] && |f.videos| <= MaxRecommendations
  {
  }

  /** Signed out, or neither history nor preferences: the first 24 videos. */
  lemma FallbackTier(auth: Option<Uid>, users: map<Uid, UserDoc>, recs: map<VideoId, RecDoc>,
                     videos: map<VideoId, Video>, catalog: seq<Video>, before: Feed)
    requires auth == None ||
             (auth.value in users && |HistoryOf(users[auth.value])| == 0 && |PreferencesOf(users[auth.value])| == 0)
    ensures var f := InitialFeed(auth, users, recs, videos, catalog, before);
      && f.videoType == Fallback && f.byCategory == map[]
      && |f.videos| == (if |catalog| < FallbackLimit then |catalog| else FallbackLimit)
      && f.videos == catalog[..|f.videos|]
  {
  }

  /** A signed-in user without a user document: the list, the categories and the
      label shown before are kept. */
  lemma MissingUserDocKeepsFeed(auth: Option<Uid>, users: map<Uid, UserDoc>, recs: map<VideoId, RecDoc>,
                                videos: map<VideoId, Video>, catalog: seq<Video>, before: Feed)
    requires auth.Some? && auth.value !in users
    ensures InitialFeed(auth, users, recs, videos, catalog, before) == before
  {
  }

  /** Lower-casing is idempotent. */
  lemma {:induction false} LowerIdempotent(s: string)
    ensures Lower(Lower(s)) == Lower(s)
  {
    if s != [] {
      LowerIdempotent(s[1..]);
    }
  }

  lemma {:induction false} FilterAgrees(s: seq<Video>, p: Video -> bool, q: Video -> bool)
    requires forall k :: 0 <= k < |s| ==> p(s[k]) == q(s[k])
    ensures Filter(s, p) == Filter(s, q)
  {
    if s != [] {
      assert forall k :: 0 <= k < |s[1..]| ==> s[1..][k] == s[k + 1];
      FilterAgrees(s[1..], p, q);
      assert p(s[0]) == q(s[0]);
    }
  }

  /** Search is case-insensitive in the query. */
  lemma SearchIgnoresQueryCase(catalog: seq<Video>, query: string)
    ensures SearchResults(catalog, query) == SearchResults(catalog, Lower(query))
  {
    LowerIdempotent(query);
    FilterAgrees(catalog, (v: Video) => Matches(v, query), (v: Video) => Matches(v, Lower(query)));
  }
}
