# watchai — a verified model of the recommendation and history logic

watchai is a video site built on Next.js and a hosted document store. Users watch videos, and each view is recorded in the `watchHistory` array of their `users` document. Users pick preferred categories. The home feed is built in tiers:

1. personalized recommendations, aggregated from precomputed "similar videos" lists;
2. videos of the preferred categories;
3. otherwise any videos.

Two offline Python jobs feed this:

- one classifies each video into one of eleven subcategories;
- the other writes, for every video with an embedding, the list of its nearest neighbours to the `recommendations` collection.

This project models that logic in Dafny and proves what it promises. The store, authentication, the classifier and the similarity search are inputs. Anything the code changes step by step is modelled with methods and loops, checked against pure specification functions:

- the score map built in nested loops;
- the history array rewritten by the history service;
- the state fields of the React pages;
- the loops of the index job.

| module | models |
|---|---|
| `Common` | optional values, `slice`/`limit`, `findIndex`, ASCII `trim`/`toLowerCase`, `includes`, `filter` |
| `Store` | the documents read and written; the `users` collection as the class `UserStore`; resolving ids to video documents |
| `StableSort` | `Array.prototype.sort` with a descending comparator, which is stable |
| `Aggregation` | the score aggregation and top-12 ranking shared by the home route and the home page |
| `HomeRoute` | `GET /api/home` (`getHomePageVideos`) and its three tiers |
| `HomeFeed` | the home page: `loadInitialVideos`, `loadAllVideos`, `performSearch`, `handleToggle` |
| `WatchHistoryService` | `updateWatchHistory` |
| `WatchHistory` | the watch-history page: `fetchHistory`, `deleteFromHistory`, `uniqueVideos` |
| `Selection`, `Onboarding`, `ChangePreferences` | the two preference pages |
| `SimilarIndex` | `build_faiss_index.py` after the similarity search |
| `Subcategory` | `classify_subcategory` and the text join of `subcat.py` |
| `UploadVideo` | `POST /api/upload-video` |

Some behaviours of the code are easy to miss. The model follows the code in each:

- A non-empty history always returns the personalized result, even when it is empty. The preference and fallback tiers are consulted only for an empty history.
- Equal scores are not broken by candidate id. They keep the order in which candidates first entered the `Map`, because JavaScript `Map`s iterate in insertion order and the sort is stable.
- No "lookup unavailable" error exists. A failing lookup throws out of the handler, and that is not modelled.
- The home route's preference query is capped at 12 and falls through to the generic tier when it is empty. The home page instead builds an uncapped map with one entry per category and never falls through. Its fallback lists hold 24 videos.
- Already-watched videos are not removed from the recommendations.

## Model

| member | source | states |
|---|---|---|
| Aggregation.Merge | src/app/api/home/route.ts:36-48 | the score map after the loops over a history has distinct keys, and those keys are exactly the scored candidates |
| Aggregation.AddListWellFormed | src/app/api/home/route.ts:41-47 | inserting or adding the scores of one similar list keeps the keys distinct and in step with the scores |
| Aggregation.AccumulateScores | src/app/api/home/route.ts:36-48 | the nested loops that mutate `allRecIds` end with the map that folds every similar list of the history, in history order |
| Aggregation.AddSimilar | src/app/api/home/route.ts:41-47 | the inner loop ends with the map folded over the whole similar list |
| Aggregation.MergeStep | src/app/api/home/route.ts:36-39 | reading one more history entry adds its similar list; a missing record or `similar` field counts as the empty list |
| Aggregation.AddListStep | src/app/api/home/route.ts:42-46 | reading one more item inserts a new candidate with its score, or adds the score to the stored one |
| Aggregation.AddListFromEmpty | src/app/api/home/route.ts:41-47 | folding a list into an empty map gives keys that are the distinct candidates in first-occurrence order, and each holds the sum of its scores |
| Aggregation.AddListOrder | src/app/api/home/route.ts:42-43 | the map's key order is the first-occurrence order of the candidates |
| Aggregation.AddListScore | src/app/api/home/route.ts:42-46 | every candidate's score is the sum of its scores in the list |
| Aggregation.MergeIsFold | src/app/api/home/route.ts:36-48 | the nested loops equal one fold over all similar lists concatenated in history order |
| Aggregation.MergedScore | src/app/api/home/route.ts:36-48 | each candidate's merged score is the sum of its scores over the similar lists of all history entries |
| Aggregation.MergeCharacterization | src/app/api/home/route.ts:36-48 | a candidate is a key exactly when some history entry's similar list names it; keys are in first-insertion order; each score is the sum over all entries |
| Aggregation.RepeatedEntryCountsTwice | src/app/api/home/route.ts:36-48 | a video listed twice in the history, at any two positions, contributes its similar list twice: each score equals the score without both entries plus twice that video's contribution |
| Aggregation.MergeScoresOrderIndependent | src/app/api/home/route.ts:36-48 | any reordering of the history (the same entries, as a multiset) gives every candidate the same merged score |
| Aggregation.ContributionPermutation | src/app/api/home/route.ts:36-48 | the summed contribution of a history to one candidate is the same for any permutation of the history |
| Aggregation.EntryWithoutSimilarSkipped | src/app/api/home/route.ts:37-39 | an entry with no record, no `similar` field or an empty list changes nothing, and later entries are still processed |
| Aggregation.MergeWithoutRecordsIsEmpty | src/app/api/home/route.ts:37-38 | a history none of whose videos has a record merges to the empty map |
| Aggregation.Entries | src/app/api/home/route.ts:50 | `[...allRecIds.entries()]` lists every key with its score, in insertion order |
| Aggregation.RankedIds | src/app/api/home/route.ts:50-53 | the ranked ids number min(cap, number of candidates), and every one is a candidate |
| Aggregation.RankedIdsOrdered | src/app/api/home/route.ts:50-53 | the ranked ids have no duplicates and are non-increasing in score; equal scores keep first-insertion order |
| Aggregation.RankedIdsTopK | src/app/api/home/route.ts:50-53 | a candidate left out scores no higher than any kept one, and on a tie it was inserted later |
| Aggregation.LeftOutRanksLower | src/app/api/home/route.ts:50-53 | the same top-k property, for one left-out and one kept candidate |
| Aggregation.SortedEntriesFacts | src/app/api/home/route.ts:50-51 | the sorted pairs are the map's pairs, by descending score, and equal scores come in insertion order |
| Aggregation.Recommend | src/app/api/home/route.ts:50-62 | the personalized tier holds at most 12 videos |
| StableSort.SortDesc | src/app/api/home/route.ts:51 | sorting returns a permutation of its input |
| StableSort.SortDescending | src/app/api/home/route.ts:51 | the sorted sequence is non-increasing in the key |
| StableSort.SortStable | src/app/api/home/route.ts:51 | elements with equal keys keep their relative order (stability) |
| StableSort.InsertWithKey | src/app/watch-history/page.tsx:59 | inserting one element adds it in front of the elements with its key and leaves the elements of every other key as they were |
| StableSort.SortKeepsEqualKeyOrder | src/app/watch-history/page.tsx:59 | for every key, the elements with that key appear in the sorted sequence exactly as in the input, in the same order |
| Store.SimilarOf | src/app/api/home/route.ts:37-39 | a missing record gives the empty list; a record with a `similar` field gives that list; a record without the field gives the empty list |
| Store.Resolve | src/app/api/home/route.ts:55-62 | resolution is no longer than the ids, and every video it returns is the document of one of the ids |
| Store.ResolveAppend | src/app/api/home/route.ts:55-62 | resolution keeps the order of the ids |
| Store.ResolveAllPresent | src/app/api/home/route.ts:55-62 | nothing is dropped exactly when every id has a document, and then the k-th result is the k-th id's document |
| Store.ResolveKeeps | src/app/api/home/route.ts:55-62 | an id with a document is never dropped |
| HomeRoute.PreferenceMatches | src/app/api/home/route.ts:69 | the `in` filter keeps exactly the catalog videos whose subcategory is one of the preferences, in catalog order |
| HomeRoute.PreferenceQuery | src/app/api/home/route.ts:66-73 | the preference query gives the first min(12, number of matches) matching videos, in catalog order |
| HomeRoute.GetHomePageVideos | src/app/api/home/route.ts:19-80 | gives [] when signed out or when there is no user document. A non-empty history gives the personalized result, even when empty. Otherwise a non-empty preference query is returned, and in all other cases the first 12 videos. |
| HomeRoute.WatchedVideoCanBeRecommended | src/app/api/home/route.ts:50-62 | an already-watched video that ranks and has a document is recommended |
| HomeRoute.EmptyPersonalizedIsFinal | src/app/api/home/route.ts:33-63 | with no recommendation records the personalized result is empty, and that empty list is returned |
| HomeFeed.CategoryQuery | src/app/home/page.tsx:180-182 | the per-category query gives every catalog video of that subcategory and only those, in catalog order |
| HomeFeed.VideosByCategory | src/app/home/page.tsx:178-183 | the loop fills one entry per preference with its category query |
| HomeFeed.SearchResults | src/app/home/page.tsx:82-86 | the search keeps exactly the videos whose lower-cased title or subcategory contains the lower-cased query, in catalog order |
| HomeFeed.HomePage.constructor | src/app/home/page.tsx:51-60 | the initial state: nothing shown, no label, empty query, toggle off, loading |
| HomeFeed.HomePage.LoadInitialVideos | src/app/home/page.tsx:109-202 | the page state after loading is the initial feed of the user; the query and the toggle are unchanged; loading ends |
| HomeFeed.HomePage.LoadAllVideos | src/app/home/page.tsx:96-107 | every video is shown, with no categories and no label |
| HomeFeed.HomePage.PerformSearch | src/app/home/page.tsx:68-94 | a blank query reloads all or the initial videos, by the toggle. Any other query shows the search results labelled "Search", with no categories. |
| HomeFeed.HomePage.HandleToggle | src/app/home/page.tsx:205-208 | toggling clears the query and flips `showAllVideos`; nothing else changes |
| HomeFeed.PreferenceTier | src/app/home/page.tsx:177-189 | the preference tier gives exactly one key per preference, each with every video of that category (uncapped), an empty list and "Trending", even when all are empty |
| HomeFeed.HistoryAlwaysRecommended | src/app/home/page.tsx:142-175 | a non-empty history always ends labelled "Recommended" with no categories and at most 12 videos, even when none resolves |
| HomeFeed.FallbackTier | src/app/home/page.tsx:191-196 | signed out, or neither history nor preferences: the first 24 videos, labelled "Fallback", with no categories |
| HomeFeed.MissingUserDocKeepsFeed | src/app/home/page.tsx:133-136 | a missing user document leaves the shown list, categories and label unchanged |
| HomeFeed.SearchIgnoresQueryCase | src/app/home/page.tsx:82-86 | the search results do not depend on the case of the query |
| WatchHistoryService.FindIndex | src/services/watch-history.ts:17 | `findIndex` gives -1 exactly when no entry has the id, and otherwise the first such entry |
| WatchHistoryService.FindIndexIsIndexOf | src/services/watch-history.ts:17 | the index found is the position of the first occurrence of the id |
| WatchHistoryService.UpsertExisting | src/services/watch-history.ts:22-25 | rewatching keeps the length; only the first entry with the id changes, and only in its `timestamp` field |
| WatchHistoryService.UpsertNew | src/services/watch-history.ts:26-28 | a first watch appends `{videoId, timestamp}`; `watchedAt` stays unset |
| WatchHistoryService.UpsertKeepsPositions | src/services/watch-history.ts:17-33 | existing entries keep their positions and videos; the array grows by at most one and then contains the video |
| WatchHistoryService.UpsertTwiceSameIds | src/services/watch-history.ts:17-28 | watching the same video twice gives the same video ids as once; existing duplicates are not collapsed |
| WatchHistoryService.UpdateWatchHistory | src/services/watch-history.ts:4-34 | a missing user document writes nothing; otherwise only the user's `watchHistory` is replaced, by the upserted array |
| WatchHistory.SortedHistory | src/app/watch-history/page.tsx:59 | the sorted history is a permutation, non-increasing in `watchedAt.seconds`, with a missing time (or a date string) counting as 0; entries with equal seconds keep their stored order |
| WatchHistory.FirstEntry | src/app/watch-history/page.tsx:82 | `find` returns the first entry of the history with the id: no earlier entry has it |
| WatchHistory.ArrayRemove | src/app/watch-history/page.tsx:85-87 | `arrayRemove` deletes every element equal to the value, keeps all others and keeps their order |
| WatchHistory.WithoutVideo | src/app/watch-history/page.tsx:89 | the local list after delete has no video with the id, and keeps the others in order |
| WatchHistory.IsFirstIsFindIndex | src/app/watch-history/page.tsx:151-154 | the `index === findIndex(...)` test holds exactly when no earlier video has the same id |
| WatchHistory.KeepFirstsOrigin | src/app/watch-history/page.tsx:151-154 | every kept video is the first with its id |
| WatchHistory.KeepFirstsComplete | src/app/watch-history/page.tsx:151-154 | every first occurrence is kept |
| WatchHistory.KeepFirstsSubsequence | src/app/watch-history/page.tsx:151-154 | the kept videos are in list order |
| WatchHistory.KeepFirstsNoDup | src/app/watch-history/page.tsx:151-154 | no two kept videos share an id |
| WatchHistory.UniqueVideosFacts | src/app/watch-history/page.tsx:151-154 | `uniqueVideos` holds every id exactly once, as its first occurrence, as a subsequence of the list |
| WatchHistory.DeleteKeepsOtherEntriesOfVideo | src/app/watch-history/page.tsx:82-87 | deleting removes only entries equal to the first match; any other entry of the same video stays stored, including one whose time differs only in nanoseconds or is a different date string, so the video stays in the stored history |
| WatchHistory.WatchHistoryPage.constructor | src/app/watch-history/page.tsx:26-28 | the initial state: no user, empty list, loading |
| WatchHistory.WatchHistoryPage.FetchHistory | src/app/watch-history/page.tsx:46-71 | a missing user document gives the empty list; otherwise the history sorted newest first and resolved to video documents, dropping unknown ids; loading ends |
| WatchHistory.WatchHistoryPage.OnAuthStateChanged | src/app/watch-history/page.tsx:32-41 | signed out gives the empty list; signed in fetches that user's history |
| WatchHistory.WatchHistoryPage.DeleteFromHistory | src/app/watch-history/page.tsx:73-90 | with no user, no document or no matching entry nothing changes. Otherwise the first matching entry's value is removed from the stored array, and the video from the local list. |
| Selection.CategoriesDistinct | src/app/onboarding/page.tsx:11-23 | the fixed category list has eleven distinct entries |
| Selection.Without | src/app/onboarding/page.tsx:34 | removing a category keeps every other selected category and drops that one; duplicate-free stays duplicate-free |
| Selection.WithoutAbsent | src/app/changepref/page.tsx:61 | removing an unselected category changes nothing |
| Onboarding.ToggleOutcome | src/app/onboarding/page.tsx:32-43 | a selected category is removed; an unselected one is appended below five; at five the selection stays and the cap error is set; otherwise the error is cleared |
| Onboarding.ToggleKeepsValid | src/app/onboarding/page.tsx:32-43 | a selection of at most five distinct categories stays so |
| Onboarding.OverwrittenDoc | src/app/onboarding/page.tsx:53-56 | the saved document is exactly `{preferences, createdAt}`; history and every other field are gone |
| Onboarding.SaveDropsHistory | src/app/onboarding/page.tsx:53-56 | saving over a document with a history loses the history |
| Onboarding.OnboardingPage.constructor | src/app/onboarding/page.tsx:26-29 | the initial state: no selection, no error, not loading |
| Onboarding.OnboardingPage.ToggleCategory | src/app/onboarding/page.tsx:32-43 | the state fields become the capped toggle's selection and error, and the page invariant is kept |
| Onboarding.OnboardingPage.SavePreferences | src/app/onboarding/page.tsx:45-65 | with no user nothing is written; a failed write sets the error; otherwise the user's document is overwritten |
| Onboarding.EnabledSaveWritesPreferences | src/app/onboarding/page.tsx:93-96 | while the save button is enabled, a save writes the page's selection: one to five distinct categories |
| ChangePreferences.ToggleFlips | src/app/changepref/page.tsx:58-65 | a toggle flips its category's membership and no other, without a cap; duplicate-free stays duplicate-free |
| ChangePreferences.ToggleTwice | src/app/changepref/page.tsx:58-65 | toggling twice restores the set of categories, and restores the selection itself when the category was absent |
| ChangePreferences.MergedDoc | src/app/changepref/page.tsx:89-96 | the merge write sets `preferences` and `updatedAt` and keeps every other field; a missing document gets just those two |
| ChangePreferences.SaveKeepsHistory | src/app/changepref/page.tsx:89-96 | changing preferences keeps the watch history |
| ChangePreferences.ChangePreferencePage.constructor | src/app/changepref/page.tsx:26-31 | the initial state: no selection, no error, not saving, loading preferences |
| ChangePreferences.ChangePreferencePage.LoadPreferences | src/app/changepref/page.tsx:34-56 | stored preferences replace the selection only when present; a failed read sets the load error |
| ChangePreferences.ChangePreferencePage.ToggleCategory | src/app/changepref/page.tsx:58-65 | the selection is toggled and the error cleared |
| ChangePreferences.ChangePreferencePage.SelectAll | src/app/changepref/page.tsx:67-70 | the selection becomes the eleven categories and the error is cleared |
| ChangePreferences.ChangePreferencePage.ClearAll | src/app/changepref/page.tsx:72-75 | the selection becomes empty and the error is cleared |
| ChangePreferences.ChangePreferencePage.SavePreferences | src/app/changepref/page.tsx:77-104 | no user or an empty selection sets its error and writes nothing; a failed write sets the save error; otherwise the fields are merged into the user's document |
| SimilarIndex.Indexed | src/pipeline/scripts/build_faiss_index.py:23-28 | exactly the documents whose embedding is a non-empty list are indexed |
| SimilarIndex.LoadEmbeddings | src/pipeline/scripts/build_faiss_index.py:23-28 | `video_ids[k]` and `embeddings[k]` come from the k-th indexed document, and every embedding is non-empty |
| SimilarIndex.IndexedStep | src/pipeline/scripts/build_faiss_index.py:26-28 | a document joins the indexed ones exactly when it is indexable |
| SimilarIndex.Positions | src/pipeline/scripts/build_faiss_index.py:51-53 | the positions kept from a neighbour row lie within the row |
| SimilarIndex.PositionsFacts | src/pipeline/scripts/build_faiss_index.py:51-53 | the kept positions are exactly those not naming the video itself, in increasing order |
| SimilarIndex.PositionsPrefix | src/pipeline/scripts/build_faiss_index.py:51-59 | reading more of the row only extends the kept positions |
| SimilarIndex.EdgesAt | src/pipeline/scripts/build_faiss_index.py:54-57 | each entry pairs `video_ids[idx]` with the distance at the same position |
| SimilarIndex.SimilarList | src/pipeline/scripts/build_faiss_index.py:50-59 | the loop that skips self and breaks at `TOP_K` builds the specified similar list |
| SimilarIndex.FullAtCap | src/pipeline/scripts/build_faiss_index.py:58-59 | once `TOP_K` entries are collected, the rest of the row cannot change the list |
| SimilarIndex.SimilarForFacts | src/pipeline/scripts/build_faiss_index.py:49-59 | a similar list has at most 10 entries, never the video's own position, in row order with matching scores, and is short only when the row is exhausted |
| SimilarIndex.NeverSimilarToItself | src/pipeline/scripts/build_faiss_index.py:52-53 | with distinct document ids, no video lists itself |
| SimilarIndex.Records | src/pipeline/scripts/build_faiss_index.py:61-64 | exactly one record per indexed video, keyed by its id, holding that id and its similar list |
| SimilarIndex.WriteRecords | src/pipeline/scripts/build_faiss_index.py:49-64 | the outer loop writes exactly those records |
| SimilarIndex.BuildRecommendations | src/pipeline/scripts/build_faiss_index.py:19-64 | no embeddings, or embeddings of different lengths (`np.vstack` fails), raise their error and write nothing; otherwise the records of the indexed videos |
| SimilarIndex.IndexedIds | src/pipeline/scripts/build_faiss_index.py:28 | the ids of the indexed documents, in order, and distinct when document ids are |
| SimilarIndex.DistinctIdsKept | src/pipeline/scripts/build_faiss_index.py:23-28 | distinct document ids stay distinct among the indexed documents |
| Subcategory.MaxScore | src/pipeline/scripts/subcat.py:50 | `max(scores)` is one of the scores and no score exceeds it |
| Subcategory.ClassifySubcategory | src/pipeline/scripts/subcat.py:44-55 | the result is always one of the eleven labels or "unknown" |
| Subcategory.Decide | src/pipeline/scripts/subcat.py:47-55 | the rule on the classifier's answer gives one of the eleven labels or "unknown" |
| Subcategory.BlankIsUnknown | src/pipeline/scripts/subcat.py:45-46 | blank text (by Python's `strip`) is "unknown" whatever the classifier would say |
| Subcategory.SeparatorOnlyIsUnknown | src/pipeline/scripts/subcat.py:45-46 | a text of one ASCII separator character `\x1c` is blank for Python's `strip`, though not for JavaScript's `trim`, so it is "unknown" |
| Subcategory.ClassifyDecision | src/pipeline/scripts/subcat.py:44-55 | for non-blank text the result is "unknown" exactly when every score is below 0.3; otherwise it is the label at the first position of the highest score |
| Subcategory.DecideRule | src/pipeline/scripts/subcat.py:50-55 | the threshold and first-argmax rule, stated on the classifier's answer |
| Subcategory.LabelIsCategory | src/pipeline/scripts/subcat.py:28-40 | every label the classifier returns is one of the eleven candidates, never "unknown" |
| Subcategory.UnknownIsNotCategory | src/pipeline/scripts/subcat.py:28-46 | "unknown" is not a candidate label |
| Subcategory.NonEmpty | src/pipeline/scripts/subcat.py:68 | `filter(None, ...)` keeps only non-empty present parts, and keeps every one of them |
| Subcategory.NonEmptyAppend | src/pipeline/scripts/subcat.py:68 | filtering a concatenation is concatenating the filtered parts, so the kept parts stay in their order |
| Subcategory.JoinEmpty | src/pipeline/scripts/subcat.py:68 | a join of non-empty pieces is empty only when there are no pieces |
| Subcategory.JoinBlank | src/pipeline/scripts/subcat.py:68 | a space join is blank exactly when every piece is |
| Subcategory.NonEmptyBlank | src/pipeline/scripts/subcat.py:68 | dropping empty parts changes neither blankness nor emptiness |
| Subcategory.CombinedTextBlank | src/pipeline/scripts/subcat.py:64-70 | the combined text is blank (so "unknown") exactly when every present field is blank, and empty exactly when every field is missing or empty |
| UploadVideo.LastSegment | src/app/api/upload-video/route.ts:116 | `split(".").pop()` is the dot-free suffix after the last dot, or the whole name |
| UploadVideo.Post | src/app/api/upload-video/route.ts:101-139 | the answer is 200, 400 or 500, and it carries a URL exactly when it is 200 |
| UploadVideo.ChosenFile | src/app/api/upload-video/route.ts:104-109 | the handler uses the single file, or the first of several |
| UploadVideo.PostSucceeds | src/app/api/upload-video/route.ts:101-135 | success happens exactly when the form parses, a file with a path and a name ending in `.mp4` (any case) is present, and the store accepts it. The URL then names `uploads/<uuid>.mp4`, whatever the original name. |
| UploadVideo.PostRejects | src/app/api/upload-video/route.ts:104-119 | the 400 answers and their messages, in guard order |
| UploadVideo.ThrownErrorsAre500 | src/app/api/upload-video/route.ts:136-139 | a thrown error answers 500 with its message, or "Upload failed" when the message is empty |
| UploadVideo.ExtensionIsLastPart | src/app/api/upload-video/route.ts:115-117 | the extension is the lower-cased text after the last dot |
| UploadVideo.UppercaseMp4Accepted | src/app/api/upload-video/route.ts:115-117 | "a.MP4" has extension "mp4" |
| UploadVideo.DoubleExtensionRejected | src/app/api/upload-video/route.ts:115-117 | "a.mp4.mov" has extension "mov" |
| UploadVideo.EmptyNameRejected | src/app/api/upload-video/route.ts:115-117 | an empty or missing name has an empty extension |
| UploadVideo.NameWithoutDot | src/app/api/upload-video/route.ts:116 | a name without a dot is its own extension, so a file named `mp4` passes |

## Left out

- Store and authentication calls are not modelled as calls. Reads are values given as inputs: user documents, recommendation records, video documents by id, and the `videos` collection in query order. Writes go through `UserStore`. The current user is an `Option` input.
- Exceptions are modelled only where the code turns them into a visible result: the upload route's 500, the preference pages' error messages, and the index job's "no embeddings" and ragged-embeddings errors. Elsewhere a failing read or write aborts the handler or is logged, and the model leaves that out.
- Concurrency is left out: `Promise.all` is a sequential lookup, and the 500 ms search debounce, React effect ordering and rendering are not modelled. Routing (`router.push`) and console logging are left out too.
- `trim`, `strip` and `toLowerCase` are modelled on ASCII characters only: `trim` removes ASCII whitespace, `strip` also removes the separators `\x1c`-`\x1f`. Non-ASCII whitespace and Unicode case mapping are not modelled.
- A stored time is either a store timestamp (seconds and nanoseconds) or the ISO date string that `src/app/watch/WatchPage.tsx:64` writes into `watchedAt`. The watch page itself is not part of this model. The history sort reads `.seconds`, so a date string sorts like a missing time, as 0.
- Scores are exact reals, so floating-point rounding in the score sums and FAISS distances is not modelled.
- The store's limit on the number of values in an `in` query is not modelled. The route's preference query takes any number of preferences.
- ChangePreferences.ChangePreferencePage.LoadPreferences: a stored `preferences` value that is not an array is modelled as a missing field. Both leave the selection unchanged, as the code does.
- SimilarIndex.BuildRecommendations: the similarity search and L2 normalisation are inputs. They are given as rows of scores and neighbour indices, and every index must name an indexed video. The -1 padding the search uses when it has too few neighbours is excluded by that precondition and not modelled.
- The zero-shot classifier is an input (its labels and scores). The model assumes it returns every candidate label once.
- `src/app/api/recommendations/route.ts` is modelled only as the lookup `Store.SimilarOf`.
- Store.SimilarOf: for a record without a `similar` field, `getSimilarVideos` (src/app/api/recommendations/route.ts:10-11) returns `undefined`, while `SimilarOf` gives the empty list, as the home route and home page treat it.
- The watch page, the upload pages, the authentication pages and the rest of the media pipeline are not part of this model.
