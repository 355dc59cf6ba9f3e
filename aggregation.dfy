/** The recommendation aggregator shared by the home API route and the home page:
    fold every `{videoId, score}` of the similar lists of the watched videos into
    one map that sums scores per candidate, rank the candidates by descending
    score and keep the first twelve. */
module Aggregation {
  import opened Common
  import opened Store
  import StableSort

  /** `.slice(0, 12)` after the sort. */
  const MaxRecommendations: nat := 12

  /** The `allRecIds` JavaScript `Map`: its keys in first-insertion order (the order
      in which a `Map` iterates) and the running score of every key. */
  datatype Tally = Tally(order: seq<VideoId>, total: map<VideoId, real>)

  const Empty := Tally([], map[])

  ghost predicate WellFormed(t: Tally) {
    && NoDup(t.order)
    && (forall c :: c in t.order ==> c in t.total)
    && (forall c :: c in t.total ==> c in t.order)
  }

  /** Score of a candidate in the map, 0 for a candidate never inserted. */
  function ScoreOf(t: Tally, c: VideoId): real {
    if c in t.total then t.total[c] else 0.0
  }

  /** One step of the inner loop: insert the candidate with its score, or add the
      score to the one already stored. */
  function AddEdge(t: Tally, e: Edge): Tally {
    if e.videoId in t.total then Tally(t.order, t.total[e.videoId := t.total[e.videoId] + e.score])
    else Tally(t.order + [e.videoId], t.total[e.videoId := e.score])
  }

  /** The inner loop over one similar list. */
  function AddList(t: Tally, es: seq<Edge>): Tally {
    if es == [] then t else AddEdge(AddList(t, es[..|es| - 1]), es[|es| - 1])
  }

  /** Each insertion keeps the keys distinct and in step with the scores. */
  lemma {:induction false} AddListWellFormed(t: Tally, es: seq<Edge>)
    requires WellFormed(t)
    ensures WellFormed(AddList(t, es))
  {
    if es != [] {
      AddListWellFormed(t, es[..|es| - 1]);
      var s := AddList(t, es[..|es| - 1]);
      var id := es[|es| - 1].videoId;
      if id !in s.total {
        var o := s.order + [id];
        assert AddList(t, es).order == o;
        forall a, b | 0 <= a < b < |o| ensures o[a] != o[b] {
          if b == |s.order| {
            assert o[a] in s.order;
          }
        }
      }
    }
  }

  /** Both loops: the similar list of every history entry in turn, an entry
      without a recommendations record contributing the empty list. */
  function Merge(recs: map<VideoId, RecDoc>, history: seq<HistoryEntry>): (r: Tally)
    ensures WellFormed(r)
  {
    if history == [] then Empty
    else
      AddListWellFormed(Merge(recs, history[..|history| - 1]), SimilarOf(recs, history[|history| - 1].videoId));
      AddList(Merge(recs, history[..|history| - 1]), SimilarOf(recs, history[|history| - 1].videoId))
  }

  // ---------------------------------------------------------------------------
  // Reference definitions the merge is proved against

  function EdgeIds(es: seq<Edge>): (r: seq<VideoId>)
    ensures |r| == |es|
    ensures forall i :: 0 <= i < |es| ==> r[i] == es[i].videoId
  {
    if es == [] then [] else EdgeIds(es[..|es| - 1]) + [es[|es| - 1].videoId]
  }

  /** Sum of the scores that `es` gives to `c`. */
  function SumFor(es: seq<Edge>, c: VideoId): real {
    if es == [] then 0.0
    else SumFor(es[..|es| - 1], c) + (if es[|es| - 1].videoId == c then es[|es| - 1].score else 0.0)
  }

  /** Sum, over every history entry (repeated entries repeatedly), of the scores its
      similar list gives to `c`. */
  function Contribution(recs: map<VideoId, RecDoc>, history: seq<HistoryEntry>, c: VideoId): real {
    if history == [] then 0.0
    else Contribution(recs, history[..|history| - 1], c) + SumFor(SimilarOf(recs, history[|history| - 1].videoId), c)
  }

  /** Every similar list of the history, concatenated in history order. */
  function Candidates(recs: map<VideoId, RecDoc>, history: seq<HistoryEntry>): seq<Edge> {
    if history == [] then []
    else Candidates(recs, history[..|history| - 1]) + SimilarOf(recs, history[|history| - 1].videoId)
  }

  /** The distinct elements of `s`, each at the place of its first occurrence. */
  function Dedup(s: seq<VideoId>): (r: seq<VideoId>)
    ensures NoDup(r)
    ensures forall x :: x in r <==> x in s
  {
    if s == [] then []
    else
      var d := Dedup(s[..|s| - 1]);
      if s[|s| - 1] in d then d else d + [s[|s| - 1]]
  }

  // ---------------------------------------------------------------------------
  // The merge

  lemma {:induction false} AddListAppend(t: Tally, a: seq<Edge>, b: seq<Edge>)
    ensures AddList(t, a + b) == AddList(AddList(t, a), b)
    decreases |b|
  {
    if b == [] {
      assert a + b == a;
    } else {
      var b' := b[..|b| - 1];
      assert (a + b)[..|a + b| - 1] == a + b';
      AddListAppend(t, a, b');
    }
  }

  lemma {:induction false} SumForAppend(a: seq<Edge>, b: seq<Edge>, c: VideoId)
    ensures SumFor(a + b, c) == SumFor(a, c) + SumFor(b, c)
    decreases |b|
  {
    if b == [] {
      assert a + b == a;
    } else {
      var b' := b[..|b| - 1];
      assert (a + b)[..|a + b| - 1] == a + b';
      SumForAppend(a, b', c);
    }
  }

  /** Folding a list into the empty map: the keys are the distinct candidates in
      first-occurrence order, and each holds the sum of its scores. */
  lemma AddListFromEmpty(es: seq<Edge>)
    ensures AddList(Empty, es).order == Dedup(EdgeIds(es))
    ensures forall c :: c in AddList(Empty, es).total <==> c in EdgeIds(es)
    ensures forall c :: ScoreOf(AddList(Empty, es), c) == SumFor(es, c)
  {
    AddListOrder(es);
    AddListWellFormed(Empty, es);
    forall c ensures ScoreOf(AddList(Empty, es), c) == SumFor(es, c) {
      AddListScore(es, c);
    }
  }

  lemma {:induction false} AddListOrder(es: seq<Edge>)
    ensures AddList(Empty, es).order == Dedup(EdgeIds(es))
  {
    if es != [] {
      var es' := es[..|es| - 1];
      var e := es[|es| - 1];
      AddListOrder(es');
      AddListWellFormed(Empty, es');
      var t := AddList(Empty, es');
      assert AddList(Empty, es) == AddEdge(t, e);
      var ids := EdgeIds(es);
      assert ids[..|es| - 1] == EdgeIds(es');
      assert e.videoId in t.total <==> e.videoId in t.order;
    }
  }

  lemma {:induction false} AddListScore(es: seq<Edge>, c: VideoId)
    ensures ScoreOf(AddList(Empty, es), c) == SumFor(es, c)
  {
    if es != [] {
      var es' := es[..|es| - 1];
      AddListScore(es', c);
      assert AddList(Empty, es) == AddEdge(AddList(Empty, es'), es[|es| - 1]);
    }
  }

  lemma {:induction false} MergeIsFold(recs: map<VideoId, RecDoc>, history: seq<HistoryEntry>)
    ensures Merge(recs, history) == AddList(Empty, Candidates(recs, history))
  {
    if history != [] {
      var h' := history[..|history| - 1];
      MergeIsFold(recs, h');
      AddListAppend(Empty, Candidates(recs, h'), SimilarOf(recs, history[|history| - 1].videoId));
    }
  }

  lemma {:induction false} CandidatesSum(recs: map<VideoId, RecDoc>, history: seq<HistoryEntry>, c: VideoId)
    ensures SumFor(Candidates(recs, history), c) == Contribution(recs, history, c)
  {
    if history != [] {
      var h' := history[..|history| - 1];
      CandidatesSum(recs, h', c);
      SumForAppend(Candidates(recs, h'), SimilarOf(recs, history[|history| - 1].videoId), c);
    }
  }

  /** The similar list of history entry `e` names candidate `c`. */
  predicate Mentions(recs: map<VideoId, RecDoc>, e: HistoryEntry, c: VideoId) {
    c in EdgeIds(SimilarOf(recs, e.videoId))
  }

  lemma EdgeIdsAppend(a: seq<Edge>, b: seq<Edge>)
    ensures EdgeIds(a + b) == EdgeIds(a) + EdgeIds(b)
  {
  }

  lemma {:induction false} CandidatesMention(recs: map<VideoId, RecDoc>, history: seq<HistoryEntry>, c: VideoId)
    ensures c in EdgeIds(Candidates(recs, history)) <==> exists i :: 0 <= i < |history| && Mentions(recs, history[i], c)
  {
    if history != [] {
      var h' := history[..|history| - 1];
      var x := history[|history| - 1];
      var front, last := Candidates(recs, h'), SimilarOf(recs, x.videoId);
      assert Candidates(recs, history) == front + last;
      CandidatesMention(recs, h', c);
      EdgeIdsAppend(front, last);
      assert Mentions(recs, x, c) == (c in EdgeIds(last));
      if c in EdgeIds(front) {
        var i :| 0 <= i < |h'| && Mentions(recs, h'[i], c);
        assert history[i] == h'[i];
      } else if c in EdgeIds(last) {
        assert history[|history| - 1] == x;
      } else {
        forall i | 0 <= i < |history| ensures !Mentions(recs, history[i], c) {
          if i < |h'| {
            assert h'[i] == history[i];
          }
        }
      }
    }
  }

  /** Every candidate's merged score is the sum of its scores over all history
      entries. */
  lemma MergedScore(recs: map<VideoId, RecDoc>, history: seq<HistoryEntry>, c: VideoId)
    ensures ScoreOf(Merge(recs, history), c) == Contribution(recs, history, c)
  {
    MergeIsFold(recs, history);
    AddListFromEmpty(Candidates(recs, history));
    CandidatesSum(recs, history, c);
  }

  /** The map after the loops: a candidate is a key exactly when some history
      entry's similar list names it; keys are in first-insertion order; and every
      candidate's score is the sum of its scores over all history entries. */
  lemma MergeCharacterization(recs: map<VideoId, RecDoc>, history: seq<HistoryEntry>)
    ensures Merge(recs, history).order == Dedup(EdgeIds(Candidates(recs, history)))
    ensures forall c :: c in Merge(recs, history).total <==>
              exists i :: 0 <= i < |history| && Mentions(recs, history[i], c)
    ensures forall c :: ScoreOf(Merge(recs, history), c) == Contribution(recs, history, c)
  {
    MergeIsFold(recs, history);
    AddListFromEmpty(Candidates(recs, history));
    forall c ensures ScoreOf(Merge(recs, history), c) == Contribution(recs, history, c) {
      MergedScore(recs, history, c);
    }
    forall c ensures c in Merge(recs, history).total <==>
                     exists i :: 0 <= i < |history| && Mentions(recs, history[i], c) {
      CandidatesMention(recs, history, c);
    }
  }

  lemma {:induction false} ContributionAppend(recs: map<VideoId, RecDoc>, a: seq<HistoryEntry>, b: seq<HistoryEntry>, c: VideoId)
    ensures Contribution(recs, a + b, c) == Contribution(recs, a, c) + Contribution(recs, b, c)
    decreases |b|
  {
    if b == [] {
      assert a + b == a;
    } else {
      var b' := b[..|b| - 1];
      assert (a + b)[..|a + b| - 1] == a + b';
      ContributionAppend(recs, a, b', c);
    }
  }

  /** A video watched twice, anywhere in the history, contributes its similar list
      twice. */
  lemma RepeatedEntryCountsTwice(recs: map<VideoId, RecDoc>, before: seq<HistoryEntry>, x: HistoryEntry,
                                 middle: seq<HistoryEntry>, after: seq<HistoryEntry>, c: VideoId)
    ensures ScoreOf(Merge(recs, before + [x] + middle + [x] + after), c)
         == ScoreOf(Merge(recs, before + middle + after), c) + 2.0 * SumFor(SimilarOf(recs, x.videoId), c)
  {
    var history := before + middle + after;
    var watched := before + [x] + middle + [x] + after;
    assert multiset(watched) == multiset(history + [x, x]) by {
      assert multiset(watched) == multiset(before) + multiset{x} + multiset(middle) + multiset{x} + multiset(after);
      assert multiset(history + [x, x]) == multiset(before) + multiset(middle) + multiset(after) + multiset{x, x};
    }
    MergeScoresOrderIndependent(recs, watched, history + [x, x], c);
    MergedScore(recs, history + [x, x], c);
    MergedScore(recs, history, c);
    TwiceAtEnd(recs, history, x, c);
  }

  lemma TwiceAtEnd(recs: map<VideoId, RecDoc>, history: seq<HistoryEntry>, x: HistoryEntry, c: VideoId)
    ensures Contribution(recs, history + [x, x], c) == Contribution(recs, history, c) + 2.0 * SumFor(SimilarOf(recs, x.videoId), c)
  {
    ContributionAppend(recs, history, [x, x], c);
    var own := SumFor(SimilarOf(recs, x.videoId), c);
    assert [x, x][..1] == [x];
    assert [x][..0] == [];
    assert Contribution(recs, [x], c) == own;
    assert Contribution(recs, [x, x], c) == Contribution(recs, [x], c) + own;
  }

  /** The merged scores do not depend on the order of the history: any two
      histories holding the same entries, as many times each, give every candidate
      the same score. */
  lemma MergeScoresOrderIndependent(recs: map<VideoId, RecDoc>, h1: seq<HistoryEntry>, h2: seq<HistoryEntry>, c: VideoId)
    requires multiset(h1) == multiset(h2)
    ensures ScoreOf(Merge(recs, h1), c) == ScoreOf(Merge(recs, h2), c)
  {
    MergedScore(recs, h1, c);
    MergedScore(recs, h2, c);
    ContributionPermutation(recs, h1, h2, c);
  }

  lemma {:induction false} ContributionPermutation(recs: map<VideoId, RecDoc>, h1: seq<HistoryEntry>, h2: seq<HistoryEntry>, c: VideoId)
    requires multiset(h1) == multiset(h2)
    ensures Contribution(recs, h1, c) == Contribution(recs, h2, c)
    decreases |h1|
  {
    if h1 == [] {
      assert |h2| == |multiset(h2)| == 0;
    } else {
      var n := |h1|;
      var x := h1[n - 1];
      var front := h1[..n - 1];
      assert h1 == front + [x];
      assert x in multiset(h2);
      var j :| 0 <= j < |h2| && h2[j] == x;
      var left, right := h2[..j], h2[j + 1..];
      assert h2 == left + [x] + right;
      MultisetCancel(front, x, left, right);
      ContributionPermutation(recs, front, left + right, c);
      ContributionSplit(recs, left, x, right, c);
    }
  }

  lemma MultisetCancel<T>(front: seq<T>, x: T, left: seq<T>, right: seq<T>)
    requires multiset(front + [x]) == multiset(left + [x] + right)
    ensures multiset(front) == multiset(left + right)
  {
    forall y ensures multiset(front)[y] == multiset(left + right)[y] {
      assert multiset(front + [x])[y] == multiset(left + [x] + right)[y];
    }
  }

  /** Taking one entry out of the history takes its similar list's scores away. */
  lemma ContributionSplit(recs: map<VideoId, RecDoc>, left: seq<HistoryEntry>, x: HistoryEntry, right: seq<HistoryEntry>, c: VideoId)
    ensures Contribution(recs, left + [x] + right, c) == Contribution(recs, left + right, c) + SumFor(SimilarOf(recs, x.videoId), c)
  {
    ContributionAppend(recs, left, right, c);
    ContributionAppend(recs, left + [x], right, c);
    ContributionAppend(recs, left, [x], c);
    assert [x][..0] == [];
    assert Contribution(recs, [x], c) == SumFor(SimilarOf(recs, x.videoId), c);
  }

  /** An entry with no recommendations record (or no `similar` field) changes
      nothing, and the entries after it are still processed. */
  lemma {:induction false} EntryWithoutSimilarSkipped(recs: map<VideoId, RecDoc>, before: seq<HistoryEntry>, x: HistoryEntry, after: seq<HistoryEntry>)
    requires x.videoId !in recs || recs[x.videoId].similar == None || recs[x.videoId].similar == Some([])
    ensures Merge(recs, before + [x] + after) == Merge(recs, before + after)
    decreases |after|
  {
    if after == [] {
      assert before + [x] + after == before + [x];
      assert (before + [x])[..|before|] == before;
      assert before + after == before;
    } else {
      var a' := after[..|after| - 1];
      assert (before + [x] + after)[..|before + [x] + after| - 1] == before + [x] + a';
      assert (before + after)[..|before + after| - 1] == before + a';
      EntryWithoutSimilarSkipped(recs, before, x, a');
    }
  }

  /** A history none of whose videos has a recommendations record merges to the
      empty map. */
  lemma {:induction false} MergeWithoutRecordsIsEmpty(recs: map<VideoId, RecDoc>, history: seq<HistoryEntry>)
    requires forall k :: 0 <= k < |history| ==> history[k].videoId !in recs
    ensures Merge(recs, history) == Empty
  {
    if history != [] {
      var h' := history[..|history| - 1];
      assert forall k :: 0 <= k < |h'| ==> h'[k] == history[k];
      MergeWithoutRecordsIsEmpty(recs, h');
    }
  }

  /** The nested loops of the source, updating a `Map` in place: the outer loop
      over the history. */
  method AccumulateScores(recs: map<VideoId, RecDoc>, history: seq<HistoryEntry>) returns (t: Tally)
    ensures t == Merge(recs, history)
  {
    t := Tally([], map[]);
    for i := 0 to |history|
      invariant t == Merge(recs, history[..i])
    {
      MergeStep(recs, history, i);
      var entry := history[i];
      if entry.videoId !in recs {
        assert AddList(t, []) == t;
        continue;
      }
      var similarList := recs[entry.videoId].similar.GetOr([]);
      t := AddSimilar(t, similarList);
    }
    assert history[..|history|] == history;
  }

  /** The inner loop over one similar list. */
  method AddSimilar(t0: Tally, similarList: seq<Edge>) returns (t: Tally)
    ensures t == AddList(t0, similarList)
  {
    var order, total := t0.order, t0.total;
    assert similarList[..0] == [];
    for j := 0 to |similarList|
      invariant Tally(order, total) == AddList(t0, similarList[..j])
    {
      var item := similarList[j];
      AddListStep(t0, similarList, j);
      if item.videoId !in total {
        order := order + [item.videoId];
        total := total[item.videoId := item.score];
      } else {
        total := total[item.videoId := total[item.videoId] + item.score];
      }
    }
    assert similarList[..|similarList|] == similarList;
    t := Tally(order, total);
  }

  /** One more history entry read by the outer loop. */
  lemma MergeStep(recs: map<VideoId, RecDoc>, history: seq<HistoryEntry>, i: nat)
    requires i < |history|
    ensures Merge(recs, history[..i + 1]) == AddList(Merge(recs, history[..i]), SimilarOf(recs, history[i].videoId))
  {
    assert history[..i + 1][..i] == history[..i];
  }

  /** One more edge read by the inner loop. */
  lemma AddListStep(t: Tally, es: seq<Edge>, j: nat)
    requires j < |es|
    ensures AddList(t, es[..j + 1]) == AddEdge(AddList(t, es[..j]), es[j])
  {
    assert es[..j + 1][..j] == es[..j];
  }

  // ---------------------------------------------------------------------------
  // Ranking: `[...allRecIds.entries()].sort((a, b) => b[1] - a[1]).slice(0, 12).map(([id]) => id)`

  function Score(e: (VideoId, real)): real { e.1 }

  /** `[...allRecIds.entries()]`: the pairs in insertion order. */
  function Entries(t: Tally): (r: seq<(VideoId, real)>)
    requires WellFormed(t)
    ensures |r| == |t.order|
    ensures forall k :: 0 <= k < |r| ==> r[k] == (t.order[k], t.total[t.order[k]])
  {
    seq(|t.order|, k requires 0 <= k < |t.order| => (t.order[k], t.total[t.order[k]]))
  }

  function RankedIds(t: Tally, cap: nat): (r: seq<VideoId>)
    requires WellFormed(t)
    ensures |r| == if cap < |t.order| then cap else |t.order|
    ensures forall k :: 0 <= k < |r| ==> r[k] in t.total
  {
    SortedEntriesFacts(t);
    var top: seq<(VideoId, real)> := Take(SortedEntries(t), cap);
    seq(|top|, k requires 0 <= k < |top| => top[k].0)
  }

  /** The ranked ids: as many as the cap allows, all distinct, all candidates,
      in non-increasing score order, and equal scores in first-insertion order. */
  lemma RankedIdsOrdered(t: Tally, cap: nat)
    requires WellFormed(t)
    ensures NoDup(RankedIds(t, cap))
    ensures forall i, j :: 0 <= i < j < |RankedIds(t, cap)| ==>
              t.total[RankedIds(t, cap)[i]] >= t.total[RankedIds(t, cap)[j]]
    ensures forall i, j :: 0 <= i < j < |RankedIds(t, cap)| && t.total[RankedIds(t, cap)[i]] == t.total[RankedIds(t, cap)[j]] ==>
              IndexOf(t.order, RankedIds(t, cap)[i]) < IndexOf(t.order, RankedIds(t, cap)[j])
  {
    SortedEntriesFacts(t);
    var sorted := SortedEntries(t);
    var r := RankedIds(t, cap);
    assert forall k :: 0 <= k < |r| ==> r[k] == sorted[k].0;
    forall i, j | 0 <= i < j < |r|
      ensures r[i] != r[j]
      ensures t.total[r[i]] >= t.total[r[j]]
      ensures t.total[r[i]] == t.total[r[j]] ==> IndexOf(t.order, r[i]) < IndexOf(t.order, r[j])
    {
      assert t.total[r[i]] == sorted[i].1 && t.total[r[j]] == sorted[j].1;
    }
  }

  /** Top-k selection: a candidate left out scores no higher than any kept one, and
      on an equal score it was inserted after it. */
  lemma RankedIdsTopK(t: Tally, cap: nat)
    requires WellFormed(t)
    ensures forall c, k :: c in t.total && c !in RankedIds(t, cap) && 0 <= k < |RankedIds(t, cap)| ==>
              t.total[c] <= t.total[RankedIds(t, cap)[k]]
    ensures forall c, k :: c in t.total && c !in RankedIds(t, cap) && 0 <= k < |RankedIds(t, cap)| &&
                           t.total[c] == t.total[RankedIds(t, cap)[k]] ==>
              IndexOf(t.order, RankedIds(t, cap)[k]) < IndexOf(t.order, c)
  {
    forall c, k | c in t.total && c !in RankedIds(t, cap) && 0 <= k < |RankedIds(t, cap)|
      ensures t.total[c] <= t.total[RankedIds(t, cap)[k]]
      ensures t.total[c] == t.total[RankedIds(t, cap)[k]] ==> IndexOf(t.order, RankedIds(t, cap)[k]) < IndexOf(t.order, c)
    {
      LeftOutRanksLower(t, cap, c, k);
    }
  }

  lemma LeftOutRanksLower(t: Tally, cap: nat, c: VideoId, k: nat)
    requires WellFormed(t)
    requires c in t.total && c !in RankedIds(t, cap) && k < |RankedIds(t, cap)|
    ensures t.total[c] <= t.total[RankedIds(t, cap)[k]]
    ensures t.total[c] == t.total[RankedIds(t, cap)[k]] ==> IndexOf(t.order, RankedIds(t, cap)[k]) < IndexOf(t.order, c)
  {
    SortedEntriesFacts(t);
    var sorted := SortedEntries(t);
    var r := RankedIds(t, cap);
    assert forall m :: 0 <= m < |r| ==> r[m] == sorted[m].0;
    var p := IndexOf(t.order, c);
    assert Entries(t)[p] == (c, t.total[c]);
    assert (c, t.total[c]) in multiset(sorted);
    var q :| 0 <= q < |sorted| && sorted[q] == (c, t.total[c]);
    assert k < q;
    assert t.total[r[k]] == sorted[k].1;
  }

  /** `[...allRecIds.entries()].sort((a, b) => b[1] - a[1])` */
  function SortedEntries(t: Tally): seq<(VideoId, real)>
    requires WellFormed(t)
  {
    StableSort.SortDesc(Entries(t), Score)
  }

  /** The sorted pairs are the map's pairs, by descending score, and equal scores
      in insertion order. */
  lemma SortedEntriesFacts(t: Tally)
    requires WellFormed(t)
    ensures var sorted := SortedEntries(t);
      && |sorted| == |t.order|
      && (forall k :: 0 <= k < |sorted| ==> sorted[k].0 in t.total && sorted[k].1 == t.total[sorted[k].0])
      && (forall i, j :: 0 <= i < j < |sorted| ==>
            sorted[i].1 > sorted[j].1 ||
            (sorted[i].1 == sorted[j].1 && IndexOf(t.order, sorted[i].0) < IndexOf(t.order, sorted[j].0)))
  {
    var es := Entries(t);
    var sorted := SortedEntries(t);
    var pos := (e: (VideoId, real)) => IndexOf(t.order, e.0) as int;
    forall i, j | 0 <= i < j < |es| ensures pos(es[i]) < pos(es[j]) {
      assert IndexOf(t.order, t.order[i]) == i;
      assert IndexOf(t.order, t.order[j]) == j;
    }
    StableSort.SortStable(es, Score, pos);
    forall k | 0 <= k < |sorted| ensures sorted[k].0 in t.total && sorted[k].1 == t.total[sorted[k].0] {
      assert sorted[k] in multiset(es);
      var m :| 0 <= m < |es| && es[m] == sorted[k];
    }
  }

  /** The personalized tier: resolve the twelve best candidates to videos. */
  function Recommend(recs: map<VideoId, RecDoc>, videos: map<VideoId, Video>, history: seq<HistoryEntry>): (r: seq<Video>)
    ensures |r| <= MaxRecommendations
  {
    var ranked := RankedIds(Merge(recs, history), MaxRecommendations);
    RankedIdsOrdered(Merge(recs, history), MaxRecommendations);
    Resolve(videos, ranked)
  }
}
