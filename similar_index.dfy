/** The offline job that fills the `recommendations` collection
    (`build_faiss_index.py`): collect the videos that have an embedding, then, from
    the nearest-neighbour rows of the similarity search, write for every indexed
    video the list of its `TopK` nearest other videos with their scores. */
module SimilarIndex {
  import opened Common
  import opened Store

  /** `TOP_K` */
  const TopK: nat := 10

  const NoEmbeddingsError: string := "No embeddings found in Firestore!"
  /** The start of the `ValueError` that `np.vstack` raises for rows of different
      lengths. */
  const RaggedEmbeddingsError: string := "all the input array dimensions except for the concatenation axis must match exactly"

  /** The value of a video's `combinedEmbedding` field. */
  datatype Embedding = Missing | NotAList | List(values: seq<real>)

  /** A `videos` document as the job sees it: its id and its embedding. */
  datatype VideoDoc = VideoDoc(id: VideoId, embedding: Embedding)

  datatype Result<T> = Success(value: T) | Failure(error: string)

  /** `emb and isinstance(emb, list) and len(emb) > 0` */
  predicate Indexable(d: VideoDoc) {
    d.embedding.List? && |d.embedding.values| > 0
  }

  /** The indexed documents, in stream order. */
  function Indexed(docs: seq<VideoDoc>): (r: seq<VideoDoc>)
    ensures forall k :: 0 <= k < |r| ==> r[k] in docs && Indexable(r[k])
    ensures forall d :: d in docs && Indexable(d) ==> d in r
  {
    Filter(docs, Indexable)
  }

  /** The embedding-collection loop: `embeddings[k]` and `video_ids[k]` come from the
      k-th indexed document. */
  method LoadEmbeddings(docs: seq<VideoDoc>) returns (embeddings: seq<seq<real>>, videoIds: seq<VideoId>)
    ensures |embeddings| == |videoIds| == |Indexed(docs)|
    ensures forall k :: 0 <= k < |videoIds| ==>
              videoIds[k] == Indexed(docs)[k].id && embeddings[k] == Indexed(docs)[k].embedding.values
    ensures forall k :: 0 <= k < |embeddings| ==> |embeddings[k]| > 0
  {
    embeddings, videoIds := [], [];
    for i := 0 to |docs|
      invariant |embeddings| == |videoIds| == |Indexed(docs[..i])|
      invariant forall k :: 0 <= k < |videoIds| ==>
                  videoIds[k] == Indexed(docs[..i])[k].id && embeddings[k] == Indexed(docs[..i])[k].embedding.values
    {
      IndexedStep(docs, i);
      var data := docs[i];
      if Indexable(data) {
        embeddings := embeddings + [data.embedding.values];
        videoIds := videoIds + [data.id];
      }
    }
    assert docs[..|docs|] == docs;
  }

  /** One more document read: it joins the indexed ones exactly when it is
      indexable. */
  lemma IndexedStep(docs: seq<VideoDoc>, i: nat)
    requires i < |docs|
    ensures Indexed(docs[..i + 1]) == Indexed(docs[..i]) + (if Indexable(docs[i]) then [docs[i]] else [])
  {
    assert docs[..i + 1] == docs[..i] + [docs[i]];
    FilterAppend(docs[..i], [docs[i]], Indexable);
    assert [docs[i]][1..] == [];
  }

  /** Positions `j < n` of a neighbour row that are not the video itself, in row
      order. */
  function Positions(i: nat, idxRow: seq<int>, n: nat): (p: seq<nat>)
    requires n <= |idxRow|
    ensures forall k :: 0 <= k < |p| ==> p[k] < n
  {
    if n == 0 then []
    else
      var front := Positions(i, idxRow, n - 1);
      if idxRow[n - 1] != i then front + [n - 1] else front
  }

  /** The positions are exactly the ones not naming the video itself, increasing. */
  lemma PositionsFacts(i: nat, idxRow: seq<int>, n: nat)
    requires n <= |idxRow|
    ensures var p := Positions(i, idxRow, n);
      && (forall k :: 0 <= k < |p| ==> idxRow[p[k]] != i)
      && (forall j :: 0 <= j < n && idxRow[j] != i ==> j in p)
      && (forall a, b :: 0 <= a < b < |p| ==> p[a] < p[b])
  {
    var p := Positions(i, idxRow, n);
    forall k | 0 <= k < |p| ensures idxRow[p[k]] != i {
      PositionsNotSelf(i, idxRow, n, k);
    }
    forall j | 0 <= j < n && idxRow[j] != i ensures j in p {
      PositionsComplete(i, idxRow, n, j);
    }
    PositionsIncreasing(i, idxRow, n);
  }

  lemma {:induction false} PositionsNotSelf(i: nat, idxRow: seq<int>, n: nat, k: nat)
    requires n <= |idxRow| && k < |Positions(i, idxRow, n)|
    ensures idxRow[Positions(i, idxRow, n)[k]] != i
  {
    var front := Positions(i, idxRow, n - 1);
    if idxRow[n - 1] != i {
      assert Positions(i, idxRow, n) == front + [n - 1];
      if k < |front| {
        PositionsNotSelf(i, idxRow, n - 1, k);
      }
    } else {
      assert Positions(i, idxRow, n) == front;
      PositionsNotSelf(i, idxRow, n - 1, k);
    }
  }

  lemma {:induction false} PositionsComplete(i: nat, idxRow: seq<int>, n: nat, j: nat)
    requires j < n <= |idxRow| && idxRow[j] != i
    ensures j in Positions(i, idxRow, n)
  {
    var front := Positions(i, idxRow, n - 1);
    if j < n - 1 {
      PositionsComplete(i, idxRow, n - 1, j);
    }
    if idxRow[n - 1] != i {
      assert Positions(i, idxRow, n) == front + [n - 1];
    } else {
      assert Positions(i, idxRow, n) == front;
    }
  }

  lemma {:induction false} PositionsIncreasing(i: nat, idxRow: seq<int>, n: nat)
    requires n <= |idxRow|
    ensures forall a, b :: 0 <= a < b < |Positions(i, idxRow, n)| ==> Positions(i, idxRow, n)[a] < Positions(i, idxRow, n)[b]
  {
    if n > 0 {
      PositionsIncreasing(i, idxRow, n - 1);
      var front := Positions(i, idxRow, n - 1);
      if idxRow[n - 1] != i {
        var p := front + [n - 1];
        assert Positions(i, idxRow, n) == p;
        forall a, b | 0 <= a < b < |p| ensures p[a] < p[b] {
          assert p[a] == front[a] && front[a] < n - 1;
          if b < |front| {
            assert p[b] == front[b];
          }
        }
      } else {
        assert Positions(i, idxRow, n) == front;
      }
    }
  }

  /** A shorter prefix of the row gives a prefix of the positions: position `k` of
      the shorter list is also position `k` of the longer one. */
  lemma {:induction false} PositionsPrefix(i: nat, idxRow: seq<int>, n: nat, m: nat, k: nat)
    requires n <= m <= |idxRow| && k < |Positions(i, idxRow, n)|
    ensures k < |Positions(i, idxRow, m)| && Positions(i, idxRow, m)[k] == Positions(i, idxRow, n)[k]
    decreases m - n
  {
    if n < m {
      PositionsPrefix(i, idxRow, n, m - 1, k);
      var front := Positions(i, idxRow, m - 1);
      if idxRow[m - 1] != i {
        assert Positions(i, idxRow, m) == front + [m - 1];
      } else {
        assert Positions(i, idxRow, m) == front;
      }
    }
  }

  /** Neighbour rows the search can return for `n` indexed videos: parallel rows of
      scores and indices, every index naming an indexed video. */
  predicate WellFormedRow(n: nat, distRow: seq<real>, idxRow: seq<int>) {
    |distRow| == |idxRow| && forall j :: 0 <= j < |idxRow| ==> 0 <= idxRow[j] < n
  }

  /** `{"videoId": video_ids[idx], "score": distances[i][j]}` for each position. */
  function EdgesAt(videoIds: seq<VideoId>, distRow: seq<real>, idxRow: seq<int>, p: seq<nat>): (r: seq<Edge>)
    requires WellFormedRow(|videoIds|, distRow, idxRow)
    requires forall k :: 0 <= k < |p| ==> p[k] < |idxRow|
    ensures |r| == |p|
    ensures forall k :: 0 <= k < |p| ==> r[k] == Edge(videoIds[idxRow[p[k]]], distRow[p[k]])
  {
    seq(|p|, k requires 0 <= k < |p| => Edge(videoIds[idxRow[p[k]]], distRow[p[k]]))
  }

  /** The similar list of video `i`: the first `TopK` neighbours that are not the
      video itself. */
  function SimilarFor(i: nat, videoIds: seq<VideoId>, distRow: seq<real>, idxRow: seq<int>): seq<Edge>
    requires WellFormedRow(|videoIds|, distRow, idxRow)
  {
    Take(EdgesAt(videoIds, distRow, idxRow, Positions(i, idxRow, |idxRow|)), TopK)
  }

  /** The inner loop of step 3: skip the video itself, append, stop at `TopK`. */
  method SimilarList(i: nat, videoIds: seq<VideoId>, distRow: seq<real>, idxRow: seq<int>) returns (similar: seq<Edge>)
    requires WellFormedRow(|videoIds|, distRow, idxRow)
    ensures similar == SimilarFor(i, videoIds, distRow, idxRow)
  {
    similar := [];
    for j := 0 to |idxRow|
      invariant similar == EdgesAt(videoIds, distRow, idxRow, Positions(i, idxRow, j))
      invariant |similar| < TopK
    {
      var idx := idxRow[j];
      if idx == i {
        assert Positions(i, idxRow, j + 1) == Positions(i, idxRow, j);
        continue;
      }
      EdgesAtAppend(videoIds, distRow, idxRow, Positions(i, idxRow, j), j);
      similar := similar + [Edge(videoIds[idx], distRow[j])];
      if |similar| >= TopK {
        FullAtCap(i, videoIds, distRow, idxRow, j + 1);
        return;
      }
    }
  }

  /** Once the first `n` positions of the row give `TopK` entries, the rest of the
      row cannot change the list. */
  lemma FullAtCap(i: nat, videoIds: seq<VideoId>, distRow: seq<real>, idxRow: seq<int>, n: nat)
    requires WellFormedRow(|videoIds|, distRow, idxRow)
    requires n <= |idxRow|
    requires |Positions(i, idxRow, n)| == TopK
    ensures EdgesAt(videoIds, distRow, idxRow, Positions(i, idxRow, n)) == SimilarFor(i, videoIds, distRow, idxRow)
  {
    var all := Positions(i, idxRow, |idxRow|);
    var p := Positions(i, idxRow, n);
    PositionsPrefix(i, idxRow, n, |idxRow|, TopK - 1);
    var full := EdgesAt(videoIds, distRow, idxRow, all);
    var short := EdgesAt(videoIds, distRow, idxRow, p);
    assert Take(full, TopK) == full[..TopK];
    forall k | 0 <= k < TopK ensures full[k] == short[k] {
      PositionsPrefix(i, idxRow, n, |idxRow|, k);
    }
  }

  lemma EdgesAtAppend(videoIds: seq<VideoId>, distRow: seq<real>, idxRow: seq<int>, p: seq<nat>, j: nat)
    requires WellFormedRow(|videoIds|, distRow, idxRow)
    requires forall k :: 0 <= k < |p| ==> p[k] < |idxRow|
    requires j < |idxRow|
    ensures EdgesAt(videoIds, distRow, idxRow, p + [j]) ==
            EdgesAt(videoIds, distRow, idxRow, p) + [Edge(videoIds[idxRow[j]], distRow[j])]
  {
  }

  /** What a similar list holds: at most `TopK` entries, each pairing the id of a
      neighbour other than the video itself with that neighbour's score, in row
      order; fewer than `TopK` only when the row has no other neighbours. */
  lemma SimilarForFacts(i: nat, videoIds: seq<VideoId>, distRow: seq<real>, idxRow: seq<int>)
    requires WellFormedRow(|videoIds|, distRow, idxRow)
    ensures var r := SimilarFor(i, videoIds, distRow, idxRow);
      var p := Positions(i, idxRow, |idxRow|);
      && |r| <= TopK
      && |r| <= |p|
      && (forall k :: 0 <= k < |r| ==> idxRow[p[k]] != i && r[k] == Edge(videoIds[idxRow[p[k]]], distRow[p[k]]))
      && (forall a, b :: 0 <= a < b < |r| ==> p[a] < p[b])
      && (|r| < TopK ==> forall j :: 0 <= j < |idxRow| && idxRow[j] != i ==> j in p[..|r|])
  {
    PositionsFacts(i, idxRow, |idxRow|);
    var p := Positions(i, idxRow, |idxRow|);
    var r := SimilarFor(i, videoIds, distRow, idxRow);
    if |r| < TopK {
      assert p[..|r|] == p;
    }
  }

  /** With distinct document ids, a video never lists itself. */
  lemma NeverSimilarToItself(i: nat, videoIds: seq<VideoId>, distRow: seq<real>, idxRow: seq<int>)
    requires WellFormedRow(|videoIds|, distRow, idxRow)
    requires i < |videoIds| && NoDup(videoIds)
    ensures forall e :: e in SimilarFor(i, videoIds, distRow, idxRow) ==> e.videoId != videoIds[i]
  {
    SimilarForFacts(i, videoIds, distRow, idxRow);
  }

  /** The documents written to `recommendations`: one per indexed video, keyed by
      its id, holding its id and its similar list. */
  function Records(videoIds: seq<VideoId>, distances: seq<seq<real>>, indices: seq<seq<int>>): (r: map<VideoId, RecDoc>)
    requires |distances| == |indices| == |videoIds|
    requires forall i :: 0 <= i < |videoIds| ==> WellFormedRow(|videoIds|, distances[i], indices[i])
    requires NoDup(videoIds)
    ensures r.Keys == set id | id in videoIds
    ensures forall i :: 0 <= i < |videoIds| ==>
              r[videoIds[i]] == RecDoc(videoIds[i], Some(SimilarFor(i, videoIds, distances[i], indices[i])))
  {
    map i | 0 <= i < |videoIds| :: videoIds[i] := RecDoc(videoIds[i], Some(SimilarFor(i, videoIds, distances[i], indices[i])))
  }

  /** `np.vstack(embeddings)` builds the matrix only when every embedding has the
      length of the first. */
  predicate SameDimension(embeddings: seq<seq<real>>) {
    forall k :: 0 <= k < |embeddings| ==> |embeddings[k]| == |embeddings[0]|
  }

  /** The embeddings of the indexed documents all have one length. */
  predicate Stackable(docs: seq<VideoDoc>) {
    forall k :: 0 <= k < |Indexed(docs)| ==>
      |Indexed(docs)[k].embedding.values| == |Indexed(docs)[0].embedding.values|
  }

  /** The whole job after the search. `distances` and `indices` are the rows the
      similarity search returns for the collected embeddings; document ids are
      distinct, as in any collection. No embeddings, or embeddings of different
      lengths, stop the job before anything is written. */
  method BuildRecommendations(docs: seq<VideoDoc>, distances: seq<seq<real>>, indices: seq<seq<int>>)
    returns (r: Result<map<VideoId, RecDoc>>)
    requires |distances| == |indices| == |Indexed(docs)|
    requires forall i :: 0 <= i < |indices| ==> WellFormedRow(|Indexed(docs)|, distances[i], indices[i])
    requires DistinctIds(docs)
    ensures |Indexed(docs)| == 0 ==> r == Failure(NoEmbeddingsError)
    ensures |Indexed(docs)| > 0 && !Stackable(docs) ==> r == Failure(RaggedEmbeddingsError)
    ensures |Indexed(docs)| > 0 && Stackable(docs) ==> r == Success(Records(IndexedIds(docs), distances, indices))
  {
    var embeddings, videoIds := LoadEmbeddings(docs);
    if |embeddings| == 0 {
      return Failure(NoEmbeddingsError);
    }
    assert SameDimension(embeddings) <==> Stackable(docs);
    if !SameDimension(embeddings) {
      return Failure(RaggedEmbeddingsError);
    }
    assert videoIds == IndexedIds(docs);
    var written := WriteRecords(videoIds, distances, indices);
    r := Success(written);
  }

  /** The outer loop of step 3: one `set` per indexed video. */
  method WriteRecords(videoIds: seq<VideoId>, distances: seq<seq<real>>, indices: seq<seq<int>>)
    returns (written: map<VideoId, RecDoc>)
    requires |distances| == |indices| == |videoIds|
    requires forall i :: 0 <= i < |videoIds| ==> WellFormedRow(|videoIds|, distances[i], indices[i])
    requires NoDup(videoIds)
    ensures written == Records(videoIds, distances, indices)
  {
    written := map[];
    for i := 0 to |videoIds|
      invariant forall id :: id in written <==> id in videoIds[..i]
      invariant forall k :: 0 <= k < i ==>
                  written[videoIds[k]] == RecDoc(videoIds[k], Some(SimilarFor(k, videoIds, distances[k], indices[k])))
    {
      var vid := videoIds[i];
      var similar := SimilarList(i, videoIds, distances[i], indices[i]);
      written := written[vid := RecDoc(vid, Some(similar))];
    }
    var expected := Records(videoIds, distances, indices);
    assert videoIds[..|videoIds|] == videoIds;
    assert written.Keys == expected.Keys;
    forall id | id in written ensures written[id] == expected[id] {
      var k :| 0 <= k < |videoIds| && videoIds[k] == id;
    }
  }

  function IndexedIds(docs: seq<VideoDoc>): (r: seq<VideoId>)
    ensures |r| == |Indexed(docs)|
    ensures forall k :: 0 <= k < |r| ==> r[k] == Indexed(docs)[k].id
    ensures DistinctIds(docs) ==> NoDup(r)
  {
    DistinctIdsKept(docs);
    seq(|Indexed(docs)|, k requires 0 <= k < |Indexed(docs)| => Indexed(docs)[k].id)
  }

  /** Document ids are unique within a collection. */
  predicate DistinctIds(docs: seq<VideoDoc>) {
    forall a, b :: 0 <= a < b < |docs| ==> docs[a].id != docs[b].id
  }

  /** Distinct document ids stay distinct among the indexed documents. */
  lemma DistinctIdsKept(docs: seq<VideoDoc>)
    ensures DistinctIds(docs) ==> DistinctIds(Indexed(docs))
  {
    if DistinctIds(docs) {
      var r := Indexed(docs);
      assert NoDup(docs) by {
        forall a, b | 0 <= a < b < |docs| ensures docs[a] != docs[b] {
        }
      }
      FilterNoDup(docs, Indexable);
      forall a, b | 0 <= a < b < |r| ensures r[a].id != r[b].id {
        var x :| 0 <= x < |docs| && docs[x] == r[a];
        var y :| 0 <= y < |docs| && docs[y] == r[b];
      }
    }
  }
}
