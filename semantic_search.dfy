/** Semantic search over the movies: the chunk metadata built from their
    descriptions, the per-movie aggregation of chunk similarities with
    top-`limit` selection, and the whole-movie search by similarity. The
    embedding model is not modelled: the similarity of each embedding to the
    query is an input. */
module SemanticSearch {
  import opened Wrappers
  import opened Documents
  import opened Sequences
  import opened Sorting
  import opened Tables
  import SemanticChunk
  import TextPreprocessing
  import PyRange

  /** `semantic_chunk(description, 4, 1)`: four sentences per chunk, one shared. */
  const ChunkSize := 4
  const ChunkOverlap := 1

  /** A result shows at most this many characters of the description. */
  const PreviewLength := 100

  /** One entry of the chunk metadata: the movie a chunk belongs to, the
      chunk's position among that movie's chunks, and their number. */
  datatype ChunkMeta = ChunkMeta(movieIdx: int, chunkIdx: int, totalChunks: int)

  /** One result of `search_chunk`. */
  datatype ChunkResult = ChunkResult(id: int, title: string, document: string, score: real)

  /** One result of `search`. */
  datatype MovieResult = MovieResult(score: real, title: string, description: string)

  // ----- chunk metadata -----

  /** Chunking a description with four sentences per chunk and one of
      overlap never raises. */
  lemma ChunkingSucceeds(text: string)
    ensures SemanticChunk.SemanticChunkSpec(text, ChunkSize, ChunkOverlap).Success?
  {
    SemanticChunk.SpecChunksSentences(text, ChunkSize, ChunkOverlap);
    SemanticChunk.ChunksPerPosition(SemanticChunk.Sentences(text), ChunkSize, ChunkOverlap);
  }

  /** The chunks of one movie; a movie with an empty description is skipped. */
  function DocChunks(d: Document): seq<string>
  {
    if d.description == "" then []
    else
      ChunkingSucceeds(d.description);
      SemanticChunk.SemanticChunkSpec(d.description, ChunkSize, ChunkOverlap).value
  }

  /** The chunk list once the loop has seen `docs`, `chunker` giving each
      movie's chunks (`DocChunks` in the searcher; the facts below hold for
      any chunker). */
  function AllChunks(chunker: Document -> seq<string>, docs: seq<Document>): seq<string>
  {
    if docs == [] then [] else AllChunks(chunker, docs[..|docs| - 1]) + chunker(docs[|docs| - 1])
  }

  /** One more movie seen. */
  lemma AllSnoc(chunker: Document -> seq<string>, docs: seq<Document>, d: nat)
    requires d < |docs|
    ensures AllChunks(chunker, docs[..d + 1]) == AllChunks(chunker, docs[..d]) + chunker(docs[d])
    ensures AllMeta(chunker, docs[..d + 1]) ==
      AllMeta(chunker, docs[..d]) + DocMeta(docs[d].id, |AllChunks(chunker, docs[..d])|, |chunker(docs[d])|, |chunker(docs[d])|)
  {
    assert docs[..d + 1][..d] == docs[..d];
  }

  /** The first `count` metadata entries of a movie with `total` chunks
      stored from global position `base` on. */
  function DocMeta(id: int, base: int, total: int, count: nat): map<int, ChunkMeta>
  {
    if count == 0 then map[]
    else DocMeta(id, base, total, count - 1)[base + count - 1 := ChunkMeta(id, count - 1, total)]
  }

  /** A movie's entries are at `base .. base + count - 1`, entry `p` being
      chunk `p - base` of the movie. */
  lemma {:induction false} DocMetaAt(id: int, base: int, total: int, count: nat, p: int)
    ensures p in DocMeta(id, base, total, count) <==> base <= p < base + count
    ensures p in DocMeta(id, base, total, count) ==> DocMeta(id, base, total, count)[p] == ChunkMeta(id, p - base, total)
  {
    if count > 0 {
      DocMetaAt(id, base, total, count - 1, p);
    }
  }

  /** The metadata once the loop has seen `docs`. */
  function AllMeta(chunker: Document -> seq<string>, docs: seq<Document>): map<int, ChunkMeta>
  {
    if docs == [] then map[]
    else
      var d := docs[|docs| - 1];
      var n := |chunker(d)|;
      AllMeta(chunker, docs[..|docs| - 1]) + DocMeta(d.id, |AllChunks(chunker, docs[..|docs| - 1])|, n, n)
  }

  /** A movie whose description is only whitespace, or empty, has no chunks. */
  lemma BlankDescriptionNoChunks(d: Document)
    requires forall i :: 0 <= i < |d.description| ==> TextPreprocessing.IsSpace(d.description[i])
    ensures DocChunks(d) == []
  {
    if d.description != "" {
      SemanticChunk.BlankHasNoChunks(d.description, ChunkSize, ChunkOverlap);
    }
  }

  /** A movie with `n` cleaned sentences gets `ceil(n / 3)` chunks. */
  lemma {:induction false} DocChunksCount(d: Document)
    requires d.description != ""
    ensures |DocChunks(d)| == PyRange.RangeLength(|SemanticChunk.Sentences(d.description)|, ChunkSize - ChunkOverlap)
  {
    var sentences := SemanticChunk.Sentences(d.description);
    SemanticChunk.SpecChunksSentences(d.description, ChunkSize, ChunkOverlap);
    SemanticChunk.ChunksPerPosition(sentences, ChunkSize, ChunkOverlap);
    PyRange.RangeLengthIsCount(|sentences|, ChunkSize - ChunkOverlap);
  }

  /** The metadata keys are exactly the chunk positions `0 .. len(chunks) - 1`. */
  lemma {:induction false} MetaKeys(chunker: Document -> seq<string>, docs: seq<Document>, p: int)
    ensures p in AllMeta(chunker, docs) <==> 0 <= p < |AllChunks(chunker, docs)|
  {
    if docs != [] {
      var init, d := docs[..|docs| - 1], docs[|docs| - 1];
      MetaKeys(chunker, init, p);
      DocMetaAt(d.id, |AllChunks(chunker, init)|, |chunker(d)|, |chunker(d)|, p);
    }
  }

  /** The chunks and metadata of the movies before the last one stay as
      they were. */
  lemma AllMetaExtends(chunker: Document -> seq<string>, docs: seq<Document>, p: int)
    requires docs != [] && 0 <= p < |AllChunks(chunker, docs[..|docs| - 1])|
    ensures |AllChunks(chunker, docs[..|docs| - 1])| <= |AllChunks(chunker, docs)|
    ensures AllChunks(chunker, docs)[p] == AllChunks(chunker, docs[..|docs| - 1])[p]
    ensures p in AllMeta(chunker, docs[..|docs| - 1]) ==> p in AllMeta(chunker, docs) && AllMeta(chunker, docs)[p] == AllMeta(chunker, docs[..|docs| - 1])[p]
  {
    var init, d := docs[..|docs| - 1], docs[|docs| - 1];
    var n := |chunker(d)|;
    var before := AllChunks(chunker, init);
    DocMetaAt(d.id, |before|, n, n, p);
    assert AllChunks(chunker, docs) == before + chunker(d);
    assert AllMeta(chunker, docs) == AllMeta(chunker, init) + DocMeta(d.id, |before|, n, n);
  }

  /** The chunks and metadata of the last movie. */
  lemma MetaOfLastDoc(chunker: Document -> seq<string>, docs: seq<Document>, i: int)
    requires docs != [] && 0 <= i < |chunker(docs[|docs| - 1])|
    ensures |AllChunks(chunker, docs[..|docs| - 1])| + |chunker(docs[|docs| - 1])| == |AllChunks(chunker, docs)|
    ensures AllChunks(chunker, docs)[|AllChunks(chunker, docs[..|docs| - 1])| + i] == chunker(docs[|docs| - 1])[i]
    ensures |AllChunks(chunker, docs[..|docs| - 1])| + i in AllMeta(chunker, docs)
    ensures AllMeta(chunker, docs)[|AllChunks(chunker, docs[..|docs| - 1])| + i] == ChunkMeta(docs[|docs| - 1].id, i, |chunker(docs[|docs| - 1])|)
  {
    var init, d := docs[..|docs| - 1], docs[|docs| - 1];
    var n := |chunker(d)|;
    var before := AllChunks(chunker, init);
    var extra := DocMeta(d.id, |before|, n, n);
    var p := |before| + i;
    DocMetaAt(d.id, |before|, n, n, p);
    assert AllChunks(chunker, docs) == before + chunker(d);
    assert AllMeta(chunker, docs) == AllMeta(chunker, init) + extra;
    assert p in extra && extra[p] == ChunkMeta(d.id, i, n);
  }

  /** Chunk `i` of movie `j` sits right after the chunks of the movies before
      it, and its entry records that movie's id, `i` and the movie's number
      of chunks. */
  lemma {:induction false} MetaOfDoc(chunker: Document -> seq<string>, docs: seq<Document>, j: nat, i: int)
    requires j < |docs| && 0 <= i < |chunker(docs[j])|
    ensures |AllChunks(chunker, docs[..j])| + |chunker(docs[j])| <= |AllChunks(chunker, docs)|
    ensures AllChunks(chunker, docs)[|AllChunks(chunker, docs[..j])| + i] == chunker(docs[j])[i]
    ensures |AllChunks(chunker, docs[..j])| + i in AllMeta(chunker, docs)
    ensures AllMeta(chunker, docs)[|AllChunks(chunker, docs[..j])| + i] == ChunkMeta(docs[j].id, i, |chunker(docs[j])|)
  {
    var upTo := docs[..j + 1];
    assert upTo[..j] == docs[..j] && upTo[j] == docs[j];
    MetaOfLastDoc(chunker, upTo, i);
    PrefixExtends(chunker, docs, j + 1, |AllChunks(chunker, docs[..j])| + i);
  }

  /** The chunks and metadata of the first `k` movies stay as they were
      while the loop goes on. */
  lemma {:induction false} PrefixExtends(chunker: Document -> seq<string>, docs: seq<Document>, k: nat, p: int)
    requires k <= |docs| && 0 <= p < |AllChunks(chunker, docs[..k])|
    ensures |AllChunks(chunker, docs[..k])| <= |AllChunks(chunker, docs)|
    ensures AllChunks(chunker, docs)[p] == AllChunks(chunker, docs[..k])[p]
    ensures p in AllMeta(chunker, docs[..k]) ==> p in AllMeta(chunker, docs) && AllMeta(chunker, docs)[p] == AllMeta(chunker, docs[..k])[p]
    decreases |docs|
  {
    if k == |docs| {
      assert docs[..k] == docs;
    } else {
      var init := docs[..|docs| - 1];
      assert init[..k] == docs[..k];
      PrefixExtends(chunker, init, k, p);
      AllMetaExtends(chunker, docs, p);
    }
  }

  // ----- aggregation and selection -----

  /** The `(movie id, score)` of each chunk, from its metadata entry; a chunk
      without metadata raises `KeyError`. */
  function ChunkScores(meta: map<int, ChunkMeta>, scores: seq<real>): Result<seq<(int, real)>>
  {
    if scores == [] then Success([])
    else
      var n := |scores| - 1;
      match ChunkScores(meta, scores[..n])
      case Failure(e) => Failure(e)
      case Success(init) =>
        if n in meta then Success(init + [(meta[n].movieIdx, scores[n])]) else Failure(KeyError(n))
  }

  /** The chunk scores exist exactly when every chunk has metadata, and then
      each pairs the chunk's movie with its similarity. */
  lemma {:induction false} ChunkScoresFacts(meta: map<int, ChunkMeta>, scores: seq<real>)
    ensures var r := ChunkScores(meta, scores);
      && (r.Success? <==> forall i :: 0 <= i < |scores| ==> i in meta)
      && (r.Success? ==> |r.value| == |scores| && forall i :: 0 <= i < |scores| ==> r.value[i] == (meta[i].movieIdx, scores[i]))
  {
    if scores != [] {
      var n := |scores| - 1;
      ChunkScoresFacts(meta, scores[..n]);
    }
  }

  lemma {:induction false} ChunkScoresFails(meta: map<int, ChunkMeta>, scores: seq<real>, k: nat)
    requires k <= |scores| && ChunkScores(meta, scores[..k]).Failure?
    ensures ChunkScores(meta, scores) == ChunkScores(meta, scores[..k])
  {
    if k < |scores| {
      var n := |scores| - 1;
      assert scores[..n][..k] == scores[..k];
      ChunkScoresFails(meta, scores[..n], k);
    } else {
      assert scores[..k] == scores;
    }
  }

  /** One step of the aggregation loop: a new movie starts at 0, and the
      movie's score is raised to `s` if that is larger. */
  function Raise(t: Table<real>, m: int, s: real): (r: Table<real>)
    requires ValidTable(t)
    ensures ValidTable(r)
    ensures r.order == AppendNew(t.order, [m])
    ensures var prev := if m in t.entries then t.entries[m] else 0.0;
      r.entries == t.entries[m := if prev < s then s else prev]
  {
    var t1 := if m !in t.entries then Put(t, m, 0.0) else t;
    if t1.entries[m] < s then Put(t1, m, s) else t1
  }

  /** `movie_score` after the loop over `scored`. */
  function Aggregate(scored: seq<(int, real)>): (r: Table<real>)
    ensures ValidTable(r)
  {
    if scored == [] then Empty()
    else Raise(Aggregate(scored[..|scored| - 1]), scored[|scored| - 1].0, scored[|scored| - 1].1)
  }

  /** The movies of `scored`, in order. */
  function Movies(scored: seq<(int, real)>): (r: seq<int>)
    ensures |r| == |scored| && forall i :: 0 <= i < |scored| ==> r[i] == scored[i].0
  {
    if scored == [] then [] else Movies(scored[..|scored| - 1]) + [scored[|scored| - 1].0]
  }

  /** Movies appear in order of their first chunk. */
  lemma {:induction false} AggregateOrder(scored: seq<(int, real)>)
    ensures Aggregate(scored).order == Dedup(Movies(scored))
  {
    if scored != [] {
      var init := scored[..|scored| - 1];
      AggregateOrder(init);
      assert Movies(scored) == Movies(init) + [scored[|scored| - 1].0];
      AppendNewConcat([], Movies(init), [scored[|scored| - 1].0]);
    }
  }

  /** A step never lowers a score, and leaves the stepped movie at least at
      `s` and at least at 0. */
  lemma RaiseBounds(t: Table<real>, m: int, s: real, k: int)
    requires ValidTable(t)
    ensures k in t.entries ==> k in Raise(t, m, s).entries && Raise(t, m, s).entries[k] >= t.entries[k]
    ensures m in Raise(t, m, s).entries && Raise(t, m, s).entries[m] >= s
    ensures k in Raise(t, m, s).entries && k !in t.entries ==> Raise(t, m, s).entries[k] >= 0.0
  {
  }

  /** An aggregated score is at least 0 and at least every chunk score of
      the movie. */
  lemma {:induction false} AggregateBounds(scored: seq<(int, real)>, m: int)
    ensures m in Aggregate(scored).entries ==> Aggregate(scored).entries[m] >= 0.0
    ensures forall i :: 0 <= i < |scored| && scored[i].0 == m ==>
      m in Aggregate(scored).entries && Aggregate(scored).entries[m] >= scored[i].1
  {
    if scored != [] {
      var n := |scored| - 1;
      var init := scored[..n];
      AggregateBounds(init, m);
      var before := Aggregate(init);
      RaiseBounds(before, scored[n].0, scored[n].1, m);
      forall i | 0 <= i < |scored| && scored[i].0 == m
        ensures m in Aggregate(scored).entries && Aggregate(scored).entries[m] >= scored[i].1
      {
        if i < n {
          assert scored[i] == init[i];
        }
      }
    }
  }

  /** An aggregated score is 0 or one of the movie's chunk scores. */
  lemma {:induction false} AggregateAttained(scored: seq<(int, real)>, m: int)
    requires m in Aggregate(scored).entries && Aggregate(scored).entries[m] != 0.0
    ensures exists i :: 0 <= i < |scored| && scored[i] == (m, Aggregate(scored).entries[m])
  {
    var init := scored[..|scored| - 1];
    var n := |scored| - 1;
    var v := Aggregate(scored).entries[m];
    if scored[n] == (m, v) {
    } else {
      assert m in Aggregate(init).entries && Aggregate(init).entries[m] == v;
      AggregateAttained(init, m);
      var i :| 0 <= i < |init| && init[i] == (m, v);
      assert scored[i] == init[i];
    }
  }

  lemma AggregateSnoc(scored: seq<(int, real)>, j: nat)
    requires j < |scored|
    ensures Aggregate(scored[..j + 1]) == Raise(Aggregate(scored[..j]), scored[j].0, scored[j].1)
  {
    assert scored[..j + 1][..j] == scored[..j];
  }

  /** The aggregation loop. */
  method AggregateScores(scored: seq<(int, real)>) returns (movieScore: Table<real>)
    ensures movieScore == Aggregate(scored)
  {
    movieScore := Empty();
    var j := 0;
    while j < |scored|
      invariant 0 <= j <= |scored|
      invariant movieScore == Aggregate(scored[..j])
    {
      AggregateSnoc(scored, j);
      ghost var before := movieScore;
      var m, s := scored[j].0, scored[j].1;
      if m !in movieScore.entries {
        movieScore := Put(movieScore, m, 0.0);
      }
      if movieScore.entries[m] < s {
        movieScore := Put(movieScore, m, s);
      }
      assert movieScore == Raise(before, m, s);
      assert movieScore == Aggregate(scored[..j + 1]);
      j := j + 1;
      assert movieScore == Aggregate(scored[..j]);
    }
    assert scored[..j] == scored;
  }

  /** `{"id", "title", "document", "score"}` for a movie. */
  function Preview(movie: Document, score: real): (r: ChunkResult)
    ensures r.id == movie.id && r.title == movie.title && r.score == score
    ensures |r.document| <= PreviewLength && |r.document| <= |movie.description|
    ensures r.document == movie.description[..|r.document|]
  {
    ChunkResult(movie.id, movie.title, PyPrefix(movie.description, PreviewLength), score)
  }

  /** `document_map[movie_idx]`: the movie stored under that id. */
  function ByMap(documentMap: map<int, Document>): int -> Result<Document>
  {
    (m: int) => if m in documentMap then Success(documentMap[m]) else Failure(KeyError(m))
  }

  /** `documents[movie_idx]`: Python list indexing, which counts from the end
      for a negative index. */
  function ByPosition(documents: seq<Document>): int -> Result<Document>
  {
    (m: int) =>
      if 0 <= m < |documents| then Success(documents[m])
      else if -|documents| <= m < 0 then Success(documents[|documents| + m])
      else Failure(IndexError)
  }

  /** The results for `range(n)` over the ranked movies: reading past the
      ranking raises `IndexError`, a failed lookup raises its error. */
  function Pick(lookup: int -> Result<Document>, ranked: seq<(int, real)>, n: nat): Result<seq<ChunkResult>>
  {
    if n == 0 then Success([])
    else
      match Pick(lookup, ranked, n - 1)
      case Failure(e) => Failure(e)
      case Success(init) =>
        if n - 1 >= |ranked| then Failure(IndexError)
        else
          var (m, s) := ranked[n - 1];
          var movie := lookup(m);
          if movie.Failure? then Failure(movie.error) else Success(init + [Preview(movie.value, s)])
  }

  /** `n` results exist exactly when the ranking has `n` movies and each of
      the first `n` is found; result `i` previews the `i`-th found movie with
      its score. Reading past the ranking with every movie found raises
      `IndexError`. */
  lemma {:induction false} PickFacts(lookup: int -> Result<Document>, ranked: seq<(int, real)>, n: nat)
    ensures var r := Pick(lookup, ranked, n);
      && (r.Success? <==> n <= |ranked| && forall i :: 0 <= i < n ==> lookup(ranked[i].0).Success?)
      && (r.Success? ==> |r.value| == n && forall i :: 0 <= i < n ==> r.value[i] == Preview(lookup(ranked[i].0).value, ranked[i].1))
    ensures n > |ranked| && (forall i :: 0 <= i < |ranked| ==> lookup(ranked[i].0).Success?) ==> Pick(lookup, ranked, n) == Failure(IndexError)
  {
    if n > 0 {
      PickFacts(lookup, ranked, n - 1);
      if n - 1 > |ranked| {
        PickFails(lookup, ranked, |ranked| + 1, n - 1);
        PickFacts(lookup, ranked, |ranked| + 1);
      }
    }
  }

  lemma {:induction false} PickFails(lookup: int -> Result<Document>, ranked: seq<(int, real)>, k: nat, n: nat)
    requires k <= n && Pick(lookup, ranked, k).Failure?
    ensures Pick(lookup, ranked, n) == Pick(lookup, ranked, k)
  {
    if k < n {
      PickFails(lookup, ranked, k, n - 1);
    }
  }

  /** The first component, the movie. */
  function MovieOf(p: (int, real)): int
  {
    p.0
  }

  /** The second component, the score. */
  function Score(p: (int, real)): real
  {
    p.1
  }

  /** The movies ranked by aggregated score, best first, ties in order of
      first appearance. */
  function Ranking(scored: seq<(int, real)>): seq<(int, real)>
  {
    SortDesc(Items(Aggregate(scored)), Score)
  }

  /** `search_chunk` given each chunk's similarity to the query, the movie
      looked up by `lookup`. */
  function SearchChunkWith(lookup: int -> Result<Document>, meta: map<int, ChunkMeta>, scores: seq<real>, limit: int): Result<seq<ChunkResult>>
  {
    match ChunkScores(meta, scores)
    case Failure(e) => Failure(e)
    case Success(scored) => Pick(lookup, Ranking(scored), if limit > 0 then limit else 0)
  }

  /** `search_chunk` with the movie looked up by its id. */
  function SearchChunkSpec(meta: map<int, ChunkMeta>, documentMap: map<int, Document>, scores: seq<real>, limit: int): Result<seq<ChunkResult>>
  {
    SearchChunkWith(ByMap(documentMap), meta, scores, limit)
  }

  /** `search_chunk` as written, the movie taken from the list by position. */
  function SearchChunkAsWritten(meta: map<int, ChunkMeta>, documents: seq<Document>, scores: seq<real>, limit: int): Result<seq<ChunkResult>>
  {
    SearchChunkWith(ByPosition(documents), meta, scores, limit)
  }

  /** The items of a table list each key once. */
  lemma ItemsDistinct(t: Table<real>)
    requires ValidTable(t)
    ensures DistinctBy(Items(t), MovieOf)
  {
    var items := Items(t);
    forall i, j | 0 <= i < j < |items| ensures MovieOf(items[i]) != MovieOf(items[j]) {
      assert items[i].0 == t.order[i] && items[j].0 == t.order[j];
    }
  }

  /** Each ranked movie carries its aggregated score. */
  lemma RankingEntry(scored: seq<(int, real)>, i: int)
    requires 0 <= i < |Ranking(scored)|
    ensures Ranking(scored)[i].0 in Aggregate(scored).entries
    ensures Ranking(scored)[i].1 == Aggregate(scored).entries[Ranking(scored)[i].0]
  {
    var items := Items(Aggregate(scored));
    var r := Ranking(scored);
    assert r[i] in multiset(items);
    var j :| 0 <= j < |items| && items[j] == r[i];
  }

  /** The ranking is sorted by score, holds each movie once, and gives each
      movie its aggregated score. */
  lemma {:induction false} RankingFacts(scored: seq<(int, real)>)
    ensures var r, t := Ranking(scored), Aggregate(scored);
      && SortedDesc(r, Score)
      && |r| == |Dedup(Movies(scored))|
      && DistinctBy(r, MovieOf)
      && forall i :: 0 <= i < |r| ==> r[i].0 in t.entries && r[i].1 == t.entries[r[i].0]
  {
    var t := Aggregate(scored);
    AggregateOrder(scored);
    ItemsDistinct(t);
    SortDescDistinctBy(Items(t), Score, MovieOf);
    var r := Ranking(scored);
    forall i | 0 <= i < |r| ensures r[i].0 in t.entries && r[i].1 == t.entries[r[i].0] {
      RankingEntry(scored, i);
    }
  }

  /** What `search_chunk` returns, its movies looked up by id: exactly
      `limit` results, scores never increasing, each movie once. */
  lemma SearchChunkShape(meta: map<int, ChunkMeta>, documentMap: map<int, Document>, scores: seq<real>, limit: int)
    requires forall m :: m in documentMap ==> documentMap[m].id == m
    requires SearchChunkSpec(meta, documentMap, scores, limit).Success?
    ensures var r := SearchChunkSpec(meta, documentMap, scores, limit).value;
      && |r| == (if limit > 0 then limit else 0)
      && (forall i, j :: 0 <= i < j < |r| ==> r[i].score >= r[j].score)
      && (forall i, j :: 0 <= i < j < |r| ==> r[i].id != r[j].id)
  {
    var scored := ChunkScores(meta, scores).value;
    var ranked := Ranking(scored);
    var n := if limit > 0 then limit else 0;
    RankingFacts(scored);
    PickFacts(ByMap(documentMap), ranked, n);
    var r := SearchChunkSpec(meta, documentMap, scores, limit).value;
    forall i | 0 <= i < n ensures r[i].id == ranked[i].0 && r[i].score == ranked[i].1 {
      assert ranked[i].0 in documentMap;
    }
    forall i, j | 0 <= i < j < n ensures r[i].score >= r[j].score {
      assert Score(ranked[i]) >= Score(ranked[j]);
    }
    forall i, j | 0 <= i < j < n ensures r[i].id != r[j].id {
      assert MovieOf(ranked[i]) != MovieOf(ranked[j]);
    }
  }

  /** Each result of `search_chunk` is a known movie, with its title, at
      most 100 characters of its description, and as score the movie's best
      chunk score floored at 0. */
  lemma SearchChunkEntry(meta: map<int, ChunkMeta>, documentMap: map<int, Document>, scores: seq<real>, limit: int, i: int)
    requires forall m :: m in documentMap ==> documentMap[m].id == m
    requires SearchChunkSpec(meta, documentMap, scores, limit).Success?
    requires 0 <= i < |SearchChunkSpec(meta, documentMap, scores, limit).value|
    ensures var x, t := SearchChunkSpec(meta, documentMap, scores, limit).value[i], Aggregate(ChunkScores(meta, scores).value);
      && x.id in t.entries
      && x.score == t.entries[x.id]
      && x.id in documentMap
      && x.title == documentMap[x.id].title
      && |x.document| <= PreviewLength
  {
    var scored := ChunkScores(meta, scores).value;
    var ranked := Ranking(scored);
    var lookup := ByMap(documentMap);
    PickFacts(lookup, ranked, if limit > 0 then limit else 0);
    var x := SearchChunkSpec(meta, documentMap, scores, limit).value[i];
    var m := ranked[i].0;
    assert lookup(m).Success?;
    assert x == Preview(documentMap[m], ranked[i].1);
    RankingEntry(scored, i);
  }

  /** When every scored movie is known, `search_chunk` succeeds exactly
      when `limit` does not exceed the number of scored movies, and raises
      `IndexError` otherwise. */
  lemma SearchChunkSucceeds(meta: map<int, ChunkMeta>, documentMap: map<int, Document>, scores: seq<real>, limit: int)
    requires ChunkScores(meta, scores).Success?
    requires forall m :: m in Aggregate(ChunkScores(meta, scores).value).entries ==> m in documentMap
    ensures var r, t := SearchChunkSpec(meta, documentMap, scores, limit), Aggregate(ChunkScores(meta, scores).value);
      && (r.Success? <==> limit <= |t.order|)
      && (r.Failure? ==> r.error == IndexError)
  {
    var scored := ChunkScores(meta, scores).value;
    var ranked := Ranking(scored);
    var lookup := ByMap(documentMap);
    forall i | 0 <= i < |ranked| ensures lookup(ranked[i].0).Success? {
      RankingEntry(scored, i);
    }
    PickFacts(lookup, ranked, if limit > 0 then limit else 0);
  }

  /** `document_map[doc_id]` for the first `n` ranked `(score, id)` pairs. */
  function PickMovies(documentMap: map<int, Document>, ranked: seq<(real, int)>, n: nat): Result<seq<MovieResult>>
  {
    if n == 0 then Success([])
    else
      match PickMovies(documentMap, ranked, n - 1)
      case Failure(e) => Failure(e)
      case Success(init) =>
        if n - 1 >= |ranked| then Failure(IndexError)
        else
          var (s, id) := ranked[n - 1];
          if id in documentMap then Success(init + [MovieResult(s, documentMap[id].title, documentMap[id].description)])
          else Failure(KeyError(id))
  }

  lemma {:induction false} PickMoviesFails(documentMap: map<int, Document>, ranked: seq<(real, int)>, k: nat, n: nat)
    requires k <= n && PickMovies(documentMap, ranked, k).Failure?
    ensures PickMovies(documentMap, ranked, n) == PickMovies(documentMap, ranked, k)
  {
    if k < n {
      PickMoviesFails(documentMap, ranked, k, n - 1);
    }
  }

  /** One more movie picked. */
  lemma PickMoviesNext(documentMap: map<int, Document>, ranked: seq<(real, int)>, k: nat, results: seq<MovieResult>)
    requires PickMovies(documentMap, ranked, k) == Success(results)
    requires k < |ranked| && ranked[k].1 in documentMap
    ensures var (s, id) := ranked[k];
      PickMovies(documentMap, ranked, k + 1) == Success(results + [MovieResult(s, documentMap[id].title, documentMap[id].description)])
  {
  }

  /** The pick that raises: past the end of the ranking, or an unknown id. */
  lemma PickMoviesStop(documentMap: map<int, Document>, ranked: seq<(real, int)>, k: nat, n: nat, results: seq<MovieResult>)
    requires k < n && PickMovies(documentMap, ranked, k) == Success(results)
    requires k >= |ranked| || ranked[k].1 !in documentMap
    ensures PickMovies(documentMap, ranked, n) == if k >= |ranked| then Failure(IndexError) else Failure(KeyError(ranked[k].1))
  {
    PickMoviesFails(documentMap, ranked, k + 1, n);
  }

  /** `(similarity, i + 1)` for the embedding at position `i`. */
  function SimilarityPairs(similarities: seq<real>): (r: seq<(real, int)>)
    ensures |r| == |similarities|
    ensures forall i :: 0 <= i < |r| ==> r[i] == (similarities[i], i + 1)
  {
    if similarities == [] then []
    else SimilarityPairs(similarities[..|similarities| - 1]) + [(similarities[|similarities| - 1], |similarities|)]
  }

  /** One more similarity paired with its 1-based id. */
  lemma SimilarityPairsNext(similarities: seq<real>, i: nat)
    requires i < |similarities|
    ensures SimilarityPairs(similarities[..i + 1]) == SimilarityPairs(similarities[..i]) + [(similarities[i], i + 1)]
  {
    assert similarities[..i + 1][..i] == similarities[..i];
  }

  /** `search` given each movie embedding's similarity to the query. */
  function SearchSpec(documentMap: map<int, Document>, similarities: seq<real>, limit: int): Result<seq<MovieResult>>
  {
    PickMovies(documentMap, SortPairsDesc(SimilarityPairs(similarities)), if limit > 0 then limit else 0)
  }

  /** `search` succeeds exactly when `limit` does not exceed the number of
      embeddings and the ids of the chosen positions are known. */
  lemma SearchSucceeds(documentMap: map<int, Document>, similarities: seq<real>, limit: int)
    ensures var r, ranked, n := SearchSpec(documentMap, similarities, limit), SortPairsDesc(SimilarityPairs(similarities)), if limit > 0 then limit else 0;
      && |ranked| == |similarities|
      && (r.Success? <==> n <= |ranked| && forall i :: 0 <= i < n ==> ranked[i].1 in documentMap)
  {
    PickMoviesFacts(documentMap, SortPairsDesc(SimilarityPairs(similarities)), if limit > 0 then limit else 0);
  }

  /** What `search` returns: `limit` results with non-increasing scores. */
  lemma SearchShape(documentMap: map<int, Document>, similarities: seq<real>, limit: int)
    requires SearchSpec(documentMap, similarities, limit).Success?
    ensures var r := SearchSpec(documentMap, similarities, limit).value;
      && |r| == (if limit > 0 then limit else 0)
      && forall i, j :: 0 <= i < j < |r| ==> r[i].score >= r[j].score
  {
    var ranked := SortPairsDesc(SimilarityPairs(similarities));
    var n := if limit > 0 then limit else 0;
    PickMoviesFacts(documentMap, ranked, n);
    var r := SearchSpec(documentMap, similarities, limit).value;
    forall i, j | 0 <= i < j < n ensures r[i].score >= r[j].score {
      assert PairGe(ranked[i], ranked[j]);
    }
  }

  /** Result `i` of `search` is the movie with id `p + 1` for an embedding
      position `p` whose similarity is the result's score. */
  lemma SearchEntry(documentMap: map<int, Document>, similarities: seq<real>, limit: int, i: int)
    requires SearchSpec(documentMap, similarities, limit).Success?
    requires 0 <= i < |SearchSpec(documentMap, similarities, limit).value|
    ensures var ranked := SortPairsDesc(SimilarityPairs(similarities));
      i < |ranked| &&
      var id := ranked[i].1;
      && 1 <= id <= |similarities|
      && id in documentMap
      && SearchSpec(documentMap, similarities, limit).value[i] == MovieResult(similarities[id - 1], documentMap[id].title, documentMap[id].description)
  {
    var ranked := SortPairsDesc(SimilarityPairs(similarities));
    PickMoviesFacts(documentMap, ranked, if limit > 0 then limit else 0);
    RankedPair(similarities, i);
  }

  /** A ranked pair is `(similarities[p], p + 1)` for some position `p`. */
  lemma RankedPair(similarities: seq<real>, i: int)
    requires 0 <= i < |SortPairsDesc(SimilarityPairs(similarities))|
    ensures var ranked := SortPairsDesc(SimilarityPairs(similarities));
      1 <= ranked[i].1 <= |similarities| && ranked[i].0 == similarities[ranked[i].1 - 1]
  {
    var ranked := SortPairsDesc(SimilarityPairs(similarities));
    assert ranked[i] in multiset(SimilarityPairs(similarities));
    var j :| 0 <= j < |similarities| && SimilarityPairs(similarities)[j] == ranked[i];
  }

  lemma {:induction false} PickMoviesFacts(documentMap: map<int, Document>, ranked: seq<(real, int)>, n: nat)
    ensures var r := PickMovies(documentMap, ranked, n);
      && (r.Success? <==> n <= |ranked| && forall i :: 0 <= i < n ==> ranked[i].1 in documentMap)
      && (r.Success? ==> |r.value| == n && forall i :: 0 <= i < n ==>
            r.value[i] == MovieResult(ranked[i].0, documentMap[ranked[i].1].title, documentMap[ranked[i].1].description))
  {
    if n > 0 {
      PickMoviesFacts(documentMap, ranked, n - 1);
    }
  }

  /** The metadata entries of one movie's chunks, added from `base` on. */
  method RecordChunks(meta: map<int, ChunkMeta>, id: int, base: int, total: nat) returns (r: map<int, ChunkMeta>)
    ensures r == meta + DocMeta(id, base, total, total)
  {
    r := meta;
    var i := 0;
    while i < total
      invariant 0 <= i <= total
      invariant r == meta + DocMeta(id, base, total, i)
    {
      r := r[base + i := ChunkMeta(id, i, total)];
      i := i + 1;
    }
  }

  /** The chunking loop of `build_chunk_embeddings`: the chunks of every
      movie with a description, and where each chunk came from. */
  method ChunkAll(docs: seq<Document>) returns (chunks: seq<string>, chunkMeta: map<int, ChunkMeta>)
    ensures chunks == AllChunks(DocChunks, docs)
    ensures chunkMeta == AllMeta(DocChunks, docs)
  {
    chunks := [];
    chunkMeta := map[];
    var d := 0;
    while d < |docs|
      invariant 0 <= d <= |docs|
      invariant chunks == AllChunks(DocChunks, docs[..d])
      invariant chunkMeta == AllMeta(DocChunks, docs[..d])
    {
      var doc := docs[d];
      AllSnoc(DocChunks, docs, d);
      if doc.description == "" {
        assert chunkMeta + DocMeta(doc.id, |chunks|, 0, 0) == chunkMeta;
        d := d + 1;
        continue;
      }
      ChunkingSucceeds(doc.description);
      var currChunks := SemanticChunk.Chunk(doc.description, ChunkSize, ChunkOverlap);
      var curr := currChunks.value;
      assert curr == DocChunks(doc);
      chunks := chunks + curr;
      chunkMeta := RecordChunks(chunkMeta, doc.id, |chunks| - |curr|, |curr|);
      d := d + 1;
    }
    assert docs[..d] == docs;
  }

  /** The chunked semantic searcher: the movies, the id-to-movie map and
      the chunk metadata, keyed by global chunk position. */
  class ChunkedSemanticSearch {
    var documents: seq<Document>
    var documentMap: map<int, Document>
    var chunkMetadata: map<int, ChunkMeta>

    /** A searcher with nothing loaded. */
    constructor ()
      ensures documents == [] && documentMap == map[] && chunkMetadata == map[]
    {
      documents := [];
      documentMap := map[];
      chunkMetadata := map[];
    }

    /** `document_map[doc["id"]] = doc` for each movie. */
    method RegisterDocuments(docs: seq<Document>)
      modifies this`documentMap
      ensures documentMap == Register(old(documentMap), docs)
    {
      var k := 0;
      while k < |docs|
        invariant 0 <= k <= |docs|
        invariant documentMap == Register(old(documentMap), docs[..k])
      {
        assert docs[..k + 1][..k] == docs[..k];
        documentMap := documentMap[docs[k].id := docs[k]];
        k := k + 1;
      }
      assert docs[..k] == docs;
    }

    /** `build_chunk_embeddings` without the embedding and the cache files:
        registers the movies, chunks each non-empty description and records
        where each chunk came from. Returns the chunks. */
    method BuildChunkEmbeddings(docs: seq<Document>) returns (chunks: seq<string>)
      modifies this
      ensures documents == docs
      ensures documentMap == Register(old(documentMap), docs)
      ensures chunks == AllChunks(DocChunks, docs)
      ensures chunkMetadata == AllMeta(DocChunks, docs)
    {
      documents := docs;
      RegisterDocuments(docs);
      var chunkMeta;
      chunks, chunkMeta := ChunkAll(docs);
      chunkMetadata := chunkMeta;
    }

    /** The chunk loop of `search_chunk`: each chunk's movie paired with its
        similarity. */
    method ScoreChunks(chunkScores: seq<real>) returns (r: Result<seq<(int, real)>>)
      ensures r == ChunkScores(chunkMetadata, chunkScores)
    {
      var scored: seq<(int, real)> := [];
      var i := 0;
      while i < |chunkScores|
        invariant 0 <= i <= |chunkScores|
        invariant ChunkScores(chunkMetadata, chunkScores[..i]) == Success(scored)
      {
        assert chunkScores[..i + 1][..i] == chunkScores[..i];
        if i !in chunkMetadata {
          ChunkScoresFails(chunkMetadata, chunkScores, i + 1);
          return Failure(KeyError(i));
        }
        scored := scored + [(chunkMetadata[i].movieIdx, chunkScores[i])];
        i := i + 1;
      }
      assert chunkScores[..i] == chunkScores;
      return Success(scored);
    }

    /** The result loop of `search_chunk` over `range(n)`. */
    method PickResults(ranked: seq<(int, real)>, n: nat) returns (r: Result<seq<ChunkResult>>)
      ensures r == Pick(ByMap(documentMap), ranked, n)
    {
      var result: seq<ChunkResult> := [];
      var k := 0;
      while k < n
        invariant 0 <= k <= n
        invariant Pick(ByMap(documentMap), ranked, k) == Success(result)
      {
        if k >= |ranked| {
          PickFails(ByMap(documentMap), ranked, k + 1, n);
          return Failure(IndexError);
        }
        var (m, s) := ranked[k];
        if m !in documentMap {
          PickFails(ByMap(documentMap), ranked, k + 1, n);
          return Failure(KeyError(m));
        }
        var movie := documentMap[m];
        result := result + [Preview(movie, s)];
        k := k + 1;
      }
      return Success(result);
    }

    /** `search_chunk` given each chunk's similarity to the query, the movie
        of each result looked up by its id. */
    method SearchChunk(chunkScores: seq<real>, limit: int) returns (r: Result<seq<ChunkResult>>)
      ensures r == SearchChunkSpec(chunkMetadata, documentMap, chunkScores, limit)
    {
      var scored := ScoreChunks(chunkScores);
      if scored.Failure? {
        return Failure(scored.error);
      }
      var movieScore := AggregateScores(scored.value);
      var ranked := SortDesc(Items(movieScore), Score);
      r := PickResults(ranked, if limit > 0 then limit else 0);
    }

    /** `search` given each movie embedding's similarity to the query:
        position `i` stands for movie id `i + 1`. */
    method Search(similarities: seq<real>, limit: int) returns (r: Result<seq<MovieResult>>)
      ensures r == SearchSpec(documentMap, similarities, limit)
    {
      var similarityScores: seq<(real, int)> := [];
      var i := 0;
      while i < |similarities|
        invariant 0 <= i <= |similarities|
        invariant similarityScores == SimilarityPairs(similarities[..i])
      {
        SimilarityPairsNext(similarities, i);
        similarityScores := similarityScores + [(similarities[i], i + 1)];
        i := i + 1;
      }
      assert similarities[..i] == similarities;
      var ranked := SortPairsDesc(similarityScores);
      var n := if limit > 0 then limit else 0;
      var results: seq<MovieResult> := [];
      var k := 0;
      while k < n
        invariant 0 <= k <= n
        invariant PickMovies(documentMap, ranked, k) == Success(results)
      {
        if k >= |ranked| {
          PickMoviesStop(documentMap, ranked, k, n, results);
          return Failure(IndexError);
        }
        var (score, docId) := ranked[k];
        if docId !in documentMap {
          PickMoviesStop(documentMap, ranked, k, n, results);
          return Failure(KeyError(docId));
        }
        PickMoviesNext(documentMap, ranked, k, results);
        results := results + [MovieResult(score, documentMap[docId].title, documentMap[docId].description)];
        k := k + 1;
      }
      return Success(results);
    }
  }

  // ----- the movie lookup in search_chunk -----

  /** Looking a movie up by position in the list is not looking it up by
      id: with movies 1 "A" and 2 "B" and one chunk of movie 1, the result
      describes movie 2. */
  lemma PositionLookupPicksWrongMovie()
    ensures var docs := [Document(1, "A", "a"), Document(2, "B", "b")];
      var meta := map[0 := ChunkMeta(1, 0, 1)];
      && SearchChunkAsWritten(meta, docs, [0.5], 1) == Success([ChunkResult(2, "B", "b", 0.5)])
      && SearchChunkSpec(meta, Register(map[], docs), [0.5], 1) == Success([ChunkResult(1, "A", "a", 0.5)])
  {
    var docs := [Document(1, "A", "a"), Document(2, "B", "b")];
    TwoMoviesRegister();
    OneChunkSearch(ByPosition(docs), 1);
    OneChunkSearch(ByMap(Register(map[], docs)), 1);
    assert ByPosition(docs)(1) == Success(docs[1]);
    assert ByMap(Register(map[], docs))(1) == Success(docs[0]);
    assert PyPrefix("b", PreviewLength) == "b";
    assert PyPrefix("a", PreviewLength) == "a";
  }

  /** With movie ids `1 .. n` the largest id is past the end of the list. */
  lemma PositionLookupRaisesForLastId()
    ensures var docs := [Document(1, "A", "a"), Document(2, "B", "b")];
      var meta := map[0 := ChunkMeta(2, 0, 1)];
      && SearchChunkAsWritten(meta, docs, [0.5], 1) == Failure(IndexError)
      && SearchChunkSpec(meta, Register(map[], docs), [0.5], 1) == Success([ChunkResult(2, "B", "b", 0.5)])
  {
    var docs := [Document(1, "A", "a"), Document(2, "B", "b")];
    TwoMoviesRegister();
    OneChunkSearch(ByPosition(docs), 2);
    OneChunkSearch(ByMap(Register(map[], docs)), 2);
    assert ByPosition(docs)(2) == Failure(IndexError);
    assert ByMap(Register(map[], docs))(2) == Success(docs[1]);
    assert PyPrefix("b", PreviewLength) == "b";
  }

  /** Registering the two example movies. */
  lemma TwoMoviesRegister()
    ensures var docs := [Document(1, "A", "a"), Document(2, "B", "b")];
      Register(map[], docs) == map[1 := docs[0], 2 := docs[1]]
  {
    var docs := [Document(1, "A", "a"), Document(2, "B", "b")];
    assert docs[..1] == [docs[0]];
    assert docs[..1][..0] == [];
  }

  /** One chunk, of movie `m`, with similarity 0.5, asked for one result:
      the result previews whatever `lookup` finds for `m`. */
  lemma OneChunkSearch(lookup: int -> Result<Document>, m: int)
    ensures var r := lookup(m);
      SearchChunkWith(lookup, map[0 := ChunkMeta(m, 0, 1)], [0.5], 1)
        == if r.Failure? then Failure(r.error) else Success([Preview(r.value, 0.5)])
  {
    OneChunkScores(m);
    OneChunkRanking(m);
    var meta := map[0 := ChunkMeta(m, 0, 1)];
    var scores: seq<real> := [0.5];
    var ranked: seq<(int, real)> := [(m, 0.5)];
    assert SearchChunkWith(lookup, meta, scores, 1) == Pick(lookup, ranked, 1);
    assert Pick(lookup, ranked, 0) == Success([]);
    var r := lookup(m);
    if r.Success? {
      var none: seq<ChunkResult> := [];
      assert none + [Preview(r.value, 0.5)] == [Preview(r.value, 0.5)];
    }
  }

  /** The only chunk of movie `m` scores it. */
  lemma OneChunkScores(m: int)
    ensures ChunkScores(map[0 := ChunkMeta(m, 0, 1)], [0.5]) == Success([(m, 0.5)])
  {
    var meta := map[0 := ChunkMeta(m, 0, 1)];
    var scores: seq<real> := [0.5];
    assert scores[..0] == [];
    var none: seq<real> := [];
    assert ChunkScores(meta, none) == Success([]);
    var scored: seq<(int, real)> := [(m, 0.5)];
    assert ChunkScores(meta, scores).value == scored;
  }

  /** A single scored chunk ranks its movie alone. */
  lemma OneChunkRanking(m: int)
    ensures Ranking([(m, 0.5)]) == [(m, 0.5)]
  {
    var scored: seq<(int, real)> := [(m, 0.5)];
    assert scored[..0] == [];
    var t := Aggregate(scored);
    var none: seq<int> := [];
    var one: seq<int> := [m];
    assert one[..0] == [];
    assert AppendNew(none, one) == one;
    var empty: seq<(int, real)> := [];
    assert Aggregate(empty) == Empty();
    AggregateSnoc(scored, 0);
    assert scored[..1] == scored;
    assert t == Raise(Empty(), m, 0.5);
    assert t.order == one;
    assert t.entries == map[m := 0.5];
    assert Items(t) == scored;
  }
}
