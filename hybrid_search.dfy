/** Hybrid search: the BM25 ranking and the chunked semantic ranking of the
    same query are merged into one table keyed by movie id, scored either by
    a weighted combination of normalized scores or by reciprocal rank
    fusion, sorted best first and cut to `limit`. Both rankers and the score
    normalization are inputs of the searcher. */
module HybridSearch {
  import opened Wrappers
  import opened Documents
  import opened Sequences
  import opened Sorting
  import opened Tables
  import opened ScoreUtils
  import opened SemanticSearch

  /** Each ranker is asked for `limit * 50` candidates. */
  const CandidateFactor := 50

  /** `normalize_score`: a list of scores to a list of the same length. */
  type Normalizer = f: seq<real> -> seq<real> | forall s :: |f(s)| == |s| witness (s: seq<real>) => s

  /** `normalize_score(scores) if scores else []`. */
  function Normalized(normalize: Normalizer, scores: seq<real>): (r: seq<real>)
    ensures |r| == |scores|
    ensures scores == [] ==> r == []
  {
    if scores != [] then normalize(scores) else []
  }

  /** The ids of a list of `(id, score)` pairs, in order. */
  function HitIds(hits: seq<(int, real)>): (r: seq<int>)
    ensures |r| == |hits| && forall i :: 0 <= i < |hits| ==> r[i] == hits[i].0
  {
    if hits == [] then [] else HitIds(hits[..|hits| - 1]) + [hits[|hits| - 1].0]
  }

  /** The scores of a list of `(id, score)` pairs, in order. */
  function HitScores(hits: seq<(int, real)>): (r: seq<real>)
    ensures |r| == |hits| && forall i :: 0 <= i < |hits| ==> r[i] == hits[i].1
  {
    if hits == [] then [] else HitScores(hits[..|hits| - 1]) + [hits[|hits| - 1].1]
  }

  /** The ids of the semantic results, in order. */
  function ResultIds(results: seq<ChunkResult>): (r: seq<int>)
    ensures |r| == |results| && forall i :: 0 <= i < |results| ==> r[i] == results[i].id
  {
    if results == [] then [] else ResultIds(results[..|results| - 1]) + [results[|results| - 1].id]
  }

  /** The scores of the semantic results, in order. */
  function ResultScores(results: seq<ChunkResult>): (r: seq<real>)
    ensures |r| == |results| && forall i :: 0 <= i < |results| ==> r[i] == results[i].score
  {
    if results == [] then [] else ResultScores(results[..|results| - 1]) + [results[|results| - 1].score]
  }

  /** Each id with the score at the same position. */
  function Zip(ids: seq<int>, scores: seq<real>): (r: seq<(int, real)>)
    requires |ids| == |scores|
    ensures |r| == |ids| && forall i :: 0 <= i < |ids| ==> r[i] == (ids[i], scores[i])
  {
    if ids == [] then [] else Zip(ids[..|ids| - 1], scores[..|ids| - 1]) + [(ids[|ids| - 1], scores[|ids| - 1])]
  }

  lemma HitIdsSnoc(hits: seq<(int, real)>, n: nat)
    requires n < |hits|
    ensures HitIds(hits[..n + 1]) == HitIds(hits[..n]) + [hits[n].0]
  {
    assert hits[..n + 1][..n] == hits[..n];
  }

  /** The last occurrence of the element just appended is the end. */
  lemma LastIndexOfLast(s: seq<int>, y: int)
    ensures LastIndexOf(s + [y], y) == |s|
  {
  }

  // ----- weighted search -----

  /** One entry of `document_scores`. */
  datatype WeightedRow = WeightedRow(document: Document, bm25Score: real, semanticScore: real)

  /** One result of `weighted_search`. */
  datatype WeightedResult = WeightedResult(id: int, title: string, hybridScore: real, bm25Score: real, semanticScore: real, document: string)

  /** The table after the BM25 loop over `(id, normalized score)` pairs: each
      id gets its movie, its score and semantic score 0; an unknown id raises
      `KeyError`. */
  function WeightedBm25(docmap: map<int, Document>, scored: seq<(int, real)>): (r: Result<Table<WeightedRow>>)
    ensures r.Success? ==> ValidTable(r.value)
  {
    if scored == [] then Success(Empty())
    else
      var n := |scored| - 1;
      match WeightedBm25(docmap, scored[..n])
      case Failure(e) => Failure(e)
      case Success(t) =>
        var (id, s) := scored[n];
        if id in docmap then Success(Put(t, id, WeightedRow(docmap[id], s, 0.0))) else Failure(KeyError(id))
  }

  /** The table after the semantic loop over `(id, normalized score)` pairs,
      starting from `t0`: a new id gets its movie, BM25 score 0 and its
      semantic score; a present id has its semantic score replaced. */
  function WeightedSemantic(t0: Table<WeightedRow>, docmap: map<int, Document>, scored: seq<(int, real)>): (r: Result<Table<WeightedRow>>)
    requires ValidTable(t0)
    ensures r.Success? ==> ValidTable(r.value)
  {
    if scored == [] then Success(t0)
    else
      var n := |scored| - 1;
      match WeightedSemantic(t0, docmap, scored[..n])
      case Failure(e) => Failure(e)
      case Success(t) =>
        var (id, s) := scored[n];
        if id !in t.entries then
          if id in docmap then Success(Put(t, id, WeightedRow(docmap[id], 0.0, s))) else Failure(KeyError(id))
        else Success(Put(t, id, t.entries[id].(semanticScore := s)))
  }

  /** `document_scores` once both loops are done, from the raw ranker
      outputs. */
  function WeightedTable(docmap: map<int, Document>, bm25Hits: seq<(int, real)>, semanticHits: seq<ChunkResult>, normalize: Normalizer): (r: Result<Table<WeightedRow>>)
    ensures r.Success? ==> ValidTable(r.value)
  {
    var bm25 := Zip(HitIds(bm25Hits), Normalized(normalize, HitScores(bm25Hits)));
    var semantic := Zip(ResultIds(semanticHits), Normalized(normalize, ResultScores(semanticHits)));
    match WeightedBm25(docmap, bm25)
    case Failure(e) => Failure(e)
    case Success(t) => WeightedSemantic(t, docmap, semantic)
  }

  /** The result built for one table entry. */
  function WeightedResultOf(id: int, row: WeightedRow, alpha: real): WeightedResult
  {
    WeightedResult(id, row.document.title, HybridScore(row.bm25Score, row.semanticScore, alpha), row.bm25Score, row.semanticScore, row.document.description)
  }

  /** The results list before sorting: one result per entry, in insertion
      order. */
  function WeightedResults(t: Table<WeightedRow>, alpha: real): (r: seq<WeightedResult>)
    requires ValidTable(t)
    ensures |r| == |t.order|
    ensures forall i :: 0 <= i < |r| ==> t.order[i] in t.entries && r[i] == WeightedResultOf(t.order[i], t.entries[t.order[i]], alpha)
  {
    seq(|t.order|, i requires 0 <= i < |t.order| => var id := t.order[i]; assert id in t.order; WeightedResultOf(id, t.entries[id], alpha))
  }

  /** The sort key of the weighted results. */
  function HybridKey(r: WeightedResult): real
  {
    r.hybridScore
  }

  /** The id of a weighted result. */
  function WeightedId(r: WeightedResult): int
  {
    r.id
  }

  /** `weighted_search` given what the two rankers returned. */
  function WeightedSpec(docmap: map<int, Document>, bm25Hits: seq<(int, real)>, semanticHits: seq<ChunkResult>, normalize: Normalizer, alpha: real, limit: int): Result<seq<WeightedResult>>
  {
    match WeightedTable(docmap, bm25Hits, semanticHits, normalize)
    case Failure(e) => Failure(e)
    case Success(t) => Success(TopDesc(WeightedResults(t, alpha), HybridKey, limit))
  }

  /** Failures of the BM25 loop are final. */
  lemma {:induction false} WeightedBm25Fails(docmap: map<int, Document>, scored: seq<(int, real)>, k: nat)
    requires k <= |scored| && WeightedBm25(docmap, scored[..k]).Failure?
    ensures WeightedBm25(docmap, scored) == WeightedBm25(docmap, scored[..k])
  {
    if k < |scored| {
      var n := |scored| - 1;
      assert scored[..n][..k] == scored[..k];
      WeightedBm25Fails(docmap, scored[..n], k);
    } else {
      assert scored[..k] == scored;
    }
  }

  /** Failures of the semantic loop are final. */
  lemma {:induction false} WeightedSemanticFails(t0: Table<WeightedRow>, docmap: map<int, Document>, scored: seq<(int, real)>, k: nat)
    requires ValidTable(t0) && k <= |scored| && WeightedSemantic(t0, docmap, scored[..k]).Failure?
    ensures WeightedSemantic(t0, docmap, scored) == WeightedSemantic(t0, docmap, scored[..k])
  {
    if k < |scored| {
      var n := |scored| - 1;
      assert scored[..n][..k] == scored[..k];
      WeightedSemanticFails(t0, docmap, scored[..n], k);
    } else {
      assert scored[..k] == scored;
    }
  }

  /** The BM25 loop succeeds exactly when every id is a known movie. */
  lemma {:induction false} WeightedBm25Succeeds(docmap: map<int, Document>, scored: seq<(int, real)>)
    ensures WeightedBm25(docmap, scored).Success? <==> forall i :: 0 <= i < |scored| ==> scored[i].0 in docmap
  {
    if scored != [] {
      var n := |scored| - 1;
      var init := scored[..n];
      WeightedBm25Succeeds(docmap, init);
      var prev := WeightedBm25(docmap, init);
      var id := scored[n].0;
      if prev.Failure? {
        var i :| 0 <= i < n && init[i].0 !in docmap;
        assert scored[i] == init[i];
        assert WeightedBm25(docmap, scored).Failure?;
      } else if id !in docmap {
        assert WeightedBm25(docmap, scored).Failure?;
      } else {
        assert WeightedBm25(docmap, scored).Success?;
        EverySnoc(scored, init, (h: (int, real)) => h.0 in docmap);
      }
    }
  }

  /** The keys of the BM25 table are the ids in order of first occurrence. */
  lemma {:induction false} WeightedBm25Order(docmap: map<int, Document>, scored: seq<(int, real)>)
    requires WeightedBm25(docmap, scored).Success?
    ensures WeightedBm25(docmap, scored).value.order == Dedup(HitIds(scored))
  {
    if scored != [] {
      var n := |scored| - 1;
      var init := scored[..n];
      WeightedBm25Order(docmap, init);
      HitIdsSnoc(scored, n);
      assert scored[..n + 1] == scored;
      AppendNewConcat([], HitIds(init), [scored[n].0]);
    }
  }

  /** An id of the BM25 list carries its movie and the normalized score of
      its last occurrence, and semantic score 0; no other id is stored. */
  lemma {:induction false} WeightedBm25Entry(docmap: map<int, Document>, scored: seq<(int, real)>, id: int)
    requires WeightedBm25(docmap, scored).Success?
    ensures var t := WeightedBm25(docmap, scored).value;
      id in t.entries <==> id in HitIds(scored)
    ensures var t := WeightedBm25(docmap, scored).value;
      id in HitIds(scored) ==> id in docmap && t.entries[id] == WeightedRow(docmap[id], scored[LastIndexOf(HitIds(scored), id)].1, 0.0)
  {
    if scored != [] {
      var n := |scored| - 1;
      var init := scored[..n];
      var ids := HitIds(init);
      var (x, s) := scored[n];
      HitIdsSnoc(scored, n);
      assert scored[..n + 1] == scored;
      var prev := WeightedBm25(docmap, init).value;
      var t := WeightedBm25(docmap, scored).value;
      assert x in docmap && t == Put(prev, x, WeightedRow(docmap[x], s, 0.0));
      WeightedBm25Entry(docmap, init, id);
      if id == x {
        LastIndexOfLast(ids, id);
      } else if id in ids {
        LastIndexOfSnoc(ids, x, id);
        assert scored[LastIndexOf(ids, id)] == init[LastIndexOf(ids, id)];
      }
    }
  }

  /** The semantic loop appends each new id once, in order. */
  lemma {:induction false} WeightedSemanticOrder(t0: Table<WeightedRow>, docmap: map<int, Document>, scored: seq<(int, real)>)
    requires ValidTable(t0) && WeightedSemantic(t0, docmap, scored).Success?
    ensures WeightedSemantic(t0, docmap, scored).value.order == AppendNew(t0.order, HitIds(scored))
  {
    if scored != [] {
      var n := |scored| - 1;
      var init := scored[..n];
      WeightedSemanticOrder(t0, docmap, init);
      HitIdsSnoc(scored, n);
      assert scored[..n + 1] == scored;
      AppendNewConcat(t0.order, HitIds(init), [scored[n].0]);
    }
  }

  /** The keys after the semantic loop: those of `t0` and the semantic ids. */
  lemma WeightedSemanticKeys(t0: Table<WeightedRow>, docmap: map<int, Document>, scored: seq<(int, real)>, id: int)
    requires ValidTable(t0) && WeightedSemantic(t0, docmap, scored).Success?
    ensures id in WeightedSemantic(t0, docmap, scored).value.entries <==> id in t0.entries || id in HitIds(scored)
  {
    WeightedSemanticOrder(t0, docmap, scored);
    var r := WeightedSemantic(t0, docmap, scored).value;
    if id in r.entries {
      var i :| 0 <= i < |r.order| && r.order[i] == id;
    }
    if id in HitIds(scored) {
      var i :| 0 <= i < |HitIds(scored)| && HitIds(scored)[i] == id;
    }
    if id in t0.entries {
      var i :| 0 <= i < |t0.order| && t0.order[i] == id;
    }
  }

  /** The semantic loop succeeds exactly when every semantic id is already
      in the table or a known movie. */
  lemma {:induction false} WeightedSemanticSucceeds(t0: Table<WeightedRow>, docmap: map<int, Document>, scored: seq<(int, real)>)
    requires ValidTable(t0)
    ensures WeightedSemantic(t0, docmap, scored).Success? <==>
      forall i :: 0 <= i < |scored| ==> scored[i].0 in t0.entries || scored[i].0 in docmap
  {
    if scored != [] {
      var n := |scored| - 1;
      var init := scored[..n];
      WeightedSemanticSucceeds(t0, docmap, init);
      var prev := WeightedSemantic(t0, docmap, init);
      var id := scored[n].0;
      if prev.Failure? {
        var i :| 0 <= i < n && !(init[i].0 in t0.entries || init[i].0 in docmap);
        assert scored[i] == init[i];
        assert WeightedSemantic(t0, docmap, scored).Failure?;
      } else {
        WeightedSemanticKeys(t0, docmap, init, id);
        if id in prev.value.entries {
          assert WeightedSemantic(t0, docmap, scored).Success?;
          if id !in t0.entries {
            var j :| 0 <= j < n && HitIds(init)[j] == id;
            assert init[j].0 in docmap;
          }
          EverySnoc(scored, init, (h: (int, real)) => h.0 in t0.entries || h.0 in docmap);
        } else if id !in docmap {
          assert WeightedSemantic(t0, docmap, scored).Failure?;
        } else {
          assert WeightedSemantic(t0, docmap, scored).Success?;
          EverySnoc(scored, init, (h: (int, real)) => h.0 in t0.entries || h.0 in docmap);
        }
      }
    }
  }

  /** After the semantic loop an id of the semantic list carries the score of
      its last occurrence; a new one has its movie and BM25 score 0, one that
      was present keeps its movie and BM25 score. Other entries are
      untouched. */
  lemma {:induction false} WeightedSemanticEntry(t0: Table<WeightedRow>, docmap: map<int, Document>, scored: seq<(int, real)>, id: int)
    requires ValidTable(t0) && WeightedSemantic(t0, docmap, scored).Success?
    ensures var r := WeightedSemantic(t0, docmap, scored).value;
      id in HitIds(scored) ==>
        && id in r.entries
        && r.entries[id].semanticScore == scored[LastIndexOf(HitIds(scored), id)].1
        && (id in t0.entries ==> r.entries[id].document == t0.entries[id].document && r.entries[id].bm25Score == t0.entries[id].bm25Score)
        && (id !in t0.entries ==> id in docmap && r.entries[id].document == docmap[id] && r.entries[id].bm25Score == 0.0)
    ensures var r := WeightedSemantic(t0, docmap, scored).value;
      id !in HitIds(scored) ==> (id in r.entries <==> id in t0.entries) && (id in t0.entries ==> r.entries[id] == t0.entries[id])
  {
    if scored != [] {
      var n := |scored| - 1;
      var init := scored[..n];
      var ids := HitIds(init);
      HitIdsSnoc(scored, n);
      assert scored[..n + 1] == scored;
      WeightedSemanticEntry(t0, docmap, init, id);
      WeightedSemanticKeys(t0, docmap, init, id);
      if id == scored[n].0 {
        LastIndexOfLast(ids, id);
      } else if id in ids {
        LastIndexOfSnoc(ids, scored[n].0, id);
      }
    }
  }

  /** The ids of zipped pairs are the ids zipped. */
  lemma ZipIds(ids: seq<int>, scores: seq<real>)
    requires |ids| == |scores|
    ensures HitIds(Zip(ids, scores)) == ids
  {
  }

  /** The weighted table exists exactly when every id either ranker
      returned is a known movie. */
  lemma WeightedTableSucceeds(docmap: map<int, Document>, bm25Hits: seq<(int, real)>, semanticHits: seq<ChunkResult>, normalize: Normalizer)
    ensures WeightedTable(docmap, bm25Hits, semanticHits, normalize).Success? <==>
      (forall i :: 0 <= i < |bm25Hits| ==> bm25Hits[i].0 in docmap) && (forall i :: 0 <= i < |semanticHits| ==> semanticHits[i].id in docmap)
  {
    var bm25 := Zip(HitIds(bm25Hits), Normalized(normalize, HitScores(bm25Hits)));
    var semantic := Zip(ResultIds(semanticHits), Normalized(normalize, ResultScores(semanticHits)));
    WeightedBm25Succeeds(docmap, bm25);
    SameIdsKnown(docmap, bm25, bm25Hits);
    var first := WeightedBm25(docmap, bm25);
    if first.Success? {
      var t := first.value;
      WeightedBm25Known(docmap, bm25);
      WeightedSemanticSucceeds(t, docmap, semantic);
      PresentKnown(t.entries, docmap, semantic, semanticHits);
    }
  }

  /** Pairs with the same ids at the same positions are known together. */
  lemma SameIdsKnown<V>(docmap: map<int, V>, scored: seq<(int, real)>, hits: seq<(int, real)>)
    requires |scored| == |hits| && forall i :: 0 <= i < |scored| ==> scored[i].0 == hits[i].0
    ensures (forall i :: 0 <= i < |scored| ==> scored[i].0 in docmap) <==> (forall i :: 0 <= i < |hits| ==> hits[i].0 in docmap)
  {
  }

  /** Every key of the BM25 table is a known movie. */
  lemma WeightedBm25Known(docmap: map<int, Document>, scored: seq<(int, real)>)
    requires WeightedBm25(docmap, scored).Success?
    ensures forall id :: id in WeightedBm25(docmap, scored).value.entries ==> id in docmap
  {
    forall id | id in WeightedBm25(docmap, scored).value.entries ensures id in docmap {
      WeightedBm25Entry(docmap, scored, id);
    }
  }

  /** When every present id is known, "present or known" is "known". */
  lemma PresentKnown<U, V>(present: map<int, U>, docmap: map<int, V>, semantic: seq<(int, real)>, semanticHits: seq<ChunkResult>)
    requires |semantic| == |semanticHits| && forall i :: 0 <= i < |semantic| ==> semantic[i].0 == semanticHits[i].id
    requires forall id :: id in present ==> id in docmap
    ensures (forall i :: 0 <= i < |semantic| ==> semantic[i].0 in present || semantic[i].0 in docmap) <==>
      (forall i :: 0 <= i < |semanticHits| ==> semanticHits[i].id in docmap)
  {
  }

  /** The keys of the weighted table: every BM25 id, then every new semantic
      id, each once. */
  lemma WeightedTableOrder(docmap: map<int, Document>, bm25Hits: seq<(int, real)>, semanticHits: seq<ChunkResult>, normalize: Normalizer)
    requires WeightedTable(docmap, bm25Hits, semanticHits, normalize).Success?
    ensures WeightedTable(docmap, bm25Hits, semanticHits, normalize).value.order == Dedup(HitIds(bm25Hits) + ResultIds(semanticHits))
  {
    var bm25 := Zip(HitIds(bm25Hits), Normalized(normalize, HitScores(bm25Hits)));
    var semantic := Zip(ResultIds(semanticHits), Normalized(normalize, ResultScores(semanticHits)));
    ZipIds(HitIds(bm25Hits), Normalized(normalize, HitScores(bm25Hits)));
    ZipIds(ResultIds(semanticHits), Normalized(normalize, ResultScores(semanticHits)));
    WeightedBm25Order(docmap, bm25);
    WeightedSemanticOrder(WeightedBm25(docmap, bm25).value, docmap, semantic);
    AppendNewConcat([], HitIds(bm25Hits), ResultIds(semanticHits));
  }

  /** An entry of the weighted table: a movie either ranker returned, with
      the normalized score of its last occurrence in each list, 0 for a list
      that does not hold it. */
  lemma WeightedTableEntry(docmap: map<int, Document>, bm25Hits: seq<(int, real)>, semanticHits: seq<ChunkResult>, normalize: Normalizer, id: int)
    requires WeightedTable(docmap, bm25Hits, semanticHits, normalize).Success?
    ensures var t := WeightedTable(docmap, bm25Hits, semanticHits, normalize).value;
      id in t.entries <==> id in HitIds(bm25Hits) || id in ResultIds(semanticHits)
    ensures var t := WeightedTable(docmap, bm25Hits, semanticHits, normalize).value;
      var bIds, sIds := HitIds(bm25Hits), ResultIds(semanticHits);
      var nb, ns := Normalized(normalize, HitScores(bm25Hits)), Normalized(normalize, ResultScores(semanticHits));
      id in t.entries ==>
        && id in docmap
        && t.entries[id] == WeightedRow(docmap[id],
             if id in bIds then nb[LastIndexOf(bIds, id)] else 0.0,
             if id in sIds then ns[LastIndexOf(sIds, id)] else 0.0)
  {
    var bIds, sIds := HitIds(bm25Hits), ResultIds(semanticHits);
    var nb, ns := Normalized(normalize, HitScores(bm25Hits)), Normalized(normalize, ResultScores(semanticHits));
    var bm25, semantic := Zip(bIds, nb), Zip(sIds, ns);
    ZipIds(bIds, nb);
    ZipIds(sIds, ns);
    var t0 := WeightedBm25(docmap, bm25).value;
    WeightedBm25Entry(docmap, bm25, id);
    WeightedSemanticEntry(t0, docmap, semantic, id);
    WeightedSemanticKeys(t0, docmap, semantic, id);
  }

  /** The unsorted results list each movie once, in table order. */
  lemma WeightedResultsIds(t: Table<WeightedRow>, alpha: real)
    requires ValidTable(t)
    ensures DistinctBy(WeightedResults(t, alpha), WeightedId)
    ensures forall i :: 0 <= i < |t.order| ==> WeightedResults(t, alpha)[i].id == t.order[i]
  {
    var r := WeightedResults(t, alpha);
    forall i, j | 0 <= i < j < |r| ensures WeightedId(r[i]) != WeightedId(r[j]) {
      assert r[i].id == t.order[i] && r[j].id == t.order[j];
    }
  }

  /** `weighted_search` succeeds exactly when every id either ranker
      returned is a known movie. */
  lemma WeightedSpecSucceeds(docmap: map<int, Document>, bm25Hits: seq<(int, real)>, semanticHits: seq<ChunkResult>, normalize: Normalizer, alpha: real, limit: int)
    ensures WeightedSpec(docmap, bm25Hits, semanticHits, normalize, alpha, limit).Success? <==>
      (forall i :: 0 <= i < |bm25Hits| ==> bm25Hits[i].0 in docmap) && (forall i :: 0 <= i < |semanticHits| ==> semanticHits[i].id in docmap)
    ensures WeightedSpec(docmap, bm25Hits, semanticHits, normalize, alpha, limit).Failure? ==>
      exists id :: WeightedSpec(docmap, bm25Hits, semanticHits, normalize, alpha, limit).error == KeyError(id)
  {
    WeightedTableSucceeds(docmap, bm25Hits, semanticHits, normalize);
    var bm25 := Zip(HitIds(bm25Hits), Normalized(normalize, HitScores(bm25Hits)));
    WeightedBm25KeyError(docmap, bm25);
    if WeightedBm25(docmap, bm25).Success? {
      var semantic := Zip(ResultIds(semanticHits), Normalized(normalize, ResultScores(semanticHits)));
      WeightedSemanticKeyError(WeightedBm25(docmap, bm25).value, docmap, semantic);
    }
  }

  /** The BM25 loop can only raise `KeyError`. */
  lemma {:induction false} WeightedBm25KeyError(docmap: map<int, Document>, scored: seq<(int, real)>)
    ensures WeightedBm25(docmap, scored).Failure? ==> WeightedBm25(docmap, scored).error.KeyError?
  {
    if scored != [] {
      WeightedBm25KeyError(docmap, scored[..|scored| - 1]);
    }
  }

  /** The semantic loop can only raise `KeyError`. */
  lemma {:induction false} WeightedSemanticKeyError(t0: Table<WeightedRow>, docmap: map<int, Document>, scored: seq<(int, real)>)
    requires ValidTable(t0)
    ensures WeightedSemantic(t0, docmap, scored).Failure? ==> WeightedSemantic(t0, docmap, scored).error.KeyError?
  {
    if scored != [] {
      WeightedSemanticKeyError(t0, docmap, scored[..|scored| - 1]);
    }
  }

  /** What `weighted_search` returns: the `limit` best movies of the
      table (all of them when there are fewer), hybrid scores never
      increasing, each movie once, and no movie left out scoring higher
      than one kept. */
  lemma WeightedSpecShape(docmap: map<int, Document>, bm25Hits: seq<(int, real)>, semanticHits: seq<ChunkResult>, normalize: Normalizer, alpha: real, limit: int)
    requires WeightedSpec(docmap, bm25Hits, semanticHits, normalize, alpha, limit).Success?
    ensures var r, n := WeightedSpec(docmap, bm25Hits, semanticHits, normalize, alpha, limit).value, |Dedup(HitIds(bm25Hits) + ResultIds(semanticHits))|;
      && (limit >= 0 ==> |r| == if limit <= n then limit else n)
      && |r| <= n
      && SortedDesc(r, HybridKey)
      && DistinctBy(r, WeightedId)
    ensures var r := WeightedSpec(docmap, bm25Hits, semanticHits, normalize, alpha, limit).value;
      var results := WeightedResults(WeightedTable(docmap, bm25Hits, semanticHits, normalize).value, alpha);
      forall j, i :: 0 <= j < |results| && results[j] !in r && 0 <= i < |r| ==> results[j].hybridScore <= r[i].hybridScore
  {
    var t := WeightedTable(docmap, bm25Hits, semanticHits, normalize).value;
    var results := WeightedResults(t, alpha);
    var r := WeightedSpec(docmap, bm25Hits, semanticHits, normalize, alpha, limit).value;
    WeightedTableOrder(docmap, bm25Hits, semanticHits, normalize);
    WeightedResultsIds(t, alpha);
    TopDescDistinctBy(results, HybridKey, limit, WeightedId);
    TopDescLeftOut(results, HybridKey, limit);
  }

  /** Each result of `weighted_search` is a movie one of the rankers
      returned, with its title and description, its normalized BM25 and
      semantic scores (0 for a ranker that did not return it) and their
      hybrid combination. */
  lemma WeightedSpecMember(docmap: map<int, Document>, bm25Hits: seq<(int, real)>, semanticHits: seq<ChunkResult>, normalize: Normalizer, alpha: real, limit: int, i: int)
    requires WeightedSpec(docmap, bm25Hits, semanticHits, normalize, alpha, limit).Success?
    requires 0 <= i < |WeightedSpec(docmap, bm25Hits, semanticHits, normalize, alpha, limit).value|
    ensures var x := WeightedSpec(docmap, bm25Hits, semanticHits, normalize, alpha, limit).value[i];
      var bIds, sIds := HitIds(bm25Hits), ResultIds(semanticHits);
      var nb, ns := Normalized(normalize, HitScores(bm25Hits)), Normalized(normalize, ResultScores(semanticHits));
      && (x.id in bIds || x.id in sIds)
      && x.id in docmap
      && x.title == docmap[x.id].title
      && x.document == docmap[x.id].description
      && x.bm25Score == (if x.id in bIds then nb[LastIndexOf(bIds, x.id)] else 0.0)
      && x.semanticScore == (if x.id in sIds then ns[LastIndexOf(sIds, x.id)] else 0.0)
      && x.hybridScore == HybridScore(x.bm25Score, x.semanticScore, alpha)
  {
    var t := WeightedTable(docmap, bm25Hits, semanticHits, normalize).value;
    var results := WeightedResults(t, alpha);
    var x := WeightedSpec(docmap, bm25Hits, semanticHits, normalize, alpha, limit).value[i];
    assert x in results;
    var j :| 0 <= j < |results| && results[j] == x;
    WeightedTableEntry(docmap, bm25Hits, semanticHits, normalize, t.order[j]);
  }

  /** Ties keep table order: the results with one hybrid score are the first
      ones with that score among the table entries, which hold the BM25 ids
      and then the new semantic ids, each once. */
  lemma WeightedSpecTies(docmap: map<int, Document>, bm25Hits: seq<(int, real)>, semanticHits: seq<ChunkResult>, normalize: Normalizer, alpha: real, limit: int, v: real)
    requires WeightedSpec(docmap, bm25Hits, semanticHits, normalize, alpha, limit).Success?
    ensures var t := WeightedTable(docmap, bm25Hits, semanticHits, normalize).value;
      var a, b := WithKey(WeightedSpec(docmap, bm25Hits, semanticHits, normalize, alpha, limit).value, HybridKey, v), WithKey(WeightedResults(t, alpha), HybridKey, v);
      |a| <= |b| && a == b[..|a|]
    ensures var t := WeightedTable(docmap, bm25Hits, semanticHits, normalize).value;
      var ids := Dedup(HitIds(bm25Hits) + ResultIds(semanticHits));
      |WeightedResults(t, alpha)| == |ids| && forall i :: 0 <= i < |ids| ==> WeightedResults(t, alpha)[i].id == ids[i]
  {
    var t := WeightedTable(docmap, bm25Hits, semanticHits, normalize).value;
    TopDescStable(WeightedResults(t, alpha), HybridKey, limit, v);
    WeightedTableOrder(docmap, bm25Hits, semanticHits, normalize);
    WeightedResultsIds(t, alpha);
  }

  // ----- the weighted search as written -----

  /** The message Python gives for the call `hybrid_score(bm25_score, semantic_score)`. */
  const MissingAlpha := "hybrid_score() missing 1 required positional argument: 'alpha'"

  /** `weighted_search` as written: the first entry of the results loop
      calls `hybrid_score` without `alpha`, which raises `TypeError`. */
  function WeightedSpecAsWritten(docmap: map<int, Document>, bm25Hits: seq<(int, real)>, semanticHits: seq<ChunkResult>, normalize: Normalizer, limit: int): Result<seq<WeightedResult>>
  {
    match WeightedTable(docmap, bm25Hits, semanticHits, normalize)
    case Failure(e) => Failure(e)
    case Success(t) => if t.order != [] then Failure(TypeError(MissingAlpha)) else Success([])
  }

  /** As written, `weighted_search` raises `TypeError` whenever a ranker
      returned anything and every id is known, where the intended search
      succeeds; it agrees with the intended search only when both rankers
      return nothing. */
  lemma WeightedAsWrittenRaises(docmap: map<int, Document>, bm25Hits: seq<(int, real)>, semanticHits: seq<ChunkResult>, normalize: Normalizer, alpha: real, limit: int)
    requires WeightedSpec(docmap, bm25Hits, semanticHits, normalize, alpha, limit).Success?
    ensures bm25Hits != [] || semanticHits != [] ==> WeightedSpecAsWritten(docmap, bm25Hits, semanticHits, normalize, limit) == Failure(TypeError(MissingAlpha))
    ensures bm25Hits == [] && semanticHits == [] ==>
      WeightedSpecAsWritten(docmap, bm25Hits, semanticHits, normalize, limit) == WeightedSpec(docmap, bm25Hits, semanticHits, normalize, alpha, limit)
  {
    var t := WeightedTable(docmap, bm25Hits, semanticHits, normalize).value;
    WeightedTableOrder(docmap, bm25Hits, semanticHits, normalize);
    var ids := HitIds(bm25Hits) + ResultIds(semanticHits);
    if ids != [] {
      assert ids[0] in Dedup(ids);
    } else {
      assert t.order == AppendNew([], ids);
    }
  }

  /** The normalization of the example below: scores are kept as they are. */
  const KeepScores: Normalizer := (s: seq<real>) => s

  /** One known movie returned by BM25 alone: the search as written raises
      `TypeError`. */
  lemma WeightedAsWrittenExample()
    ensures var bm25Hits: seq<(int, real)> := [(1, 2.0)];
      var none: seq<ChunkResult> := [];
      WeightedSpecAsWritten(map[1 := Document(1, "A", "a")], bm25Hits, none, KeepScores, 5) == Failure(TypeError(MissingAlpha))
  {
    var t := OneHitTable();
  }

  /** The same movie: the intended search returns it with hybrid score
      `0.5 * 2.0 + 0.5 * 0.0`. */
  lemma WeightedIntendedExample()
    ensures var bm25Hits: seq<(int, real)> := [(1, 2.0)];
      var none: seq<ChunkResult> := [];
      WeightedSpec(map[1 := Document(1, "A", "a")], bm25Hits, none, KeepScores, 0.5, 5) == Success([WeightedResult(1, "A", 1.0, 2.0, 0.0, "a")])
  {
    var t := OneHitTable();
    var results := WeightedResults(t, 0.5);
    OneHitResults(t);
    TopDescSingle(results, HybridKey, 5);
  }

  /** The results list of the example table. */
  lemma OneHitResults(t: Table<WeightedRow>)
    requires t == Table([1], map[1 := WeightedRow(Document(1, "A", "a"), 2.0, 0.0)])
    ensures WeightedResults(t, 0.5) == [WeightedResult(1, "A", 1.0, 2.0, 0.0, "a")]
  {
    assert WeightedResults(t, 0.5)[0] == WeightedResultOf(1, t.entries[1], 0.5);
  }

  /** The table of the example: the one BM25 hit, semantic score 0. */
  lemma OneHitTable() returns (t: Table<WeightedRow>)
    ensures t == Table([1], map[1 := WeightedRow(Document(1, "A", "a"), 2.0, 0.0)])
    ensures var bm25Hits: seq<(int, real)> := [(1, 2.0)];
      var none: seq<ChunkResult> := [];
      WeightedTable(map[1 := Document(1, "A", "a")], bm25Hits, none, KeepScores) == Success(t)
  {
    var d := Document(1, "A", "a");
    var docmap := map[1 := d];
    var bm25Hits: seq<(int, real)> := [(1, 2.0)];
    var none: seq<ChunkResult> := [];
    var normalize := KeepScores;
    t := Table([1], map[1 := WeightedRow(d, 2.0, 0.0)]);
    assert bm25Hits[..0] == [];
    assert HitIds(bm25Hits) == [1];
    assert HitScores(bm25Hits) == [2.0];
    var scored: seq<(int, real)> := [(1, 2.0)];
    assert Zip(HitIds(bm25Hits), Normalized(normalize, HitScores(bm25Hits))) == scored;
    assert scored[..0] == [];
    var one: seq<int> := [1];
    assert one[..0] == [];
    var empty: Table<WeightedRow> := Empty();
    assert Put(empty, 1, WeightedRow(d, 2.0, 0.0)) == t;
    assert WeightedBm25(docmap, scored) == Success(t);
    assert Zip(ResultIds(none), Normalized(normalize, ResultScores(none))) == [];
  }

  /** Keeping at most `limit >= 1` of one element keeps it. */
  lemma TopDescSingle<T>(s: seq<T>, key: T -> real, limit: int)
    requires |s| == 1 && limit >= 1
    ensures TopDesc(s, key, limit) == s
  {
    var r := TopDesc(s, key, limit);
    assert r[0] in s;
  }

  // ----- reciprocal rank fusion -----

  /** One entry of `document_ranks`. */
  datatype RankRow = RankRow(document: Document, bm25Rank: int, semanticRank: int, rrfScore: real)

  /** One result of `rrf_search`. */
  datatype RrfResult = RrfResult(id: int, title: string, rrfScore: real, bm25Rank: int, semanticRank: int, document: string)

  /** No rank `1 .. n` makes `rank + k` zero. */
  predicate NoZeroRank(n: int, k: int)
  {
    !(1 <= -k <= n)
  }

  /** The table after the BM25 loop: id `i` of the list gets rank `i + 1`,
      semantic rank 0 and `rrf_score(i + 1, 0, k)`. The score is computed
      before the movie is looked up, so a zero `rank + k` raises
      `ZeroDivisionError` before an unknown id raises `KeyError`. */
  function RrfBm25(docmap: map<int, Document>, ids: seq<int>, k: int): (r: Result<Table<RankRow>>)
    ensures r.Success? ==> ValidTable(r.value)
  {
    if ids == [] then Success(Empty())
    else
      var n := |ids| - 1;
      match RrfBm25(docmap, ids[..n], k)
      case Failure(e) => Failure(e)
      case Success(t) =>
        var rank := n + 1;
        if !RankUsable(rank, k) then Failure(ZeroDivisionError)
        else
          var rrf := RrfScore(rank, 0, k);
          var id := ids[n];
          if id in docmap then Success(Put(t, id, RankRow(docmap[id], rank, 0, rrf))) else Failure(KeyError(id))
  }

  /** The table after the semantic loop from `t0`: id `i` of the list has
      semantic rank `i + 1`; a new id gets its movie, BM25 rank 0 and
      `rrf_score(0, i + 1, k)`; a present id has its semantic rank replaced
      and that score added to its RRF score. */
  function RrfSemantic(t0: Table<RankRow>, docmap: map<int, Document>, ids: seq<int>, k: int): (r: Result<Table<RankRow>>)
    requires ValidTable(t0)
    ensures r.Success? ==> ValidTable(r.value)
  {
    if ids == [] then Success(t0)
    else
      var n := |ids| - 1;
      match RrfSemantic(t0, docmap, ids[..n], k)
      case Failure(e) => Failure(e)
      case Success(t) =>
        var rank := n + 1;
        if !RankUsable(rank, k) then Failure(ZeroDivisionError)
        else
          var rrf := RrfScore(0, rank, k);
          var id := ids[n];
          if id !in t.entries then
            if id in docmap then Success(Put(t, id, RankRow(docmap[id], 0, rank, rrf))) else Failure(KeyError(id))
          else Success(Put(t, id, t.entries[id].(semanticRank := rank, rrfScore := t.entries[id].rrfScore + rrf)))
  }

  /** `document_ranks` once both loops are done. */
  function RrfTable(docmap: map<int, Document>, bm25Hits: seq<(int, real)>, semanticHits: seq<ChunkResult>, k: int): (r: Result<Table<RankRow>>)
    ensures r.Success? ==> ValidTable(r.value)
  {
    match RrfBm25(docmap, HitIds(bm25Hits), k)
    case Failure(e) => Failure(e)
    case Success(t) => RrfSemantic(t, docmap, ResultIds(semanticHits), k)
  }

  /** The result built for one table entry. */
  function RrfResultOf(id: int, row: RankRow): RrfResult
  {
    RrfResult(id, row.document.title, row.rrfScore, row.bm25Rank, row.semanticRank, row.document.description)
  }

  /** The results list before sorting: one result per entry, in insertion
      order. */
  function RrfResults(t: Table<RankRow>): (r: seq<RrfResult>)
    requires ValidTable(t)
    ensures |r| == |t.order|
    ensures forall i :: 0 <= i < |r| ==> t.order[i] in t.entries && r[i] == RrfResultOf(t.order[i], t.entries[t.order[i]])
  {
    seq(|t.order|, i requires 0 <= i < |t.order| => var id := t.order[i]; assert id in t.order; RrfResultOf(id, t.entries[id]))
  }

  /** The sort key of the RRF results. */
  function RrfKey(r: RrfResult): real
  {
    r.rrfScore
  }

  /** The id of an RRF result. */
  function RrfId(r: RrfResult): int
  {
    r.id
  }

  /** `rrf_search` given what the two rankers returned. */
  function RrfSpec(docmap: map<int, Document>, bm25Hits: seq<(int, real)>, semanticHits: seq<ChunkResult>, k: int, limit: int): Result<seq<RrfResult>>
  {
    match RrfTable(docmap, bm25Hits, semanticHits, k)
    case Failure(e) => Failure(e)
    case Success(t) => Success(TopDesc(RrfResults(t), RrfKey, limit))
  }

  /** The sum of `1 / (i + 1 + k)` over the positions `i` where `id` occurs. */
  function OccurrenceSum(ids: seq<int>, id: int, k: int): real
    requires NoZeroRank(|ids|, k)
  {
    if ids == [] then 0.0
    else
      var n := |ids| - 1;
      OccurrenceSum(ids[..n], id, k) + (if ids[n] == id then RecipRank(n + 1, k) else 0.0)
  }

  /** In a list without duplicates an id occurs once, or never. */
  lemma {:induction false} OccurrenceSumDistinct(ids: seq<int>, id: int, k: int)
    requires NoZeroRank(|ids|, k) && Distinct(ids)
    ensures OccurrenceSum(ids, id, k) == if id in ids then RecipRank(LastIndexOf(ids, id) + 1, k) else 0.0
  {
    if ids != [] {
      var n := |ids| - 1;
      var init := ids[..n];
      assert ids == init + [ids[n]];
      OccurrenceSumDistinct(init, id, k);
      if id == ids[n] {
        assert id !in init;
        LastIndexOfLast(init, id);
      } else if id in init {
        LastIndexOfSnoc(init, ids[n], id);
      }
    }
  }

  lemma {:induction false} RrfBm25Fails(docmap: map<int, Document>, ids: seq<int>, k: int, m: nat)
    requires m <= |ids| && RrfBm25(docmap, ids[..m], k).Failure?
    ensures RrfBm25(docmap, ids, k) == RrfBm25(docmap, ids[..m], k)
  {
    if m < |ids| {
      var n := |ids| - 1;
      assert ids[..n][..m] == ids[..m];
      RrfBm25Fails(docmap, ids[..n], k, m);
    } else {
      assert ids[..m] == ids;
    }
  }

  lemma {:induction false} RrfSemanticFails(t0: Table<RankRow>, docmap: map<int, Document>, ids: seq<int>, k: int, m: nat)
    requires ValidTable(t0) && m <= |ids| && RrfSemantic(t0, docmap, ids[..m], k).Failure?
    ensures RrfSemantic(t0, docmap, ids, k) == RrfSemantic(t0, docmap, ids[..m], k)
  {
    if m < |ids| {
      var n := |ids| - 1;
      assert ids[..n][..m] == ids[..m];
      RrfSemanticFails(t0, docmap, ids[..n], k, m);
    } else {
      assert ids[..m] == ids;
    }
  }

  /** The BM25 loop of RRF succeeds exactly when no rank makes `rank + k`
      zero and every id is a known movie. */
  lemma {:induction false} RrfBm25Succeeds(docmap: map<int, Document>, ids: seq<int>, k: int)
    ensures RrfBm25(docmap, ids, k).Success? <==> NoZeroRank(|ids|, k) && forall i :: 0 <= i < |ids| ==> ids[i] in docmap
  {
    if ids != [] {
      var n := |ids| - 1;
      var init := ids[..n];
      RrfBm25Succeeds(docmap, init, k);
      var prev := RrfBm25(docmap, init, k);
      if prev.Failure? {
        if NoZeroRank(n, k) {
          var i :| 0 <= i < n && init[i] !in docmap;
          assert ids[i] == init[i];
        }
        assert RrfBm25(docmap, ids, k).Failure?;
      } else if !RankUsable(n + 1, k) || ids[n] !in docmap {
        assert RrfBm25(docmap, ids, k).Failure?;
      } else {
        assert RrfBm25(docmap, ids, k).Success?;
        EverySnoc(ids, init, (x: int) => x in docmap);
      }
    }
  }

  /** The keys of the RRF BM25 table are the ids in order of first occurrence. */
  lemma {:induction false} RrfBm25Order(docmap: map<int, Document>, ids: seq<int>, k: int)
    requires RrfBm25(docmap, ids, k).Success?
    ensures RrfBm25(docmap, ids, k).value.order == Dedup(ids)
  {
    if ids != [] {
      var n := |ids| - 1;
      var init := ids[..n];
      RrfBm25Order(docmap, init, k);
      var prev := RrfBm25(docmap, init, k).value;
      assert RrfBm25(docmap, ids, k).value.order == AppendNew(prev.order, [ids[n]]);
      AppendNewSnoc([], ids);
    }
  }

  /** An id of the BM25 list has the 1-based position of its last
      occurrence as BM25 rank, semantic rank 0 and the matching RRF score. */
  lemma {:induction false} RrfBm25Entry(docmap: map<int, Document>, ids: seq<int>, k: int, id: int)
    requires RrfBm25(docmap, ids, k).Success? && NoZeroRank(|ids|, k)
    ensures var t := RrfBm25(docmap, ids, k).value;
      id in t.entries <==> id in ids
    ensures var t := RrfBm25(docmap, ids, k).value;
      id in ids ==>
        var rank := LastIndexOf(ids, id) + 1;
        id in docmap && t.entries[id] == RankRow(docmap[id], rank, 0, RecipRank(rank, k))
  {
    RrfBm25Keys(docmap, ids, k, id);
    if id in ids {
      RrfBm25Row(docmap, ids, k, id);
      RrfBm25RowScore(docmap, ids, k, id);
    }
  }

  lemma {:induction false} RrfBm25Keys(docmap: map<int, Document>, ids: seq<int>, k: int, id: int)
    requires RrfBm25(docmap, ids, k).Success? && NoZeroRank(|ids|, k)
    ensures id in RrfBm25(docmap, ids, k).value.entries <==> id in ids
  {
    if ids != [] {
      RrfBm25LastRow(docmap, ids, k);
      RrfBm25Keys(docmap, ids[..|ids| - 1], k, id);
      LastIndexOfInit(ids, id);
    }
  }

  lemma {:induction false} RrfBm25Row(docmap: map<int, Document>, ids: seq<int>, k: int, id: int)
    requires RrfBm25(docmap, ids, k).Success? && NoZeroRank(|ids|, k) && id in ids
    ensures var t, rank := RrfBm25(docmap, ids, k).value, LastIndexOf(ids, id) + 1;
      && id in docmap && id in t.entries
      && t.entries[id].document == docmap[id] && t.entries[id].bm25Rank == rank && t.entries[id].semanticRank == 0
  {
    var n := |ids| - 1;
    RrfBm25LastRow(docmap, ids, k);
    LastIndexOfInit(ids, id);
    if id != ids[n] {
      RrfBm25Row(docmap, ids[..n], k, id);
    }
  }

  /** Every row of the BM25 table of RRF carries the score of its ranks. */
  lemma {:induction false} RrfBm25RowScore(docmap: map<int, Document>, ids: seq<int>, k: int, id: int)
    requires RrfBm25(docmap, ids, k).Success? && NoZeroRank(|ids|, k) && id in RrfBm25(docmap, ids, k).value.entries
    ensures var row := RrfBm25(docmap, ids, k).value.entries[id];
      RankUsable(row.bm25Rank, k) && row.semanticRank == 0 && row.rrfScore == RrfScore(row.bm25Rank, 0, k)
  {
    var n := |ids| - 1;
    RrfBm25LastRow(docmap, ids, k);
    if id != ids[n] {
      RrfBm25RowScore(docmap, ids[..n], k, id);
    }
  }

  /** The row the BM25 loop of RRF stores for a movie at `rank`. */
  function Bm25Row(d: Document, rank: int, k: int): RankRow
    requires RankUsable(rank, k)
  {
    RankRow(d, rank, 0, RrfScore(rank, 0, k))
  }

  /** The last id of the BM25 list is stored with the last rank. */
  lemma RrfBm25LastRow(docmap: map<int, Document>, ids: seq<int>, k: int)
    requires ids != [] && RrfBm25(docmap, ids, k).Success? && NoZeroRank(|ids|, k)
    ensures var n := |ids| - 1;
      && RrfBm25(docmap, ids[..n], k).Success? && NoZeroRank(n, k) && ids[n] in docmap
      && RrfBm25(docmap, ids, k).value.entries ==
         RrfBm25(docmap, ids[..n], k).value.entries[ids[n] := Bm25Row(docmap[ids[n]], n + 1, k)]
  {
  }

  /** The semantic loop of RRF appends each new id once, in order. */
  lemma {:induction false} RrfSemanticOrder(t0: Table<RankRow>, docmap: map<int, Document>, ids: seq<int>, k: int)
    requires ValidTable(t0) && RrfSemantic(t0, docmap, ids, k).Success?
    ensures RrfSemantic(t0, docmap, ids, k).value.order == AppendNew(t0.order, ids)
  {
    if ids != [] {
      var n := |ids| - 1;
      var init := ids[..n];
      RrfSemanticOrder(t0, docmap, init, k);
      var prev := RrfSemantic(t0, docmap, init, k).value;
      assert RrfSemantic(t0, docmap, ids, k).value.order == AppendNew(prev.order, [ids[n]]);
      AppendNewSnoc(t0.order, ids);
    }
  }

  /** The keys after the semantic loop of RRF: those of `t0` and the
      semantic ids. */
  lemma RrfSemanticKeys(t0: Table<RankRow>, docmap: map<int, Document>, ids: seq<int>, k: int, id: int)
    requires ValidTable(t0) && RrfSemantic(t0, docmap, ids, k).Success?
    ensures id in RrfSemantic(t0, docmap, ids, k).value.entries <==> id in t0.entries || id in ids
  {
    RrfSemanticOrder(t0, docmap, ids, k);
    var r := RrfSemantic(t0, docmap, ids, k).value;
    if id in r.entries {
      var i :| 0 <= i < |r.order| && r.order[i] == id;
    }
    if id in ids {
      var i :| 0 <= i < |ids| && ids[i] == id;
    }
    if id in t0.entries {
      var i :| 0 <= i < |t0.order| && t0.order[i] == id;
    }
  }

  /** The semantic loop of RRF succeeds exactly when no rank makes
      `rank + k` zero and every semantic id is already in the table or a
      known movie. */
  lemma {:induction false} RrfSemanticSucceeds(t0: Table<RankRow>, docmap: map<int, Document>, ids: seq<int>, k: int)
    requires ValidTable(t0)
    ensures RrfSemantic(t0, docmap, ids, k).Success? <==>
      NoZeroRank(|ids|, k) && forall i :: 0 <= i < |ids| ==> ids[i] in t0.entries || ids[i] in docmap
  {
    if ids != [] {
      var n := |ids| - 1;
      var init := ids[..n];
      RrfSemanticSucceeds(t0, docmap, init, k);
      var prev := RrfSemantic(t0, docmap, init, k);
      var id := ids[n];
      if prev.Failure? {
        if NoZeroRank(n, k) {
          var i :| 0 <= i < n && !(init[i] in t0.entries || init[i] in docmap);
          assert ids[i] == init[i];
        }
        assert RrfSemantic(t0, docmap, ids, k).Failure?;
      } else if !RankUsable(n + 1, k) {
        assert RrfSemantic(t0, docmap, ids, k).Failure?;
      } else {
        RrfSemanticKeys(t0, docmap, init, k, id);
        if id in prev.value.entries {
          assert RrfSemantic(t0, docmap, ids, k).Success?;
          if id !in t0.entries {
            var j :| 0 <= j < n && init[j] == id;
          }
          EverySnoc(ids, init, (x: int) => x in t0.entries || x in docmap);
        } else if id !in docmap {
          assert RrfSemantic(t0, docmap, ids, k).Failure?;
        } else {
          assert RrfSemantic(t0, docmap, ids, k).Success?;
          EverySnoc(ids, init, (x: int) => x in t0.entries || x in docmap);
        }
      }
    }
  }

  /** After the semantic loop of RRF an id of the semantic list has the
      1-based position of its last occurrence as semantic rank and has
      gained `1 / (rank + k)` for every occurrence; a new id has its movie
      and BM25 rank 0, a present one keeps them. Other entries are
      untouched. */
  lemma {:induction false} RrfSemanticEntry(t0: Table<RankRow>, docmap: map<int, Document>, ids: seq<int>, k: int, id: int)
    requires ValidTable(t0) && RrfSemantic(t0, docmap, ids, k).Success? && NoZeroRank(|ids|, k)
    ensures var r := RrfSemantic(t0, docmap, ids, k).value;
      id in ids ==>
        && id in r.entries
        && r.entries[id].semanticRank == LastIndexOf(ids, id) + 1
        && r.entries[id].rrfScore == (if id in t0.entries then t0.entries[id].rrfScore else 0.0) + OccurrenceSum(ids, id, k)
        && (id in t0.entries ==> r.entries[id].document == t0.entries[id].document && r.entries[id].bm25Rank == t0.entries[id].bm25Rank)
        && (id !in t0.entries ==> id in docmap && r.entries[id].document == docmap[id] && r.entries[id].bm25Rank == 0)
    ensures var r := RrfSemantic(t0, docmap, ids, k).value;
      id !in ids ==> (id in r.entries <==> id in t0.entries) && (id in t0.entries ==> r.entries[id] == t0.entries[id])
  {
    if ids != [] {
      var n := |ids| - 1;
      var init := ids[..n];
      assert ids == init + [ids[n]];
      RrfSemanticEntry(t0, docmap, init, k, id);
      RrfSemanticKeys(t0, docmap, init, k, id);
      if id == ids[n] {
        LastIndexOfLast(init, id);
        if id !in init {
          OccurrenceSumAbsent(init, id, k);
        }
      } else if id in init {
        LastIndexOfSnoc(init, ids[n], id);
      }
    }
  }

  /** An id that does not occur sums to 0. */
  lemma {:induction false} OccurrenceSumAbsent(ids: seq<int>, id: int, k: int)
    requires NoZeroRank(|ids|, k) && id !in ids
    ensures OccurrenceSum(ids, id, k) == 0.0
  {
    if ids != [] {
      OccurrenceSumAbsent(ids[..|ids| - 1], id, k);
    }
  }

  /** The RRF table exists exactly when no rank of either list makes
      `rank + k` zero and every id either ranker returned is a known movie. */
  lemma RrfTableSucceeds(docmap: map<int, Document>, bm25Hits: seq<(int, real)>, semanticHits: seq<ChunkResult>, k: int)
    ensures RrfTable(docmap, bm25Hits, semanticHits, k).Success? <==>
      && NoZeroRank(|bm25Hits|, k) && NoZeroRank(|semanticHits|, k)
      && (forall i :: 0 <= i < |bm25Hits| ==> bm25Hits[i].0 in docmap)
      && (forall i :: 0 <= i < |semanticHits| ==> semanticHits[i].id in docmap)
  {
    var bIds, sIds := HitIds(bm25Hits), ResultIds(semanticHits);
    RrfBm25Succeeds(docmap, bIds, k);
    var first := RrfBm25(docmap, bIds, k);
    if first.Success? {
      var t := first.value;
      RrfSemanticSucceeds(t, docmap, sIds, k);
      forall id | id in t.entries ensures id in docmap {
        RrfBm25Entry(docmap, bIds, k, id);
      }
      IdsPresentKnown(t.entries, docmap, sIds);
    }
  }

  /** When every present id is known, "present or known" is "known". */
  lemma IdsPresentKnown<U, V>(present: map<int, U>, docmap: map<int, V>, ids: seq<int>)
    requires forall id :: id in present ==> id in docmap
    ensures (forall i :: 0 <= i < |ids| ==> ids[i] in present || ids[i] in docmap) <==>
      (forall i :: 0 <= i < |ids| ==> ids[i] in docmap)
  {
    forall i | 0 <= i < |ids| && ids[i] in present ensures ids[i] in docmap {
      var id := ids[i];
      assert id in present;
    }
  }

  /** The keys of the RRF table: every BM25 id, then every new semantic id,
      each once. */
  lemma RrfTableOrder(docmap: map<int, Document>, bm25Hits: seq<(int, real)>, semanticHits: seq<ChunkResult>, k: int)
    requires RrfTable(docmap, bm25Hits, semanticHits, k).Success?
    ensures RrfTable(docmap, bm25Hits, semanticHits, k).value.order == Dedup(HitIds(bm25Hits) + ResultIds(semanticHits))
  {
    var bIds, sIds := HitIds(bm25Hits), ResultIds(semanticHits);
    RrfBm25Order(docmap, bIds, k);
    RrfSemanticOrder(RrfBm25(docmap, bIds, k).value, docmap, sIds, k);
    AppendNewConcat([], bIds, sIds);
  }

  /** An entry of the RRF table: a movie either ranker returned, with the
      1-based position of its last occurrence in each list as its rank (0
      for a list that does not hold it), and as RRF score the reciprocal of
      its BM25 rank plus the reciprocals of all its semantic positions. */
  lemma RrfTableEntry(docmap: map<int, Document>, bm25Hits: seq<(int, real)>, semanticHits: seq<ChunkResult>, k: int, id: int)
    requires RrfTable(docmap, bm25Hits, semanticHits, k).Success?
    requires NoZeroRank(|bm25Hits|, k) && NoZeroRank(|semanticHits|, k)
    ensures var t := RrfTable(docmap, bm25Hits, semanticHits, k).value;
      id in t.entries <==> id in HitIds(bm25Hits) || id in ResultIds(semanticHits)
    ensures var t := RrfTable(docmap, bm25Hits, semanticHits, k).value;
      var bIds, sIds := HitIds(bm25Hits), ResultIds(semanticHits);
      id in t.entries ==>
        && id in docmap
        && t.entries[id].document == docmap[id]
        && t.entries[id].bm25Rank == (if id in bIds then LastIndexOf(bIds, id) + 1 else 0)
        && t.entries[id].semanticRank == (if id in sIds then LastIndexOf(sIds, id) + 1 else 0)
        && t.entries[id].rrfScore == (if id in bIds then RecipRank(LastIndexOf(bIds, id) + 1, k) else 0.0) + OccurrenceSum(sIds, id, k)
  {
    var bIds, sIds := HitIds(bm25Hits), ResultIds(semanticHits);
    var t0 := RrfBm25(docmap, bIds, k).value;
    RrfBm25Entry(docmap, bIds, k, id);
    RrfSemanticEntry(t0, docmap, sIds, k, id);
    RrfSemanticKeys(t0, docmap, sIds, k, id);
    if id !in sIds {
      OccurrenceSumAbsent(sIds, id, k);
    }
  }

  /** Each movie once per list: the RRF score of an entry is
      `rrf_score(bm25_rank, semantic_rank, k)`, the two contributions added. */
  lemma RrfTableAdditive(docmap: map<int, Document>, bm25Hits: seq<(int, real)>, semanticHits: seq<ChunkResult>, k: int, id: int)
    requires RrfTable(docmap, bm25Hits, semanticHits, k).Success?
    requires Distinct(ResultIds(semanticHits))
    requires id in RrfTable(docmap, bm25Hits, semanticHits, k).value.entries
    ensures var row := RrfTable(docmap, bm25Hits, semanticHits, k).value.entries[id];
      && RankUsable(row.bm25Rank, k) && RankUsable(row.semanticRank, k)
      && row.rrfScore == RrfScore(row.bm25Rank, row.semanticRank, k)
  {
    RrfTableSucceeds(docmap, bm25Hits, semanticHits, k);
    RrfTableEntry(docmap, bm25Hits, semanticHits, k, id);
    var row := RrfTable(docmap, bm25Hits, semanticHits, k).value.entries[id];
    RankedRow(row, HitIds(bm25Hits), ResultIds(semanticHits), id, k);
  }

  /** A row whose ranks are the last positions of `id` in the two lists and
      whose score adds the reciprocal of each occurrence: when the second
      list has no duplicates, that score is `rrf_score` of the two ranks. */
  lemma RankedRow(row: RankRow, bIds: seq<int>, sIds: seq<int>, id: int, k: int)
    requires NoZeroRank(|bIds|, k) && NoZeroRank(|sIds|, k) && Distinct(sIds)
    requires row.bm25Rank == (if id in bIds then LastIndexOf(bIds, id) + 1 else 0)
    requires row.semanticRank == (if id in sIds then LastIndexOf(sIds, id) + 1 else 0)
    requires row.rrfScore == (if id in bIds then RecipRank(LastIndexOf(bIds, id) + 1, k) else 0.0) + OccurrenceSum(sIds, id, k)
    ensures RankUsable(row.bm25Rank, k) && RankUsable(row.semanticRank, k)
    ensures row.rrfScore == RrfScore(row.bm25Rank, row.semanticRank, k)
  {
    RankOf(bIds, id, k);
    RankOf(sIds, id, k);
    OccurrenceSumDistinct(sIds, id, k);
  }

  /** The rank an id gets from a list (its last 1-based position, or 0)
      can be turned into a reciprocal, which is the one the loops add. */
  lemma RankOf(ids: seq<int>, id: int, k: int)
    requires NoZeroRank(|ids|, k)
    ensures var rank := if id in ids then LastIndexOf(ids, id) + 1 else 0;
      && RankUsable(rank, k)
      && (if id in ids then RecipRank(LastIndexOf(ids, id) + 1, k) else 0.0) == RecipRank(rank, k)
  {
  }

  /** The unsorted RRF results list each movie once, in table order. */
  lemma RrfResultsIds(t: Table<RankRow>)
    requires ValidTable(t)
    ensures DistinctBy(RrfResults(t), RrfId)
    ensures forall i :: 0 <= i < |t.order| ==> RrfResults(t)[i].id == t.order[i]
  {
    var r := RrfResults(t);
    forall i, j | 0 <= i < j < |r| ensures RrfId(r[i]) != RrfId(r[j]) {
      assert r[i].id == t.order[i] && r[j].id == t.order[j];
    }
  }

  /** The BM25 loop of RRF raises only `ZeroDivisionError` or `KeyError`. */
  lemma {:induction false} RrfBm25Errors(docmap: map<int, Document>, ids: seq<int>, k: int)
    ensures RrfBm25(docmap, ids, k).Failure? ==>
      RrfBm25(docmap, ids, k).error == ZeroDivisionError || RrfBm25(docmap, ids, k).error.KeyError?
  {
    if ids != [] {
      RrfBm25Errors(docmap, ids[..|ids| - 1], k);
    }
  }

  /** The semantic loop of RRF raises only `ZeroDivisionError` or `KeyError`. */
  lemma {:induction false} RrfSemanticErrors(t0: Table<RankRow>, docmap: map<int, Document>, ids: seq<int>, k: int)
    requires ValidTable(t0)
    ensures RrfSemantic(t0, docmap, ids, k).Failure? ==>
      RrfSemantic(t0, docmap, ids, k).error == ZeroDivisionError || RrfSemantic(t0, docmap, ids, k).error.KeyError?
  {
    if ids != [] {
      RrfSemanticErrors(t0, docmap, ids[..|ids| - 1], k);
    }
  }

  /** `rrf_search` succeeds exactly when no rank of either list makes
      `rank + k` zero and every id either ranker returned is a known movie;
      otherwise it raises `ZeroDivisionError` or `KeyError`. */
  lemma RrfSpecSucceeds(docmap: map<int, Document>, bm25Hits: seq<(int, real)>, semanticHits: seq<ChunkResult>, k: int, limit: int)
    ensures RrfSpec(docmap, bm25Hits, semanticHits, k, limit).Success? <==>
      && NoZeroRank(|bm25Hits|, k) && NoZeroRank(|semanticHits|, k)
      && (forall i :: 0 <= i < |bm25Hits| ==> bm25Hits[i].0 in docmap)
      && (forall i :: 0 <= i < |semanticHits| ==> semanticHits[i].id in docmap)
    ensures RrfSpec(docmap, bm25Hits, semanticHits, k, limit).Failure? ==>
      RrfSpec(docmap, bm25Hits, semanticHits, k, limit).error == ZeroDivisionError || RrfSpec(docmap, bm25Hits, semanticHits, k, limit).error.KeyError?
  {
    RrfTableSucceeds(docmap, bm25Hits, semanticHits, k);
    var bIds := HitIds(bm25Hits);
    RrfBm25Errors(docmap, bIds, k);
    if RrfBm25(docmap, bIds, k).Success? {
      RrfSemanticErrors(RrfBm25(docmap, bIds, k).value, docmap, ResultIds(semanticHits), k);
    }
  }

  /** What `rrf_search` returns: the `limit` best movies of the table (all
      of them when there are fewer), RRF scores never increasing, each
      movie once, and no movie left out scoring higher than one kept. */
  lemma RrfSpecShape(docmap: map<int, Document>, bm25Hits: seq<(int, real)>, semanticHits: seq<ChunkResult>, k: int, limit: int)
    requires RrfSpec(docmap, bm25Hits, semanticHits, k, limit).Success?
    ensures var r, n := RrfSpec(docmap, bm25Hits, semanticHits, k, limit).value, |Dedup(HitIds(bm25Hits) + ResultIds(semanticHits))|;
      && (limit >= 0 ==> |r| == if limit <= n then limit else n)
      && |r| <= n
      && SortedDesc(r, RrfKey)
      && DistinctBy(r, RrfId)
    ensures var r := RrfSpec(docmap, bm25Hits, semanticHits, k, limit).value;
      var results := RrfResults(RrfTable(docmap, bm25Hits, semanticHits, k).value);
      forall j, i :: 0 <= j < |results| && results[j] !in r && 0 <= i < |r| ==> results[j].rrfScore <= r[i].rrfScore
  {
    var t := RrfTable(docmap, bm25Hits, semanticHits, k).value;
    var results := RrfResults(t);
    var r := RrfSpec(docmap, bm25Hits, semanticHits, k, limit).value;
    RrfTableOrder(docmap, bm25Hits, semanticHits, k);
    RrfResultsIds(t);
    TopDescDistinctBy(results, RrfKey, limit, RrfId);
    TopDescLeftOut(results, RrfKey, limit);
  }

  /** Each result of `rrf_search` is a movie one of the rankers returned,
      with its title and description, the 1-based position of its last
      occurrence in each list as its rank (0 for a list without it), and as
      RRF score the reciprocal of its BM25 rank plus the reciprocals of all
      its semantic positions. */
  lemma RrfSpecMember(docmap: map<int, Document>, bm25Hits: seq<(int, real)>, semanticHits: seq<ChunkResult>, k: int, limit: int, i: int)
    requires RrfSpec(docmap, bm25Hits, semanticHits, k, limit).Success?
    requires 0 <= i < |RrfSpec(docmap, bm25Hits, semanticHits, k, limit).value|
    ensures NoZeroRank(|bm25Hits|, k) && NoZeroRank(|semanticHits|, k)
    ensures var x := RrfSpec(docmap, bm25Hits, semanticHits, k, limit).value[i];
      var bIds, sIds := HitIds(bm25Hits), ResultIds(semanticHits);
      && (x.id in bIds || x.id in sIds)
      && x.id in docmap
      && x.title == docmap[x.id].title
      && x.document == docmap[x.id].description
      && x.bm25Rank == (if x.id in bIds then LastIndexOf(bIds, x.id) + 1 else 0)
      && x.semanticRank == (if x.id in sIds then LastIndexOf(sIds, x.id) + 1 else 0)
      && x.rrfScore == (if x.id in bIds then RecipRank(LastIndexOf(bIds, x.id) + 1, k) else 0.0) + OccurrenceSum(sIds, x.id, k)
  {
    RrfTableSucceeds(docmap, bm25Hits, semanticHits, k);
    var t := RrfTable(docmap, bm25Hits, semanticHits, k).value;
    var results := RrfResults(t);
    var x := RrfSpec(docmap, bm25Hits, semanticHits, k, limit).value[i];
    assert x in results;
    var j :| 0 <= j < |results| && results[j] == x;
    RrfTableEntry(docmap, bm25Hits, semanticHits, k, t.order[j]);
  }

  /** When the semantic ranker returns each movie once, the RRF score of a
      result is `rrf_score(bm25_rank, semantic_rank, k)`. */
  lemma RrfSpecScore(docmap: map<int, Document>, bm25Hits: seq<(int, real)>, semanticHits: seq<ChunkResult>, k: int, limit: int, i: int)
    requires RrfSpec(docmap, bm25Hits, semanticHits, k, limit).Success?
    requires Distinct(ResultIds(semanticHits))
    requires 0 <= i < |RrfSpec(docmap, bm25Hits, semanticHits, k, limit).value|
    ensures var x := RrfSpec(docmap, bm25Hits, semanticHits, k, limit).value[i];
      && RankUsable(x.bm25Rank, k) && RankUsable(x.semanticRank, k)
      && x.rrfScore == RrfScore(x.bm25Rank, x.semanticRank, k)
  {
    RrfSpecMember(docmap, bm25Hits, semanticHits, k, limit, i);
    var x := RrfSpec(docmap, bm25Hits, semanticHits, k, limit).value[i];
    RankedRow(RankRow(docmap[x.id], x.bm25Rank, x.semanticRank, x.rrfScore), HitIds(bm25Hits), ResultIds(semanticHits), x.id, k);
  }

  /** Ties keep table order: the results with one RRF score are the first
      ones with that score among the table entries, which hold the BM25 ids
      and then the new semantic ids, each once. */
  lemma RrfSpecTies(docmap: map<int, Document>, bm25Hits: seq<(int, real)>, semanticHits: seq<ChunkResult>, k: int, limit: int, v: real)
    requires RrfSpec(docmap, bm25Hits, semanticHits, k, limit).Success?
    ensures var t := RrfTable(docmap, bm25Hits, semanticHits, k).value;
      var a, b := WithKey(RrfSpec(docmap, bm25Hits, semanticHits, k, limit).value, RrfKey, v), WithKey(RrfResults(t), RrfKey, v);
      |a| <= |b| && a == b[..|a|]
    ensures var t := RrfTable(docmap, bm25Hits, semanticHits, k).value;
      var ids := Dedup(HitIds(bm25Hits) + ResultIds(semanticHits));
      |RrfResults(t)| == |ids| && forall i :: 0 <= i < |ids| ==> RrfResults(t)[i].id == ids[i]
  {
    var t := RrfTable(docmap, bm25Hits, semanticHits, k).value;
    TopDescStable(RrfResults(t), RrfKey, limit, v);
    RrfTableOrder(docmap, bm25Hits, semanticHits, k);
    RrfResultsIds(t);
  }

  // ----- one step of each loop -----

  /** One more pair of the BM25 loop of `weighted_search`: a known id is
      put in the table, an unknown one ends the loop with `KeyError`. */
  lemma WeightedBm25Step(docmap: map<int, Document>, scored: seq<(int, real)>, i: nat, t: Table<WeightedRow>)
    requires i < |scored| && WeightedBm25(docmap, scored[..i]) == Success(t)
    ensures var (id, s) := scored[i];
      id in docmap ==> WeightedBm25(docmap, scored[..i + 1]) == Success(Put(t, id, WeightedRow(docmap[id], s, 0.0)))
    ensures var id := scored[i].0;
      id !in docmap ==> WeightedBm25(docmap, scored) == Failure(KeyError(id))
  {
    assert scored[..i + 1][..i] == scored[..i];
    if scored[i].0 !in docmap {
      WeightedBm25Fails(docmap, scored, i + 1);
    }
  }

  /** One more pair of the semantic loop of `weighted_search`. */
  lemma WeightedSemanticStep(t0: Table<WeightedRow>, docmap: map<int, Document>, scored: seq<(int, real)>, i: nat, t: Table<WeightedRow>)
    requires ValidTable(t0) && i < |scored| && WeightedSemantic(t0, docmap, scored[..i]) == Success(t)
    ensures var (id, s) := scored[i];
      id in t.entries ==> WeightedSemantic(t0, docmap, scored[..i + 1]) == Success(Put(t, id, t.entries[id].(semanticScore := s)))
    ensures var (id, s) := scored[i];
      id !in t.entries && id in docmap ==> WeightedSemantic(t0, docmap, scored[..i + 1]) == Success(Put(t, id, WeightedRow(docmap[id], 0.0, s)))
    ensures var id := scored[i].0;
      id !in t.entries && id !in docmap ==> WeightedSemantic(t0, docmap, scored) == Failure(KeyError(id))
  {
    assert scored[..i + 1][..i] == scored[..i];
    if scored[i].0 !in t.entries && scored[i].0 !in docmap {
      WeightedSemanticFails(t0, docmap, scored, i + 1);
    }
  }

  /** One more id of the BM25 loop of `rrf_search` that neither divides by
      zero nor is unknown: it is put in the table with its rank. */
  lemma RrfBm25Next(docmap: map<int, Document>, ids: seq<int>, k: int, i: nat, t: Table<RankRow>)
    requires i < |ids| && RrfBm25(docmap, ids[..i], k) == Success(t)
    requires RankUsable(i + 1, k) && ids[i] in docmap
    ensures RrfBm25(docmap, ids[..i + 1], k) == Success(Put(t, ids[i], RankRow(docmap[ids[i]], i + 1, 0, RrfScore(i + 1, 0, k))))
  {
    assert ids[..i + 1][..i] == ids[..i];
  }

  /** The BM25 loop of `rrf_search` stops at a zero `rank + k` with
      `ZeroDivisionError`, else at an unknown id with `KeyError`. */
  lemma RrfBm25Stop(docmap: map<int, Document>, ids: seq<int>, k: int, i: nat, t: Table<RankRow>)
    requires i < |ids| && RrfBm25(docmap, ids[..i], k) == Success(t)
    requires !RankUsable(i + 1, k) || ids[i] !in docmap
    ensures RrfBm25(docmap, ids, k) == if !RankUsable(i + 1, k) then Failure(ZeroDivisionError) else Failure(KeyError(ids[i]))
  {
    assert ids[..i + 1][..i] == ids[..i];
    RrfBm25Fails(docmap, ids, k, i + 1);
  }

  /** One more id of the semantic loop of `rrf_search` that does not divide
      by zero and is present or known: a present id has its semantic rank
      replaced and the reciprocal added, a new id is put with BM25 rank 0. */
  lemma RrfSemanticNext(t0: Table<RankRow>, docmap: map<int, Document>, ids: seq<int>, k: int, i: nat, t: Table<RankRow>, row: RankRow)
    requires ValidTable(t0) && i < |ids| && RrfSemantic(t0, docmap, ids[..i], k) == Success(t)
    requires RankUsable(i + 1, k) && (ids[i] in t.entries || ids[i] in docmap)
    requires var id, rrf := ids[i], RrfScore(0, i + 1, k);
      row == if id in t.entries then t.entries[id].(semanticRank := i + 1, rrfScore := t.entries[id].rrfScore + rrf)
        else RankRow(docmap[id], 0, i + 1, rrf)
    ensures RrfSemantic(t0, docmap, ids[..i + 1], k) == Success(Put(t, ids[i], row))
  {
    assert ids[..i + 1][..i] == ids[..i];
  }

  /** The semantic loop of `rrf_search` stops at a zero `rank + k` with
      `ZeroDivisionError`, else at an id neither present nor known with
      `KeyError`. */
  lemma RrfSemanticStop(t0: Table<RankRow>, docmap: map<int, Document>, ids: seq<int>, k: int, i: nat, t: Table<RankRow>)
    requires ValidTable(t0) && i < |ids| && RrfSemantic(t0, docmap, ids[..i], k) == Success(t)
    requires !RankUsable(i + 1, k) || (ids[i] !in t.entries && ids[i] !in docmap)
    ensures RrfSemantic(t0, docmap, ids, k) == if !RankUsable(i + 1, k) then Failure(ZeroDivisionError) else Failure(KeyError(ids[i]))
  {
    assert ids[..i + 1][..i] == ids[..i];
    RrfSemanticFails(t0, docmap, ids, k, i + 1);
  }

  // ----- the searcher -----

  /** `semantic_results[i]["score"] = normalized_semantic_scores[i]` for each
      position: every result takes the score at its position, and nothing
      else about the results changes. */
  method OverwriteScores(results: seq<ChunkResult>, scores: seq<real>) returns (r: seq<ChunkResult>)
    requires |scores| == |results|
    ensures |r| == |results| && forall i :: 0 <= i < |r| ==> r[i] == results[i].(score := scores[i])
    ensures ResultIds(r) == ResultIds(results) && ResultScores(r) == scores
  {
    r := results;
    var i := 0;
    while i < |scores|
      invariant 0 <= i <= |scores| && |r| == |results|
      invariant forall j :: 0 <= j < i ==> r[j] == results[j].(score := scores[j])
      invariant forall j :: i <= j < |r| ==> r[j] == results[j]
    {
      r := r[i := r[i].(score := scores[i])];
      i := i + 1;
    }
    assert forall j :: 0 <= j < |r| ==> ResultIds(r)[j] == ResultIds(results)[j];
    assert forall j :: 0 <= j < |r| ==> ResultScores(r)[j] == scores[j];
  }

  /** The hybrid searcher: the movies, the id-to-movie map, the two rankers
      (BM25 and chunked semantic search, each given a query and a number of
      candidates, each either returning its results or raising, as
      `search_chunk` raises `IndexError` when asked for more movies than it
      scored) and the score normalization. */
  class HybridSearch {
    var documents: seq<Document>
    var documentMap: map<int, Document>
    const bm25Search: (string, int) -> Result<seq<(int, real)>>
    const semanticSearch: (string, int) -> Result<seq<ChunkResult>>
    const normalize: Normalizer

    /** Keeps the movies and maps each id to the last movie with that id. */
    constructor (docs: seq<Document>, bm25: (string, int) -> Result<seq<(int, real)>>, semantic: (string, int) -> Result<seq<ChunkResult>>, norm: Normalizer)
      ensures documents == docs && documentMap == Register(map[], docs)
      ensures bm25Search == bm25 && semanticSearch == semantic && normalize == norm
    {
      documents := docs;
      bm25Search := bm25;
      semanticSearch := semantic;
      normalize := norm;
      var m: map<int, Document> := map[];
      var i := 0;
      while i < |docs|
        invariant 0 <= i <= |docs|
        invariant m == Register(map[], docs[..i])
      {
        assert docs[..i + 1][..i] == docs[..i];
        m := m[docs[i].id := docs[i]];
        i := i + 1;
      }
      assert docs[..i] == docs;
      documentMap := m;
    }

    /** The BM25 loop of `weighted_search`, each id paired with the
        normalized score at its position. */
    method WeightedBm25Loop(bm25Results: seq<(int, real)>, scores: seq<real>) returns (r: Result<Table<WeightedRow>>)
      requires |scores| == |bm25Results|
      ensures r == WeightedBm25(documentMap, Zip(HitIds(bm25Results), scores))
    {
      ghost var scored := Zip(HitIds(bm25Results), scores);
      var t: Table<WeightedRow> := Empty();
      var i := 0;
      while i < |bm25Results|
        invariant 0 <= i <= |bm25Results|
        invariant WeightedBm25(documentMap, scored[..i]) == Success(t)
      {
        var docId := bm25Results[i].0;
        assert scored[i] == (docId, scores[i]);
        WeightedBm25Step(documentMap, scored, i, t);
        if docId !in documentMap {
          return Failure(KeyError(docId));
        }
        t := Put(t, docId, WeightedRow(documentMap[docId], scores[i], 0.0));
        i := i + 1;
      }
      assert scored[..i] == scored;
      return Success(t);
    }

    /** The semantic loop of `weighted_search` from the BM25 table. */
    method WeightedSemanticLoop(t0: Table<WeightedRow>, semanticResults: seq<ChunkResult>, scores: seq<real>) returns (r: Result<Table<WeightedRow>>)
      requires ValidTable(t0) && |scores| == |semanticResults|
      ensures r == WeightedSemantic(t0, documentMap, Zip(ResultIds(semanticResults), scores))
    {
      ghost var scored := Zip(ResultIds(semanticResults), scores);
      var t := t0;
      var i := 0;
      while i < |semanticResults|
        invariant 0 <= i <= |semanticResults|
        invariant WeightedSemantic(t0, documentMap, scored[..i]) == Success(t)
      {
        var docId := semanticResults[i].id;
        assert scored[i] == (docId, scores[i]);
        WeightedSemanticStep(t0, documentMap, scored, i, t);
        if docId !in t.entries {
          if docId !in documentMap {
            return Failure(KeyError(docId));
          }
          t := Put(t, docId, WeightedRow(documentMap[docId], 0.0, scores[i]));
        } else {
          t := Put(t, docId, t.entries[docId].(semanticScore := scores[i]));
        }
        i := i + 1;
      }
      assert scored[..i] == scored;
      return Success(t);
    }

    /** The results loop of `weighted_search` over `document_scores.items()`,
        with the hybrid score weighted by `alpha`. */
    method WeightedResultsLoop(t: Table<WeightedRow>, alpha: real) returns (results: seq<WeightedResult>)
      requires ValidTable(t)
      ensures results == WeightedResults(t, alpha)
    {
      var items := Items(t);
      results := [];
      var i := 0;
      while i < |items|
        invariant 0 <= i <= |items|
        invariant results == WeightedResults(t, alpha)[..i]
      {
        var (docId, data) := items[i];
        var combinedScore := HybridScore(data.bm25Score, data.semanticScore, alpha);
        results := results + [WeightedResult(docId, data.document.title, combinedScore, data.bm25Score, data.semanticScore, data.document.description)];
        i := i + 1;
      }
    }

    /** `weighted_search`: both rankers are asked for `limit * 50`
        candidates, their scores are normalized and merged per movie, and the
        best `limit` hybrid scores are returned. A ranker that raises stops
        the search with its exception, the BM25 one first. */
    method WeightedSearch(query: string, alpha: real, limit: int) returns (r: Result<seq<WeightedResult>>)
      ensures bm25Search(query, limit * CandidateFactor).Failure? ==> r == Failure(bm25Search(query, limit * CandidateFactor).error)
      ensures bm25Search(query, limit * CandidateFactor).Success? && semanticSearch(query, limit * CandidateFactor).Failure? ==>
        r == Failure(semanticSearch(query, limit * CandidateFactor).error)
      ensures bm25Search(query, limit * CandidateFactor).Success? && semanticSearch(query, limit * CandidateFactor).Success? ==>
        r == WeightedSpec(documentMap, bm25Search(query, limit * CandidateFactor).value, semanticSearch(query, limit * CandidateFactor).value, normalize, alpha, limit)
    {
      var bm25Ranked := bm25Search(query, limit * CandidateFactor);
      if bm25Ranked.Failure? {
        return Failure(bm25Ranked.error);
      }
      var semanticRanked := semanticSearch(query, limit * CandidateFactor);
      if semanticRanked.Failure? {
        return Failure(semanticRanked.error);
      }
      var bm25Results := bm25Ranked.value;
      var semanticResults := semanticRanked.value;
      ghost var semanticHits := semanticResults;
      var normalizedBm25 := Normalized(normalize, HitScores(bm25Results));
      var normalizedSemantic := Normalized(normalize, ResultScores(semanticResults));
      semanticResults := OverwriteScores(semanticResults, normalizedSemantic);
      var first := WeightedBm25Loop(bm25Results, normalizedBm25);
      if first.Failure? {
        return Failure(first.error);
      }
      var scores := WeightedSemanticLoop(first.value, semanticResults, normalizedSemantic);
      if scores.Failure? {
        return Failure(scores.error);
      }
      assert scores == WeightedTable(documentMap, bm25Results, semanticHits, normalize);
      var results := WeightedResultsLoop(scores.value, alpha);
      results := SortDesc(results, HybridKey);
      return Success(PyPrefix(results, limit));
    }

    /** The BM25 loop of `rrf_search`. */
    method RrfBm25Loop(bm25Results: seq<(int, real)>, k: int) returns (r: Result<Table<RankRow>>)
      ensures r == RrfBm25(documentMap, HitIds(bm25Results), k)
    {
      ghost var ids := HitIds(bm25Results);
      var t: Table<RankRow> := Empty();
      var i := 0;
      while i < |bm25Results|
        invariant 0 <= i <= |bm25Results|
        invariant RrfBm25(documentMap, ids[..i], k) == Success(t)
      {
        var docId := bm25Results[i].0;
        var bm25Rank := i + 1;
        assert ids[i] == docId;
        if !RankUsable(bm25Rank, k) {
          RrfBm25Stop(documentMap, ids, k, i, t);
          return Failure(ZeroDivisionError);
        }
        var rrf := RrfScore(bm25Rank, 0, k);
        if docId !in documentMap {
          RrfBm25Stop(documentMap, ids, k, i, t);
          return Failure(KeyError(docId));
        }
        RrfBm25Next(documentMap, ids, k, i, t);
        t := Put(t, docId, RankRow(documentMap[docId], bm25Rank, 0, rrf));
        i := i + 1;
      }
      assert ids[..i] == ids;
      return Success(t);
    }

    /** The semantic loop of `rrf_search` from the BM25 table. */
    method RrfSemanticLoop(t0: Table<RankRow>, semanticResults: seq<ChunkResult>, k: int) returns (r: Result<Table<RankRow>>)
      requires ValidTable(t0)
      ensures r == RrfSemantic(t0, documentMap, ResultIds(semanticResults), k)
    {
      ghost var ids := ResultIds(semanticResults);
      var t := t0;
      var i := 0;
      while i < |semanticResults|
        invariant 0 <= i <= |semanticResults|
        invariant RrfSemantic(t0, documentMap, ids[..i], k) == Success(t)
      {
        var docId := semanticResults[i].id;
        var semanticRank := i + 1;
        assert ids[i] == docId;
        if !RankUsable(semanticRank, k) {
          RrfSemanticStop(t0, documentMap, ids, k, i, t);
          return Failure(ZeroDivisionError);
        }
        var rrf := RrfScore(0, semanticRank, k);
        var row: RankRow;
        if docId !in t.entries {
          if docId !in documentMap {
            RrfSemanticStop(t0, documentMap, ids, k, i, t);
            return Failure(KeyError(docId));
          }
          row := RankRow(documentMap[docId], 0, semanticRank, rrf);
        } else {
          row := t.entries[docId].(semanticRank := semanticRank, rrfScore := t.entries[docId].rrfScore + rrf);
        }
        RrfSemanticNext(t0, documentMap, ids, k, i, t, row);
        t := Put(t, docId, row);
        i := i + 1;
      }
      assert ids[..i] == ids;
      return Success(t);
    }

    /** The results loop of `rrf_search` over `document_ranks.items()`. */
    method RrfResultsLoop(t: Table<RankRow>) returns (results: seq<RrfResult>)
      requires ValidTable(t)
      ensures results == RrfResults(t)
    {
      var items := Items(t);
      results := [];
      var i := 0;
      while i < |items|
        invariant 0 <= i <= |items|
        invariant results == RrfResults(t)[..i]
      {
        var (docId, data) := items[i];
        results := results + [RrfResult(docId, data.document.title, data.rrfScore, data.bm25Rank, data.semanticRank, data.document.description)];
        i := i + 1;
      }
    }

    /** `rrf_search`: both rankers are asked for `limit * 50` candidates,
        each movie is scored by the reciprocals of its ranks, and the best
        `limit` RRF scores are returned. A ranker that raises stops the
        search with its exception, the BM25 one first. */
    method RrfSearch(query: string, k: int, limit: int) returns (r: Result<seq<RrfResult>>)
      ensures bm25Search(query, limit * CandidateFactor).Failure? ==> r == Failure(bm25Search(query, limit * CandidateFactor).error)
      ensures bm25Search(query, limit * CandidateFactor).Success? && semanticSearch(query, limit * CandidateFactor).Failure? ==>
        r == Failure(semanticSearch(query, limit * CandidateFactor).error)
      ensures bm25Search(query, limit * CandidateFactor).Success? && semanticSearch(query, limit * CandidateFactor).Success? ==>
        r == RrfSpec(documentMap, bm25Search(query, limit * CandidateFactor).value, semanticSearch(query, limit * CandidateFactor).value, k, limit)
    {
      var bm25Ranked := bm25Search(query, limit * CandidateFactor);
      if bm25Ranked.Failure? {
        return Failure(bm25Ranked.error);
      }
      var semanticRanked := semanticSearch(query, limit * CandidateFactor);
      if semanticRanked.Failure? {
        return Failure(semanticRanked.error);
      }
      var bm25Results := bm25Ranked.value;
      var semanticResults := semanticRanked.value;
      var first := RrfBm25Loop(bm25Results, k);
      if first.Failure? {
        return Failure(first.error);
      }
      var ranks := RrfSemanticLoop(first.value, semanticResults, k);
      if ranks.Failure? {
        return Failure(ranks.error);
      }
      var results := RrfResultsLoop(ranks.value);
      results := SortDesc(results, RrfKey);
      return Success(PyPrefix(results, limit));
    }
  }
}
