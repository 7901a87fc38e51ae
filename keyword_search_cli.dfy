/** The `search` and `tfidf` commands of the keyword search command line,
    over an index that has already been built or loaded. */
module KeywordSearchCli {
  import opened Wrappers
  import opened Documents
  import opened Sequences
  import opened Index

  /** The `search` command stops collecting after this many ids. */
  const MaxResults := 5

  /** The ids kept when the loop scans `ids` from `seen` on: an id is added
      unless `MaxResults` ids are already kept or it was kept before. */
  function Collect(seen: seq<int>, ids: seq<int>): seq<int>
  {
    if ids == [] then seen
    else
      var a := Collect(seen, ids[..|ids| - 1]);
      var x := ids[|ids| - 1];
      if |a| >= MaxResults || x in a then a else a + [x]
  }

  /** The lists one after the other. */
  function Flatten(lists: seq<seq<int>>): seq<int>
  {
    if lists == [] then [] else Flatten(lists[..|lists| - 1]) + lists[|lists| - 1]
  }

  /** `index.get_documents(token)` for each query token, in order. */
  function DocLists(idx: InvertedIndex, tokens: seq<string>): (r: seq<seq<int>>)
    reads idx
    ensures |r| == |tokens| && forall i :: 0 <= i < |tokens| ==> r[i] == idx.GetDocuments(tokens[i])
  {
    if tokens == [] then [] else DocLists(idx, tokens[..|tokens| - 1]) + [idx.GetDocuments(tokens[|tokens| - 1])]
  }

  lemma {:induction false} CollectConcat(seen: seq<int>, a: seq<int>, b: seq<int>)
    ensures Collect(seen, a + b) == Collect(Collect(seen, a), b)
    decreases |b|
  {
    if b == [] {
      assert a + b == a;
    } else {
      var n := |b| - 1;
      assert (a + b)[..|a + b| - 1] == a + b[..n];
      assert (a + b)[|a + b| - 1] == b[n];
      CollectConcat(seen, a, b[..n]);
    }
  }

  /** Once `MaxResults` ids are kept, nothing more is added. */
  lemma {:induction false} CollectFull(seen: seq<int>, ids: seq<int>)
    requires |seen| >= MaxResults
    ensures Collect(seen, ids) == seen
  {
    if ids != [] {
      CollectFull(seen, ids[..|ids| - 1]);
    }
  }

  /** The collected ids are the first `MaxResults` distinct ids in order of
      first occurrence. */
  lemma {:induction false} CollectIsPrefixOfDedup(ids: seq<int>)
    ensures Collect([], ids) == PyPrefix(Dedup(ids), MaxResults)
  {
    if ids != [] {
      var init, x := ids[..|ids| - 1], ids[|ids| - 1];
      CollectIsPrefixOfDedup(init);
      assert ids == init + [x];
      AppendNewConcat([], init, [x]);
      assert [x][..0] == [];
      assert AppendNew(AppendNew([], init), [x]) == (if x in Dedup(init) then Dedup(init) else Dedup(init) + [x]);
      var a := Collect([], init);
      if |a| < MaxResults {
        assert a == Dedup(init);
      }
    }
  }

  /** What the `search` command promises of its ids: at most `MaxResults`,
      no duplicates, each taken from the scanned ids, and all of them when
      fewer than `MaxResults` distinct ids were scanned. */
  lemma {:induction false} CollectShape(ids: seq<int>)
    ensures var r := Collect([], ids);
      && |r| <= MaxResults
      && Distinct(r)
      && (forall i :: 0 <= i < |r| ==> r[i] in ids)
      && (|Dedup(ids)| < MaxResults ==> forall i :: 0 <= i < |ids| ==> ids[i] in r)
  {
    CollectIsPrefixOfDedup(ids);
    var d := Dedup(ids);
    var r := Collect([], ids);
    assert Distinct(d);
    assert r == d[..|r|];
    forall i | 0 <= i < |r| ensures r[i] in ids {
      assert r[i] == d[i];
    }
  }

  /** An element of the flattened lists lies in one of them. */
  lemma {:induction false} FlattenMember(lists: seq<seq<int>>, x: int)
    requires x in Flatten(lists)
    ensures exists i :: 0 <= i < |lists| && x in lists[i]
  {
    var init := lists[..|lists| - 1];
    if x !in lists[|lists| - 1] {
      FlattenMember(init, x);
      var i :| 0 <= i < |init| && x in init[i];
      assert lists[i] == init[i];
    }
  }

  /** One more scanned id. */
  lemma CollectStep(seen: seq<int>, ids: seq<int>, j: int)
    requires 0 <= j < |ids|
    ensures var a := Collect(seen, ids[..j]);
      Collect(seen, ids[..j + 1]) == if |a| >= MaxResults || ids[j] in a then a else a + [ids[j]]
  {
    assert ids[..j + 1][..j] == ids[..j];
  }

  /** Leaving the scan of `ids` early once `MaxResults` ids are kept changes
      nothing. */
  lemma CollectBreak(seen: seq<int>, ids: seq<int>, j: int)
    requires 0 <= j <= |ids| && |Collect(seen, ids[..j])| >= MaxResults
    ensures Collect(seen, ids) == Collect(seen, ids[..j])
  {
    CollectConcat(seen, ids[..j], ids[j..]);
    assert ids[..j] + ids[j..] == ids;
    CollectFull(Collect(seen, ids[..j]), ids[j..]);
  }

  /** The documents of one more query token. */
  lemma FlattenStep(lists: seq<seq<int>>, i: int)
    requires 0 <= i < |lists|
    ensures Collect([], Flatten(lists[..i + 1])) == Collect(Collect([], Flatten(lists[..i])), lists[i])
  {
    assert lists[..i + 1][..i] == lists[..i];
    CollectConcat([], Flatten(lists[..i]), lists[i]);
  }

  /** The inner loop of the `search` command over one token's documents:
      it stops as soon as `MaxResults` ids are kept. */
  method ScanDocuments(start: seq<int>, docs: seq<int>) returns (seen: seq<int>)
    ensures seen == Collect(start, docs)
  {
    seen := start;
    var j := 0;
    while j < |docs|
      invariant 0 <= j <= |docs|
      invariant seen == Collect(start, docs[..j])
    {
      if |seen| >= MaxResults {
        break;
      }
      CollectStep(start, docs, j);
      if docs[j] !in seen {
        seen := seen + [docs[j]];
      }
      j := j + 1;
    }
    if j < |docs| {
      CollectBreak(start, docs, j);
    } else {
      assert docs[..j] == docs;
    }
  }

  /** The ids of the `search` command: the query is tokenized, and the
      documents of each token are scanned in ascending id order. */
  method SearchIds(idx: InvertedIndex, query: string) returns (seen: seq<int>)
    ensures seen == Collect([], Flatten(DocLists(idx, idx.tokenize(query))))
  {
    var queryTokens := idx.tokenize(query);
    ghost var lists := DocLists(idx, queryTokens);
    seen := [];
    var i := 0;
    while i < |queryTokens|
      invariant 0 <= i <= |queryTokens|
      invariant seen == Collect([], Flatten(lists[..i]))
    {
      var docs := idx.GetDocuments(queryTokens[i]);
      assert docs == lists[i];
      FlattenStep(lists, i);
      seen := ScanDocuments(seen, docs);
      i := i + 1;
    }
    assert lists[..i] == lists;
  }

  /** Every id the `search` command collects is a document of one of the
      query tokens. */
  lemma {:induction false} SearchIdsFromTokens(idx: InvertedIndex, query: string, x: int)
    requires x in Collect([], Flatten(DocLists(idx, idx.tokenize(query))))
    ensures exists i :: 0 <= i < |idx.tokenize(query)| && x in idx.GetDocuments(idx.tokenize(query)[i])
  {
    var lists := DocLists(idx, idx.tokenize(query));
    CollectShape(Flatten(lists));
    var r := Collect([], Flatten(lists));
    var k :| 0 <= k < |r| && r[k] == x;
    FlattenMember(lists, x);
  }

  /** `[index.docmap[d] for d in ids]`: a missing id raises `KeyError`. */
  function DocumentsOf(docmap: map<int, Document>, ids: seq<int>): (r: Result<seq<Document>>)
    ensures r.Success? <==> forall i :: 0 <= i < |ids| ==> ids[i] in docmap
    ensures r.Success? ==> |r.value| == |ids| && forall i :: 0 <= i < |ids| ==> r.value[i] == docmap[ids[i]]
  {
    if ids == [] then Success([])
    else
      match DocumentsOf(docmap, ids[..|ids| - 1])
      case Failure(e) => Failure(e)
      case Success(init) =>
        var x := ids[|ids| - 1];
        if x in docmap then Success(init + [docmap[x]]) else Failure(KeyError(x))
  }

  /** In a valid index every collected id is a known document, so the
      `search` command returns their documents without raising. */
  lemma {:induction false} SearchFindsDocuments(idx: InvertedIndex, query: string)
    requires idx.Valid()
    ensures DocumentsOf(idx.docmap, Collect([], Flatten(DocLists(idx, idx.tokenize(query))))).Success?
  {
    var ids := Collect([], Flatten(DocLists(idx, idx.tokenize(query))));
    forall k | 0 <= k < |ids| ensures ids[k] in idx.docmap {
      SearchIdsFromTokens(idx, query, ids[k]);
      var i :| 0 <= i < |idx.tokenize(query)| && ids[k] in idx.GetDocuments(idx.tokenize(query)[i]);
      var ps := PostingsOf(idx.index, TextPreprocessing.Lower(idx.tokenize(query)[i]));
      assert ids[k] in ps;
      var j :| 0 <= j < |ps| && ps[j] == ids[k];
    }
  }

  /** The `tfidf` command: `get_tf(doc_id, term) * get_idf(term)`. The term
      frequency is computed first, and `get_idf` cannot fail once it has
      succeeded, so its own error case never shows. */
  function TfIdf(idx: InvertedIndex, docId: int, term: string, ln: real -> real): (r: Result<real>)
    reads idx
    ensures |idx.tokenize(term)| == 0 ==> r == Failure(IndexError)
    ensures |idx.tokenize(term)| > 1 ==> r == Failure(ValueError(SingleToken))
    ensures |idx.tokenize(term)| == 1 ==> r.Success?
  {
    var tf := idx.GetTf(docId, term);
    if tf.Failure? then Failure(tf.error)
    else Success(tf.value as real * idx.GetIdf(term, ln).value)
  }

  /** In a valid index, TF-IDF is the posting count times the IDF: 0 for a
      document without the term, and never negative. */
  lemma {:induction false} TfIdfValue(idx: InvertedIndex, docId: int, term: string, ln: real -> real)
    requires idx.Valid() && LogLike(ln) && |idx.tokenize(term)| == 1
    ensures var t := idx.tokenize(term)[0];
      TfIdf(idx, docId, term, ln).value == multiset(PostingsOf(idx.index, t))[docId] as real * idx.GetIdf(term, ln).value
    ensures docId !in PostingsOf(idx.index, idx.tokenize(term)[0]) ==> TfIdf(idx, docId, term, ln) == Success(0.0)
    ensures TfIdf(idx, docId, term, ln).value >= 0.0
  {
    idx.TfCountsPostings(docId, term);
    idx.IdfSigns(term, ln);
    var c := multiset(PostingsOf(idx.index, idx.tokenize(term)[0]))[docId] as real;
    assert c >= 0.0;
    MulNonnegReal(c, idx.GetIdf(term, ln).value);
  }

  lemma MulNonnegReal(a: real, b: real)
    requires a >= 0.0 && b >= 0.0
    ensures a * b >= 0.0
  {
  }
}
