/** The keyword inverted index: a posting list per token (one entry per
    occurrence), the documents by id, and per-document token counts. */
module Index {
  import opened Wrappers
  import opened Documents
  import Sorting
  import TextPreprocessing
  import Sequences

  /** token -> ids of the documents it occurs in, once per occurrence. */
  type Postings = map<string, seq<int>>

  /** doc id -> token -> number of occurrences (a `Counter` per document). */
  type Counts = map<int, map<string, nat>>

  const SingleToken := "Term must be a single token"

  /** `index.get(token, [])`. */
  function PostingsOf(index: Postings, token: string): seq<int>
  {
    if token in index then index[token] else []
  }

  /** `term_frequency.get(doc_id, Counter()).get(token, 0)`. */
  function CountOf(tf: Counts, docId: int, token: string): nat
  {
    if docId in tf && token in tf[docId] then tf[docId][token] else 0
  }

  /** The posting lists after `docId` is appended once for each token, in order. */
  function AddPostings(index: Postings, docId: int, tokens: seq<string>): Postings
  {
    if tokens == [] then index
    else
      var m := AddPostings(index, docId, tokens[..|tokens| - 1]);
      var t := tokens[|tokens| - 1];
      m[t := PostingsOf(m, t) + [docId]]
  }

  /** The counts after each token of `docId` is counted once more. */
  function AddCounts(tf: Counts, docId: int, tokens: seq<string>): Counts
  {
    if tokens == [] then tf
    else
      var m := AddCounts(tf, docId, tokens[..|tokens| - 1]);
      var t := tokens[|tokens| - 1];
      m[docId := Bump(if docId in m then m[docId] else map[], t)]
  }

  /** `counter[t] += 1` on a `Counter`, whose missing entries count 0. */
  function Bump(counter: map<string, nat>, t: string): (r: map<string, nat>)
    ensures r.Keys == counter.Keys + {t}
    ensures r[t] == (if t in counter then counter[t] else 0) + 1
    ensures forall u :: u in counter && u != t ==> r[u] == counter[u]
  {
    counter[t := (if t in counter then counter[t] else 0) + 1]
  }

  /** Adding a document's tokens appends, for each token `t`, one entry
      `docId` per occurrence of `t`, and no other entry. */
  lemma {:induction false} AddPostingsOccurrences(index: Postings, docId: int, tokens: seq<string>, t: string, x: int)
    ensures multiset(PostingsOf(AddPostings(index, docId, tokens), t))[x]
      == multiset(PostingsOf(index, t))[x] + (if x == docId then multiset(tokens)[t] else 0)
  {
    if tokens != [] {
      var init, last := tokens[..|tokens| - 1], tokens[|tokens| - 1];
      AddPostingsOccurrences(index, docId, init, t, x);
      assert tokens == init + [last];
      PostingStep(AddPostings(index, docId, init), docId, last, t, x);
    }
  }

  /** One more posting `docId` for `u` changes only that one occurrence count. */
  lemma PostingStep(m: Postings, docId: int, u: string, t: string, x: int)
    ensures multiset(PostingsOf(m[u := PostingsOf(m, u) + [docId]], t))[x]
      == multiset(PostingsOf(m, t))[x] + (if x == docId && t == u then 1 else 0)
  {
  }

  /** Adding a document's tokens raises its count of each token by the
      token's number of occurrences and leaves every other count alone. */
  lemma {:induction false} AddCountsOccurrences(tf: Counts, docId: int, tokens: seq<string>, t: string, x: int)
    ensures CountOf(AddCounts(tf, docId, tokens), x, t)
      == CountOf(tf, x, t) + (if x == docId then multiset(tokens)[t] else 0)
  {
    if tokens != [] {
      var init, last := tokens[..|tokens| - 1], tokens[|tokens| - 1];
      AddCountsOccurrences(tf, docId, init, t, x);
      assert tokens == init + [last];
      CountStep(AddCounts(tf, docId, init), docId, last, t, x);
    }
  }

  /** One more occurrence of `u` in `docId` changes only that one count. */
  lemma CountStep(m: Counts, docId: int, u: string, t: string, x: int)
    ensures var c := if docId in m then m[docId] else map[];
      CountOf(m[docId := Bump(c, u)], x, t)
        == CountOf(m, x, t) + (if x == docId && t == u then 1 else 0)
  {
  }

  lemma AddPostingsSnoc(index: Postings, docId: int, tokens: seq<string>, t: string)
    ensures var m := AddPostings(index, docId, tokens);
      AddPostings(index, docId, tokens + [t]) == m[t := PostingsOf(m, t) + [docId]]
  {
    assert (tokens + [t])[..|tokens|] == tokens;
  }

  lemma AddCountsSnoc(tf: Counts, docId: int, tokens: seq<string>, t: string)
    ensures var m := AddCounts(tf, docId, tokens);
      AddCounts(tf, docId, tokens + [t]) == m[docId := Bump(if docId in m then m[docId] else map[], t)]
  {
    assert (tokens + [t])[..|tokens|] == tokens;
  }

  /** Posting lists only ever grow at their end. */
  lemma {:induction false} AddPostingsExtends(index: Postings, docId: int, tokens: seq<string>, t: string)
    ensures var old_ := PostingsOf(index, t); var new_ := PostingsOf(AddPostings(index, docId, tokens), t);
      |old_| <= |new_| && new_[..|old_|] == old_
      && forall i :: |old_| <= i < |new_| ==> new_[i] == docId
  {
    if tokens != [] {
      AddPostingsExtends(index, docId, tokens[..|tokens| - 1], t);
    }
  }

  /** The cross-map invariant: the number of times a document occurs in a
      token's posting list is its count of that token. */
  ghost predicate Consistent(index: Postings, tf: Counts)
  {
    forall t, x :: multiset(PostingsOf(index, t))[x] == CountOf(tf, x, t)
  }

  /** Every posting and every counted document is a known document. */
  predicate Covered(index: Postings, docmap: map<int, Document>, tf: Counts)
  {
    && (forall t, i :: t in index && 0 <= i < |index[t]| ==> index[t][i] in docmap)
    && (forall x :: x in tf ==> x in docmap)
  }

  lemma {:induction false} AddKeepsConsistent(index: Postings, tf: Counts, docId: int, tokens: seq<string>)
    requires Consistent(index, tf)
    ensures Consistent(AddPostings(index, docId, tokens), AddCounts(tf, docId, tokens))
  {
    forall t, x
      ensures multiset(PostingsOf(AddPostings(index, docId, tokens), t))[x] == CountOf(AddCounts(tf, docId, tokens), x, t)
    {
      AddPostingsOccurrences(index, docId, tokens, t, x);
      AddCountsOccurrences(tf, docId, tokens, t, x);
    }
  }

  /** Adding a document's tokens creates entries for `docId` only. */
  lemma {:induction false} AddAddsOnlyDocId(index: Postings, tf: Counts, docId: int, tokens: seq<string>)
    ensures forall t, i :: t in AddPostings(index, docId, tokens) && 0 <= i < |AddPostings(index, docId, tokens)[t]| ==>
      AddPostings(index, docId, tokens)[t][i] == docId || (t in index && i < |index[t]| && AddPostings(index, docId, tokens)[t][i] == index[t][i])
    ensures forall x :: x in AddCounts(tf, docId, tokens) ==> x == docId || x in tf
  {
    if tokens != [] {
      AddAddsOnlyDocId(index, tf, docId, tokens[..|tokens| - 1]);
    }
  }

  /** The three maps as one value. */
  datatype IndexState = IndexState(index: Postings, docmap: map<int, Document>, termFrequency: Counts)

  /** The state after `build` adds `movies` in order: each movie's text is
      tokenized and counted, and its id mapped to the movie. */
  function BuildState(s: IndexState, tokenize: string -> seq<string>, movies: seq<Document>): IndexState
  {
    if movies == [] then s
    else
      var p := BuildState(s, tokenize, movies[..|movies| - 1]);
      var m := movies[|movies| - 1];
      var tokens := tokenize(IndexedText(m));
      IndexState(AddPostings(p.index, m.id, tokens), p.docmap[m.id := m], AddCounts(p.termFrequency, m.id, tokens))
  }

  /** `build` keeps postings and counts in agreement. */
  lemma {:induction false} BuildKeepsConsistent(s: IndexState, tokenize: string -> seq<string>, movies: seq<Document>)
    requires Consistent(s.index, s.termFrequency)
    ensures var r := BuildState(s, tokenize, movies); Consistent(r.index, r.termFrequency)
  {
    if movies != [] {
      var p := BuildState(s, tokenize, movies[..|movies| - 1]);
      BuildKeepsConsistent(s, tokenize, movies[..|movies| - 1]);
      var m := movies[|movies| - 1];
      AddKeepsConsistent(p.index, p.termFrequency, m.id, tokenize(IndexedText(m)));
    }
  }

  /** After `build`, every id in a posting list and every counted id is a key of the document map. */
  lemma {:induction false} BuildKeepsCovered(s: IndexState, tokenize: string -> seq<string>, movies: seq<Document>)
    requires Covered(s.index, s.docmap, s.termFrequency)
    ensures var r := BuildState(s, tokenize, movies); Covered(r.index, r.docmap, r.termFrequency)
  {
    if movies != [] {
      var p := BuildState(s, tokenize, movies[..|movies| - 1]);
      BuildKeepsCovered(s, tokenize, movies[..|movies| - 1]);
      var m := movies[|movies| - 1];
      AddAddsOnlyDocId(p.index, p.termFrequency, m.id, tokenize(IndexedText(m)));
    }
  }

  /** `build` fills the document map as `Register` does, so an id maps to
      the last movie with that id (`RegisterLast`). */
  lemma {:induction false} BuildDocmapRegisters(s: IndexState, tokenize: string -> seq<string>, movies: seq<Document>)
    ensures BuildState(s, tokenize, movies).docmap == Register(s.docmap, movies)
  {
    if movies != [] {
      BuildDocmapRegisters(s, tokenize, movies[..|movies| - 1]);
    }
  }

  /** The occurrences of token `t` over the movies with id `x`: counts of a
      repeated id add up, because a document's counter is never reset. */
  function TokenOccurrences(tokenize: string -> seq<string>, movies: seq<Document>, x: int, t: string): nat
  {
    if movies == [] then 0
    else
      var m := movies[|movies| - 1];
      TokenOccurrences(tokenize, movies[..|movies| - 1], x, t) + (if m.id == x then multiset(tokenize(IndexedText(m)))[t] else 0)
  }

  lemma {:induction false} BuildCountsAccumulate(s: IndexState, tokenize: string -> seq<string>, movies: seq<Document>, x: int, t: string)
    ensures CountOf(BuildState(s, tokenize, movies).termFrequency, x, t)
      == CountOf(s.termFrequency, x, t) + TokenOccurrences(tokenize, movies, x, t)
  {
    if movies != [] {
      var init := movies[..|movies| - 1];
      var m := movies[|movies| - 1];
      BuildCountsAccumulate(s, tokenize, init, x, t);
      AddCountsOccurrences(BuildState(s, tokenize, init).termFrequency, m.id, tokenize(IndexedText(m)), t, x);
    }
  }

  /** `len(set(postings))`: the number of distinct documents of a token. */
  function DocFrequency(index: Postings, token: string): nat
  {
    |set x | x in PostingsOf(index, token)|
  }

  lemma SubsetCard(a: set<int>, b: set<int>)
    requires a <= b
    ensures |a| <= |b|
  {
    assert b == a + (b - a);
    assert a * (b - a) == {};
  }

  /** When every posting is a known document, a token occurs in at most N documents. */
  lemma {:induction false} DocFrequencyBounded(index: Postings, docmap: map<int, Document>, tf: Counts, token: string)
    requires Covered(index, docmap, tf)
    ensures DocFrequency(index, token) <= |docmap|
  {
    var ps := PostingsOf(index, token);
    var a := set x | x in ps;
    forall x | x in a ensures x in docmap.Keys {
      var i :| 0 <= i < |ps| && ps[i] == x;
    }
    SubsetCard(a, docmap.Keys);
  }

  /** `(tf * (k1 + 1)) / (tf + k1)`; the division raises when `tf + k1` is 0. */
  function Saturate(tf: nat, k1: real): (r: Result<real>)
    ensures r.Failure? <==> tf as real + k1 == 0.0
    ensures r.Failure? ==> r.error == ZeroDivisionError
  {
    if tf as real + k1 == 0.0 then Failure(ZeroDivisionError)
    else Success((tf as real * (k1 + 1.0)) / (tf as real + k1))
  }

  /** A term that does not occur has saturated frequency 0. */
  lemma SaturateZero(k1: real)
    requires k1 != 0.0
    ensures Saturate(0, k1) == Success(0.0)
  {
  }

  lemma QuotientFacts(a: real, d: real)
    requires d > 0.0
    ensures (a / d) * d == a
    ensures a >= 0.0 ==> a / d >= 0.0
    ensures a > 0.0 ==> a / d > 0.0
  {
  }

  /** A positive quotient shrinks as its divisor grows. */
  lemma {:induction false} QuotientAntitone(c: real, x: real, y: real)
    requires c >= 0.0 && 0.0 < x <= y
    ensures c / y <= c / x
  {
    QuotientFacts(c, x);
    QuotientFacts(c, y);
    var p, q := c / x, c / y;
    assert p * x == c && q * y == c;
    assert p * (y - x) >= 0.0 by {
      assert p >= 0.0 && y - x >= 0.0;
    }
    assert p * y >= c;
  }

  /** For k1 > 0, `tf*(k1+1)/(tf+k1) == (k1+1) - (k1+1)*k1/(tf+k1)`. */
  lemma {:induction false} SaturateForm(tf: nat, k1: real)
    requires k1 > 0.0
    ensures Saturate(tf, k1).Success?
    ensures Saturate(tf, k1).value == (k1 + 1.0) - ((k1 + 1.0) * k1) / (tf as real + k1)
  {
    var f, d := tf as real, tf as real + k1;
    var c := (k1 + 1.0) * k1;
    QuotientFacts(f * (k1 + 1.0), d);
    QuotientFacts(c, d);
    var v, w := (f * (k1 + 1.0)) / d, (k1 + 1.0) - c / d;
    assert v * d == f * (k1 + 1.0);
    assert w * d == (k1 + 1.0) * d - c;
    assert (k1 + 1.0) * d - c == f * (k1 + 1.0);
    ZeroProduct(v - w, d);
  }

  lemma ZeroProduct(a: real, d: real)
    requires d > 0.0 && a * d == 0.0
    ensures a == 0.0
  {
  }

  /** For k1 > 0 the saturated frequency lies in [0, k1 + 1). */
  lemma {:induction false} SaturateBounds(tf: nat, k1: real)
    requires k1 > 0.0
    ensures Saturate(tf, k1).Success?
    ensures 0.0 <= Saturate(tf, k1).value < k1 + 1.0
  {
    var f, d := tf as real, tf as real + k1;
    assert f * (k1 + 1.0) >= 0.0;
    QuotientFacts(f * (k1 + 1.0), d);
    SaturateForm(tf, k1);
    assert (k1 + 1.0) * k1 > 0.0;
    QuotientFacts((k1 + 1.0) * k1, d);
  }

  /** For k1 > 0 the saturated frequency never decreases as tf grows. */
  lemma {:induction false} SaturateMonotone(a: nat, b: nat, k1: real)
    requires k1 > 0.0 && a <= b
    ensures Saturate(a, k1).Success? && Saturate(b, k1).Success?
    ensures Saturate(a, k1).value <= Saturate(b, k1).value
  {
    SaturateForm(a, k1);
    SaturateForm(b, k1);
    assert (k1 + 1.0) * k1 > 0.0;
    QuotientAntitone((k1 + 1.0) * k1, a as real + k1, b as real + k1);
  }

  /** `(N + 1) / (df + 1)`, the argument of the logarithm in `get_idf`. */
  function IdfArgument(n: nat, df: nat): (r: real)
    ensures r > 0.0
  {
    (n + 1) as real / (df + 1) as real
  }

  /** `(N - df + 0.5) / (df + 0.5) + 1`, the argument of the logarithm in `get_bm25_idf`. */
  function Bm25IdfArgument(n: nat, df: nat): (r: real)
    ensures r > 0.0
  {
    assert (n - df) as real + 0.5 + (df as real + 0.5) == (n + 1) as real;
    ((n - df) as real + 0.5) / (df as real + 0.5) + 1.0
  }

  /** With df <= N the IDF argument is at least 1, so the logarithm is not negative. */
  lemma {:induction false} IdfArgumentAtLeastOne(n: nat, df: nat)
    requires df <= n
    ensures IdfArgument(n, df) >= 1.0
  {
    QuotientFacts((n + 1) as real, (df + 1) as real);
  }

  /** With df <= N the BM25 IDF argument exceeds 1, so the logarithm is positive. */
  lemma {:induction false} Bm25IdfArgumentAboveOne(n: nat, df: nat)
    requires df <= n
    ensures Bm25IdfArgument(n, df) > 1.0
  {
    QuotientFacts((n - df) as real + 0.5, df as real + 0.5);
  }

  /** The two properties of the natural logarithm the IDFs rely on. */
  ghost predicate LogLike(ln: real -> real)
  {
    && ln(1.0) == 0.0
    && forall x, y :: 0.0 < x < y ==> ln(x) < ln(y)
  }

  class InvertedIndex {
    /** The tokenizer applied to document texts and query terms. */
    const tokenize: string -> seq<string>
    var index: Postings
    var docmap: map<int, Document>
    var termFrequency: Counts

    /** A fresh index over `tokenize` with three empty maps. */
    constructor (tokenize: string -> seq<string>)
      ensures this.tokenize == tokenize
      ensures index == map[] && docmap == map[] && termFrequency == map[]
      ensures Valid()
    {
      this.tokenize := tokenize;
      index := map[];
      docmap := map[];
      termFrequency := map[];
    }

    function State(): IndexState
      reads this
    {
      IndexState(index, docmap, termFrequency)
    }

    ghost predicate Valid()
      reads this
    {
      ValidState(State())
    }

    /** Counts every token of `text` for `docId` and appends `docId` to the token's posting list. */
    method AddDocument(docId: int, text: string)
      modifies this`index, this`termFrequency
      ensures index == AddPostings(old(index), docId, tokenize(text))
      ensures termFrequency == AddCounts(old(termFrequency), docId, tokenize(text))
    {
      var tokens := tokenize(text);
      var k := 0;
      while k < |tokens|
        invariant 0 <= k <= |tokens|
        invariant index == AddPostings(old(index), docId, tokens[..k])
        invariant termFrequency == AddCounts(old(termFrequency), docId, tokens[..k])
      {
        assert tokens[..k + 1] == tokens[..k] + [tokens[k]];
        AddPostingsSnoc(old(index), docId, tokens[..k], tokens[k]);
        AddCountsSnoc(old(termFrequency), docId, tokens[..k], tokens[k]);
        AddToken(docId, tokens[k]);
        k := k + 1;
      }
      assert tokens[..k] == tokens;
    }

    /** One iteration of the token loop. A missing posting list or counter
        starts out empty, then `docId` is appended and the token counted. */
    method AddToken(docId: int, token: string)
      modifies this`index, this`termFrequency
      ensures index == old(index)[token := PostingsOf(old(index), token) + [docId]]
      ensures termFrequency == old(termFrequency)[docId := Bump(if docId in old(termFrequency) then old(termFrequency)[docId] else map[], token)]
    {
      index := index[token := PostingsOf(index, token) + [docId]];
      termFrequency := termFrequency[docId := Bump(if docId in termFrequency then termFrequency[docId] else map[], token)];
    }

    /** Adds every movie, in order, and maps its id to it. */
    method Build(movies: seq<Document>)
      modifies this
      ensures State() == BuildState(old(State()), tokenize, movies)
      ensures old(Valid()) ==> Valid()
    {
      ghost var start := State();
      var k := 0;
      while k < |movies|
        invariant 0 <= k <= |movies|
        invariant State() == BuildState(start, tokenize, movies[..k])
      {
        var movie := movies[k];
        assert movies[..k + 1][..k] == movies[..k];
        AddDocument(movie.id, IndexedText(movie));
        docmap := docmap[movie.id := movie];
        k := k + 1;
      }
      assert movies[..k] == movies;
      if ValidState(start) {
        BuildKeepsConsistent(start, tokenize, movies);
        BuildKeepsCovered(start, tokenize, movies);
      }
    }

    /** `sorted(set(index.get(term.lower(), [])))`. */
    function GetDocuments(term: string): (r: seq<int>)
      reads this
      ensures Sorting.StrictlyAscending(r)
      ensures forall x :: x in r <==> x in PostingsOf(index, TextPreprocessing.Lower(term))
    {
      Sorting.SortedSet(PostingsOf(index, TextPreprocessing.Lower(term)))
    }

    /** The count of the term's single token in the document. */
    function GetTf(docId: int, term: string): (r: Result<nat>)
      reads this
      ensures r.Failure? <==> |tokenize(term)| != 1
      ensures |tokenize(term)| > 1 ==> r == Failure(ValueError(SingleToken))
      ensures |tokenize(term)| == 0 ==> r == Failure(IndexError)
    {
      var tokens := tokenize(term);
      if |tokens| > 1 then Failure(ValueError(SingleToken))
      else if |tokens| == 0 then Failure(IndexError)
      else Success(CountOf(termFrequency, docId, tokens[0]))
    }

    /** The saturated term frequency with parameter `k1`. */
    function GetBm25Tf(docId: int, term: string, k1: real): (r: Result<real>)
      reads this
      ensures GetTf(docId, term).Failure? ==> r == Failure(GetTf(docId, term).error)
      ensures GetTf(docId, term).Success? ==> r == Saturate(GetTf(docId, term).value, k1)
    {
      match GetTf(docId, term)
      case Failure(e) => Failure(e)
      case Success(tf) => Saturate(tf, k1)
    }

    /** `ln((N + 1) / (df + 1))` for the term's single token. */
    function GetIdf(term: string, ln: real -> real): (r: Result<real>)
      reads this
      ensures r.Failure? <==> |tokenize(term)| != 1
      ensures r.Failure? ==> r.error == ValueError(SingleToken)
    {
      var tokens := tokenize(term);
      if |tokens| != 1 then Failure(ValueError(SingleToken))
      else Success(ln(IdfArgument(|docmap|, DocFrequency(index, tokens[0]))))
    }

    /** `ln((N - df + 0.5) / (df + 0.5) + 1)` for the term's single token. */
    function GetBm25Idf(term: string, ln: real -> real): (r: Result<real>)
      reads this
      ensures r.Failure? <==> |tokenize(term)| != 1
      ensures r.Failure? ==> r.error == ValueError(SingleToken)
    {
      var tokens := tokenize(term);
      if |tokens| != 1 then Failure(ValueError(SingleToken))
      else Success(ln(Bm25IdfArgument(|docmap|, DocFrequency(index, tokens[0]))))
    }

    /** In a valid index the term frequency is the number of times the document
        occurs in the token's posting list. */
    lemma TfCountsPostings(docId: int, term: string)
      requires Valid() && |tokenize(term)| == 1
      ensures GetTf(docId, term) == Success(multiset(PostingsOf(index, tokenize(term)[0]))[docId])
    {
    }

    /** In a valid index, IDF is not negative and BM25 IDF is positive. */
    lemma {:induction false} IdfSigns(term: string, ln: real -> real)
      requires Valid() && LogLike(ln) && |tokenize(term)| == 1
      ensures GetIdf(term, ln).value >= 0.0
      ensures GetBm25Idf(term, ln).value > 0.0
    {
      var df := DocFrequency(index, tokenize(term)[0]);
      DocFrequencyBounded(index, docmap, termFrequency, tokenize(term)[0]);
      IdfArgumentAtLeastOne(|docmap|, df);
      Bm25IdfArgumentAboveOne(|docmap|, df);
      var a := IdfArgument(|docmap|, df);
      if a > 1.0 {
        assert ln(1.0) < ln(a);
      }
      assert ln(1.0) < ln(Bm25IdfArgument(|docmap|, df));
    }
  }

  /** The postings and counts agree and every id they mention is a known document. */
  ghost predicate ValidState(s: IndexState)
  {
    Consistent(s.index, s.termFrequency) && Covered(s.index, s.docmap, s.termFrequency)
  }
}
