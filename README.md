# Hybrid movie search, modelled in Dafny

This project models the search core of a retrieval-augmented movie search
system. The system answers a query over a movie data set, where each movie
has an id, a title and a description, in three ways:

- **Keyword search** over an inverted index. The index maps each token to
  the documents it occurs in and counts how often each token occurs in
  each document. The `search` and `tfidf` commands of the keyword command
  line read it.
- **Chunked semantic search.** Each description is cut into overlapping
  windows of sentences. Each movie gets the best similarity of its chunks
  to the query, and the best `limit` movies are returned. A plain semantic
  search ranks whole-movie embeddings instead.
- **Hybrid search**, which merges the BM25 and semantic rankings in two
  ways:
  - weighted search: `alpha * bm25 + (1 - alpha) * semantic` over
    normalized scores;
  - Reciprocal Rank Fusion: the sum of `1 / (rank + k)` over both lists.

These helpers are modelled with them: the text normalization, the sentence
chunker, the score formulas and the vector helpers.

Each module is one file:

| file | module | models |
|---|---|---|
| `wrappers.dfy` | `Wrappers` | `Result` and the Python exceptions the core raises |
| `sequences.dfy` | `Sequences` | Python slicing, de-duplication in first-occurrence order, last index |
| `sorting.dfy` | `Sorting` | Python's stable `sort(key=..., reverse=True)` and `sorted(set(...))` |
| `tables.dfy` | `Tables` | insertion-ordered `dict` with integer keys |
| `documents.dfy` | `Documents` | a movie record and `map[movie["id"]] = movie` loops |
| `py_range.dfy` | `PyRange` | `range(0, n, step)` |
| `text_preprocessing.dfy` | `TextPreprocessing` | `text_preprocessing` |
| `semantic_chunk.dfy` | `SemanticChunk` | `semantic_chunk` |
| `vector_operations.dfy` | `VectorOperations` | `add_vectors`, `subtract_vectors` |
| `score_utils.dfy` | `ScoreUtils` | `hybrid_score`, `rrf_score` |
| `inverted_index.dfy` | `Index` | class `InvertedIndex` |
| `keyword_search_cli.dfy` | `KeywordSearchCli` | the `search` and `tfidf` commands |
| `semantic_search.dfy` | `SemanticSearch` | `SemanticSearch.search` and class `ChunkedSemanticSearch` |
| `hybrid_search.dfy` | `HybridSearch` | class `HybridSearch` |

The code that loops and updates state is written as methods with loop
invariants, and each method is proved equal to a specification function.
That covers building the index, collecting search ids, the chunking loops,
the chunk-metadata loop, the aggregation and result loops, and both merge
loops of the hybrid search. The properties the source promises are then
proved about those functions as lemmas.

Python `dict`s the code fills in place are modelled as follows:

- the index's postings, its term counts and the searchers' id-to-movie
  maps are Dafny `map` fields that the methods reassign;
- the hybrid score tables are values of `Tables.Table`, an insertion-ordered
  map, because their iteration order decides the order of ties.

Exceptions are `Failure` values that name the Python exception: `KeyError`,
`IndexError`, `ValueError`, `ZeroDivisionError` or `TypeError`. Each
operation's model raises the same exception as the source, at the same
point, with these exceptions, each explained under "Left out" or
"Findings":

- `HybridSearch.HybridSearch.WeightedSearch` passes the missing `alpha`
  instead of raising the `TypeError` of cli/lib/hybrid_search.py:78;
- `SemanticSearch.ChunkedSemanticSearch.SearchChunk` looks movies up by id,
  so it neither raises the `IndexError` nor returns the other movie of the
  lookup by position at cli/lib/semantic_search.py:221; its own failure is
  a `KeyError` for an id that is not in the document map;
- the errors of attribute access on `None` (searchers used before their
  documents are loaded) are not modelled;
- `generate_embedding`'s `ValueError` for empty text is not modelled,
  because embeddings are inputs.

The two rankers of `HybridSearch.HybridSearch` are parameters that return
either their results or the exception they raise, such as the `IndexError`
of `search_chunk(query, limit*50)` when fewer movies are scored;
`WeightedSearch` and `RrfSearch` raise it before either loop runs, as
cli/lib/hybrid_search.py:41-42 and 95-96 do.

## Model

| member | source | states |
|---|---|---|
| ScoreUtils.HybridScore | utils/hybrid_search_utils/score_utils.py:1-2 | alpha 1 gives the BM25 score and alpha 0 the semantic score |
| ScoreUtils.HybridScoreBetween | utils/hybrid_search_utils/score_utils.py:1-2 | for alpha in [0, 1] the hybrid score lies between the two scores |
| ScoreUtils.HybridScoreMonotoneInAlpha | utils/hybrid_search_utils/score_utils.py:1-2 | raising alpha moves the hybrid score toward the BM25 score |
| ScoreUtils.RecipRank | utils/hybrid_search_utils/score_utils.py:5-6 | a rank of 0 or less contributes 0; a positive rank with `rank + k > 0` contributes a positive amount |
| ScoreUtils.RrfScore | utils/hybrid_search_utils/score_utils.py:4-7 | with one rank absent the score is the reciprocal of the other rank plus k; with both absent it is 0 |
| ScoreUtils.RrfScoreSymmetric | utils/hybrid_search_utils/score_utils.py:4-7 | the score does not depend on which list a rank came from |
| ScoreUtils.RrfScoreAdditive | utils/hybrid_search_utils/score_utils.py:4-7 | with both ranks present the score is `1/(a+k) + 1/(b+k)` |
| ScoreUtils.RrfScoreStrictlyDecreasing | utils/hybrid_search_utils/score_utils.py:4-7 | for k > 0 a better (smaller) rank gives a strictly larger score, in either argument |
| ScoreUtils.RecipRankBounds | utils/hybrid_search_utils/score_utils.py:5-6 | for k > 0 one reciprocal rank lies in `[0, 1/(1+k)]` |
| ScoreUtils.RrfScoreBounds | utils/hybrid_search_utils/score_utils.py:4-7 | for k > 0 the RRF score lies in `[0, 2/(1+k)]` |
| VectorOperations.AddVectors | utils/semantic_search_utils/vector_operations.py:1-5 | raises `ValueError` exactly for different lengths; otherwise the element-wise sum |
| VectorOperations.SubtractVectors | utils/semantic_search_utils/vector_operations.py:7-11 | raises `ValueError` exactly for different lengths; otherwise the element-wise difference |
| VectorOperations.SubtractUndoesAdd | utils/semantic_search_utils/vector_operations.py:1-11 | subtracting `v2` after adding it gives back `v1` |
| VectorOperations.Example | utils/semantic_search_utils/vector_operations.py:14-18 | the two vectors of the script give `[5, 7, 9]` and `[-3, -3, -3]` |
| TextPreprocessing.Lower | utils/semantic_search_utils/text_preprocessing.py:6 | same length, each character lowered |
| TextPreprocessing.ReplaceNonWord | utils/semantic_search_utils/text_preprocessing.py:7 | same length; each character that is neither a word character nor whitespace becomes a space |
| TextPreprocessing.CollapseWhitespace | utils/semantic_search_utils/text_preprocessing.py:8 | no two adjacent whitespace characters remain; whitespace becomes single spaces; other characters come from the input |
| TextPreprocessing.CollapseKeepsWords | utils/semantic_search_utils/text_preprocessing.py:8 | the non-whitespace characters of the output are exactly those of the input, in order |
| TextPreprocessing.CollapseOneSpacePerRun | utils/semantic_search_utils/text_preprocessing.py:8 | the output has exactly one space for each maximal whitespace run of the input |
| TextPreprocessing.Strip | utils/semantic_search_utils/text_preprocessing.py:8 | the result is the slice of the input left after removing its leading and trailing whitespace: everything before and after it is whitespace, and it neither starts nor ends with whitespace; it is empty exactly for all-whitespace input |
| TextPreprocessing.StripKeepsWords | utils/semantic_search_utils/text_preprocessing.py:8 | stripping keeps every non-whitespace character, in order |
| TextPreprocessing.PreprocessNormalized | utils/semantic_search_utils/text_preprocessing.py:4-9 | the output is lower case, has only word characters and single inner spaces, and no outer spaces |
| TextPreprocessing.PreprocessFixesNormalized | utils/semantic_search_utils/text_preprocessing.py:4-9 | normalized text is left unchanged |
| TextPreprocessing.PreprocessKeepsWords | utils/semantic_search_utils/text_preprocessing.py:4-9 | the output's non-whitespace characters are those of the lowered text with punctuation replaced, in order |
| TextPreprocessing.PreprocessIdempotent | utils/semantic_search_utils/text_preprocessing.py:4-9 | preprocessing twice is preprocessing once |
| TextPreprocessing.Example | utils/semantic_search_utils/text_preprocessing.py:12 | `"   Hello  World !!  "` becomes `"hello world"` |
| SemanticChunk.SplitSentences | utils/semantic_search_utils/semantic_chunk.py:12 | at least one piece; every piece but the last ends with `.`, `!` or `?`; text without a break is one piece |
| SemanticChunk.SplitPiecesHaveNoBreak | utils/semantic_search_utils/semantic_chunk.py:12 | no piece of the split holds a terminal character followed by whitespace |
| SemanticChunk.SplitCounts | utils/semantic_search_utils/semantic_chunk.py:12 | the split removes one whitespace run between each two pieces |
| SemanticChunk.SeparatorsAreRuns | utils/semantic_search_utils/semantic_chunk.py:12 | each removed separator is a non-empty run of whitespace |
| SemanticChunk.SplitPiecesStart | utils/semantic_search_utils/semantic_chunk.py:12 | the first piece starts the text, and each later piece is empty or starts with a non-space, so every removed run is maximal |
| SemanticChunk.SplitInterleave | utils/semantic_search_utils/semantic_chunk.py:12 | putting the removed runs back between the pieces rebuilds the text |
| SemanticChunk.SplitRebuilds | utils/semantic_search_utils/semantic_chunk.py:12 | `re.split(r'(?<=[.!?])\s+', s)`: the pieces hold no break, are separated by maximal whitespace runs, and with the runs put back give `s` |
| SemanticChunk.CleanSentences | utils/semantic_search_utils/semantic_chunk.py:20-24 | no more sentences than pieces, each stripped and non-empty |
| SemanticChunk.Clean | utils/semantic_search_utils/semantic_chunk.py:20-24 | the cleaning loop computes `CleanSentences` |
| SemanticChunk.ChunkWindows | utils/semantic_search_utils/semantic_chunk.py:32-37 | the window loop computes the non-blank windows at `range(0, n, step)` |
| SemanticChunk.Chunk | utils/semantic_search_utils/semantic_chunk.py:3-39 | `semantic_chunk` computes `SemanticChunkSpec`, with `ValueError` for a zero step |
| SemanticChunk.BlankHasNoChunks | utils/semantic_search_utils/semantic_chunk.py:5-9 | all-whitespace text has no chunks |
| SemanticChunk.ZeroStepRaises | utils/semantic_search_utils/semantic_chunk.py:34 | non-blank text with overlap equal to the chunk size raises `ValueError` from `range` |
| SemanticChunk.NoBreakSingleSentence | utils/semantic_search_utils/semantic_chunk.py:12-17 | text without a sentence break is one sentence, the stripped text |
| SemanticChunk.NoBreakSingleChunk | utils/semantic_search_utils/semantic_chunk.py:12-37 | such text with size at least 1 and a positive step is one chunk, the stripped text |
| SemanticChunk.SentencesClean | utils/semantic_search_utils/semantic_chunk.py:19-28 | the sentences are stripped and non-empty; blank text has none |
| SemanticChunk.ChunksPerPosition | utils/semantic_search_utils/semantic_chunk.py:34-37 | with a positive step, no window of clean sentences is blank, so there is one chunk per start position |
| SemanticChunk.ChunksAreWindows | utils/semantic_search_utils/semantic_chunk.py:34-37 | there are `ceil(n / step)` chunks; chunk j joins at most `size` sentences from `j * step` |
| SemanticChunk.ChunksCoverSentences | utils/semantic_search_utils/semantic_chunk.py:34-37 | with `0 <= overlap < size`, every sentence lies in some chunk |
| SemanticChunk.SpecChunksSentences | utils/semantic_search_utils/semantic_chunk.py:3-39 | chunking is a function of the clean sentences alone |
| Documents.RegisterLast | cli/lib/hybrid_search.py:25-27 | after the loop each id maps to the last movie with that id; other keys are unchanged |
| Index.InvertedIndex.constructor | classes/inverted_index.py:13-15 | an empty, consistent index |
| Index.InvertedIndex.AddToken | classes/inverted_index.py:19-26 | one token appends the id to its posting list and bumps its count for the document |
| Index.InvertedIndex.AddDocument | classes/inverted_index.py:17-26 | the postings and counts grow by the document's tokens |
| Index.InvertedIndex.Build | classes/inverted_index.py:72-75 | the new state is `BuildState` of the old one; a consistent index stays consistent |
| Index.AddKeepsConsistent | classes/inverted_index.py:17-26 | each term count equals the number of occurrences in the posting list, before and after adding a document |
| Index.AddAddsOnlyDocId | classes/inverted_index.py:17-26 | adding a document only appends its id and only creates counts for it |
| Index.BuildKeepsConsistent | classes/inverted_index.py:72-75 | building keeps counts and postings consistent |
| Index.BuildKeepsCovered | classes/inverted_index.py:72-75 | every posted or counted id is in the document map |
| Index.BuildDocmapRegisters | classes/inverted_index.py:75 | the document map maps each id to its last movie |
| Index.BuildCountsAccumulate | classes/inverted_index.py:72-75 | each count grows by the token's occurrences in the built movies' title and description |
| Index.InvertedIndex.GetDocuments | classes/inverted_index.py:28-31 | strictly ascending, with exactly the ids posted under the lowered term |
| Index.InvertedIndex.GetTf | classes/inverted_index.py:33-39 | `ValueError` for several tokens, `IndexError` for none, otherwise a count |
| Index.InvertedIndex.TfCountsPostings | classes/inverted_index.py:33-39 | in a consistent index the term frequency is the number of postings of the document |
| Index.InvertedIndex.GetBm25Tf | classes/inverted_index.py:41-44 | propagates the errors of `get_tf`, otherwise saturates the count |
| Index.Saturate | classes/inverted_index.py:43 | `ZeroDivisionError` exactly when `tf + k1 == 0` |
| Index.SaturateZero | classes/inverted_index.py:43 | a count of 0 saturates to 0 |
| Index.SaturateBounds | classes/inverted_index.py:43 | for `k1 > 0` the saturated count lies in `[0, k1 + 1)` |
| Index.SaturateMonotone | classes/inverted_index.py:43 | for `k1 > 0` a higher count never saturates lower |
| Index.SaturateForm | classes/inverted_index.py:43 | `(k1 + 1) - (k1 + 1) k1 / (tf + k1)`, the form that shows the bound |
| Index.InvertedIndex.GetIdf | classes/inverted_index.py:46-57 | `ValueError` exactly unless one token |
| Index.InvertedIndex.GetBm25Idf | classes/inverted_index.py:59-70 | `ValueError` exactly unless one token |
| Index.DocFrequencyBounded | classes/inverted_index.py:52-54 | no token occurs in more documents than the document map holds |
| Index.IdfArgumentAtLeastOne | classes/inverted_index.py:56 | the argument of `log` in `get_idf` is at least 1 |
| Index.Bm25IdfArgumentAboveOne | classes/inverted_index.py:69 | the argument of `log` in `get_bm25_idf` is above 1 |
| Index.InvertedIndex.IdfSigns | classes/inverted_index.py:46-70 | in a consistent index the IDF is at least 0 and the BM25 IDF above 0 |
| KeywordSearchCli.ScanDocuments | cli/keyword_search_cli.py:144-148 | the inner loop, with its `break`, keeps what `Collect` keeps |
| KeywordSearchCli.SearchIds | cli/keyword_search_cli.py:140-148 | the ids of the `search` command are `Collect` over each token's documents in order |
| KeywordSearchCli.CollectIsPrefixOfDedup | cli/keyword_search_cli.py:142-148 | the collected ids are the first 5 distinct ids in order of first occurrence |
| KeywordSearchCli.CollectShape | cli/keyword_search_cli.py:142-148 | at most 5 ids, no duplicate, each scanned, and all of them when fewer than 5 distinct ids were scanned |
| KeywordSearchCli.SearchIdsFromTokens | cli/keyword_search_cli.py:140-148 | every collected id is a document of some query token |
| KeywordSearchCli.DocumentsOf | cli/keyword_search_cli.py:152 | `KeyError` exactly when an id is missing; otherwise the documents in order |
| KeywordSearchCli.SearchFindsDocuments | cli/keyword_search_cli.py:150-152 | in a valid index (consistent and covered) the command returns documents without raising |
| KeywordSearchCli.TfIdf | cli/keyword_search_cli.py:117-119 | `IndexError` for no token, `ValueError` for several, a value for one |
| KeywordSearchCli.TfIdfValue | cli/keyword_search_cli.py:117-119 | TF-IDF is the posting count times the IDF; 0 outside the postings; never negative |
| SemanticSearch.ChunkingSucceeds | cli/lib/semantic_search.py:140 | chunking with size 4 and overlap 1 never raises |
| SemanticSearch.BlankDescriptionNoChunks | cli/lib/semantic_search.py:137-141 | a movie with a blank description contributes no chunks |
| SemanticSearch.DocChunksCount | cli/lib/semantic_search.py:140 | a description of n sentences has `ceil(n / 3)` chunks |
| SemanticSearch.RecordChunks | cli/lib/semantic_search.py:142-150 | the metadata loop of one movie adds an entry for each of its chunk positions |
| SemanticSearch.ChunkAll | cli/lib/semantic_search.py:134-150 | the chunk loop computes `AllChunks` and `AllMeta` |
| SemanticSearch.MetaKeys | cli/lib/semantic_search.py:141-150 | the metadata has exactly one key per chunk position |
| SemanticSearch.MetaOfDoc | cli/lib/semantic_search.py:141-150 | chunk i of movie j sits right after the earlier movies' chunks, with metadata `(id, i, count)` |
| SemanticSearch.ChunkedSemanticSearch.constructor | cli/lib/semantic_search.py:118-121 | no documents and no metadata |
| SemanticSearch.ChunkedSemanticSearch.RegisterDocuments | cli/lib/semantic_search.py:131-132 | each id maps to its last movie |
| SemanticSearch.ChunkedSemanticSearch.BuildChunkEmbeddings | cli/lib/semantic_search.py:130-150 | stores the movies, the id map, and the chunk metadata of `AllMeta`, and returns the chunks |
| SemanticSearch.ChunkScoresFacts | cli/lib/semantic_search.py:199-204 | succeeds exactly when every chunk position has metadata; each chunk's score is paired with its movie |
| SemanticSearch.ChunkedSemanticSearch.ScoreChunks | cli/lib/semantic_search.py:199-204 | the chunk-score loop computes `ChunkScores` |
| SemanticSearch.AggregateScores | cli/lib/semantic_search.py:206-213 | the aggregation loop computes `Aggregate` |
| SemanticSearch.AggregateOrder | cli/lib/semantic_search.py:206-213 | movies appear in order of their first chunk |
| SemanticSearch.AggregateBounds | cli/lib/semantic_search.py:206-213 | a movie's score is at least 0 and at least each of its chunk scores |
| SemanticSearch.AggregateAttained | cli/lib/semantic_search.py:206-213 | a non-zero movie score is the score of one of its chunks |
| SemanticSearch.Preview | cli/lib/semantic_search.py:222 | id, title and score are kept; the document is the first at most 100 characters of the description |
| SemanticSearch.RankingFacts | cli/lib/semantic_search.py:215 | the ranking is sorted by score, holds each movie once, and keeps its aggregated score |
| SemanticSearch.PickFacts | cli/lib/semantic_search.py:219-222 | succeeds exactly when `limit` movies exist and are found; result i previews movie i; too few movies raise `IndexError` |
| SemanticSearch.ChunkedSemanticSearch.PickResults | cli/lib/semantic_search.py:219-222 | the result loop, with lookup by id, computes `Pick` |
| SemanticSearch.ChunkedSemanticSearch.SearchChunk | cli/lib/semantic_search.py:193-224 | `search_chunk`, with the movie looked up by id, computes `SearchChunkSpec` |
| SemanticSearch.SearchChunkShape | cli/lib/semantic_search.py:215-222 | exactly `max(limit, 0)` results, best score first, no movie twice |
| SemanticSearch.SearchChunkEntry | cli/lib/semantic_search.py:206-222 | each result is a known movie with its title and its best chunk score |
| SemanticSearch.SearchChunkSucceeds | cli/lib/semantic_search.py:219-220 | with every movie known, it succeeds exactly when `limit` does not exceed the number of movies; otherwise `IndexError` |
| SemanticSearch.ChunkedSemanticSearch.Search | cli/lib/semantic_search.py:94-110 | `search` computes `SearchSpec` |
| SemanticSearch.SearchSucceeds | cli/lib/semantic_search.py:104-108 | succeeds exactly when `limit` embeddings exist and their ids are known |
| SemanticSearch.SearchShape | cli/lib/semantic_search.py:100-108 | exactly `max(limit, 0)` results, best score first |
| SemanticSearch.SearchEntry | cli/lib/semantic_search.py:96-108 | result i is the movie at some embedding position, with its similarity, title and description |
| SemanticSearch.PickMoviesFacts | cli/lib/semantic_search.py:104-108 | `KeyError` for an unknown id and `IndexError` past the ranking; otherwise one result per ranked pair |
| SemanticSearch.PositionLookupPicksWrongMovie | cli/lib/semantic_search.py:221 | a chunk of movie 1 is reported as movie 2 when looked up by position |
| SemanticSearch.PositionLookupRaisesForLastId | cli/lib/semantic_search.py:221 | the largest id raises `IndexError` when looked up by position |
| HybridSearch.OverwriteScores | cli/lib/hybrid_search.py:50-51 | each semantic result takes the normalized score at its position; nothing else changes |
| HybridSearch.HybridSearch.constructor | cli/lib/hybrid_search.py:23-27 | keeps the movies and maps each id to its last movie |
| HybridSearch.HybridSearch.WeightedBm25Loop | cli/lib/hybrid_search.py:55-60 | the BM25 loop computes `WeightedBm25` |
| HybridSearch.HybridSearch.WeightedSemanticLoop | cli/lib/hybrid_search.py:62-71 | the semantic loop computes `WeightedSemantic` |
| HybridSearch.HybridSearch.WeightedResultsLoop | cli/lib/hybrid_search.py:73-88 | the results loop computes `WeightedResults` |
| HybridSearch.HybridSearch.WeightedSearch | cli/lib/hybrid_search.py:40-92 | `weighted_search` raises the BM25 ranker's exception, else the semantic ranker's (such as the `IndexError` of `search_chunk(query, limit*50)`), before either loop; otherwise, with alpha passed on, it computes `WeightedSpec` of the two rankers' results |
| HybridSearch.WeightedBm25Succeeds | cli/lib/hybrid_search.py:55-60 | the BM25 loop succeeds exactly when every BM25 id is known |
| HybridSearch.WeightedBm25Order | cli/lib/hybrid_search.py:55-60 | table order is the BM25 ids, each once |
| HybridSearch.WeightedBm25Entry | cli/lib/hybrid_search.py:55-60 | a BM25 id holds its movie, its last normalized score and semantic 0 |
| HybridSearch.WeightedSemanticSucceeds | cli/lib/hybrid_search.py:62-69 | the semantic loop succeeds exactly when each id is in the table or known |
| HybridSearch.WeightedSemanticOrder | cli/lib/hybrid_search.py:62-71 | new semantic ids go to the end in order |
| HybridSearch.WeightedSemanticEntry | cli/lib/hybrid_search.py:62-71 | a semantic id takes its last normalized score and keeps an existing BM25 row; other rows are unchanged |
| HybridSearch.WeightedTableSucceeds | cli/lib/hybrid_search.py:44-71 | the merge succeeds exactly when every id of both lists is known |
| HybridSearch.WeightedTableOrder | cli/lib/hybrid_search.py:53-71 | table order is the BM25 ids, then the new semantic ids, each once |
| HybridSearch.WeightedTableEntry | cli/lib/hybrid_search.py:44-71 | the table holds exactly the ids of both lists, each with its movie and normalized scores |
| HybridSearch.WeightedResultsIds | cli/lib/hybrid_search.py:75-88 | one result per table entry, in table order, ids distinct |
| HybridSearch.WeightedSpecSucceeds | cli/lib/hybrid_search.py:40-92 | succeeds exactly when every id of both rankers is known; otherwise `KeyError` |
| Sorting.TopDescBest | cli/lib/hybrid_search.py:90-92 | `sort(reverse=True)` then `[:limit]` keeps a sub-multiset of the input, and no element left out has a larger key than a kept one |
| Sorting.TopDescLeftOut | cli/lib/hybrid_search.py:90-92 | an input element that is not kept has a key no larger than any kept element |
| HybridSearch.WeightedSpecShape | cli/lib/hybrid_search.py:90-92 | for `limit >= 0`, exactly `min(limit, n)` results for the `n` distinct ids; sorted by hybrid score; ids distinct; no table entry left out has a higher hybrid score than a kept one |
| HybridSearch.WeightedSpecMember | cli/lib/hybrid_search.py:73-92 | each result is a ranked movie with its title, description, normalized scores and their hybrid score |
| HybridSearch.WeightedSpecTies | cli/lib/hybrid_search.py:90-92 | equal hybrid scores keep table order |
| HybridSearch.WeightedAsWrittenRaises | cli/lib/hybrid_search.py:78 | as written, any non-empty candidate list raises `TypeError` for the missing alpha |
| HybridSearch.WeightedAsWrittenExample | cli/lib/hybrid_search.py:78 | one BM25 hit makes the source raise `TypeError` |
| HybridSearch.WeightedIntendedExample | cli/lib/hybrid_search.py:73-92 | the same hit with alpha 0.5 gives one result with hybrid score 1.0 |
| HybridSearch.HybridSearch.RrfBm25Loop | cli/lib/hybrid_search.py:100-108 | the BM25 loop of `rrf_search` computes `RrfBm25` |
| HybridSearch.HybridSearch.RrfSemanticLoop | cli/lib/hybrid_search.py:110-123 | the semantic loop of `rrf_search` computes `RrfSemantic` |
| HybridSearch.HybridSearch.RrfResultsLoop | cli/lib/hybrid_search.py:125-141 | the results loop computes `RrfResults` |
| HybridSearch.HybridSearch.RrfSearch | cli/lib/hybrid_search.py:94-144 | `rrf_search` raises the BM25 ranker's exception, else the semantic ranker's (such as the `IndexError` of `search_chunk(query, limit*50)`), before either loop; otherwise it computes `RrfSpec` of the two rankers' results |
| HybridSearch.RrfBm25Succeeds | cli/lib/hybrid_search.py:100-108 | succeeds exactly when no tried rank hits `rank + k == 0` and every id is known |
| HybridSearch.RrfBm25Order | cli/lib/hybrid_search.py:100-108 | table order is the BM25 ids, each once |
| HybridSearch.RrfBm25Entry | cli/lib/hybrid_search.py:100-108 | a BM25 id holds its movie, its last rank, semantic rank 0 and `rrf_score(rank, 0, k)` |
| HybridSearch.RrfSemanticSucceeds | cli/lib/hybrid_search.py:110-120 | succeeds exactly when no tried rank divides by zero and each id is in the table or known |
| HybridSearch.RrfSemanticOrder | cli/lib/hybrid_search.py:110-123 | new semantic ids go to the end in order |
| HybridSearch.RrfSemanticEntry | cli/lib/hybrid_search.py:110-123 | a semantic id takes its last rank and adds the reciprocal of every one of its ranks; other rows are unchanged |
| HybridSearch.OccurrenceSumDistinct | cli/lib/hybrid_search.py:123 | for a list without duplicates, the accumulated reciprocal is that of the one rank |
| HybridSearch.RrfTableSucceeds | cli/lib/hybrid_search.py:100-123 | the merge succeeds exactly when no rank divides by zero and every id is known |
| HybridSearch.RrfTableOrder | cli/lib/hybrid_search.py:98-123 | table order is the BM25 ids, then the new semantic ids, each once |
| HybridSearch.RrfTableEntry | cli/lib/hybrid_search.py:100-123 | the table holds exactly the ids of both lists, with their ranks and accumulated scores |
| HybridSearch.RrfTableAdditive | cli/lib/hybrid_search.py:100-123 | with each semantic id once, a row's score is `rrf_score(bm25_rank, semantic_rank, k)` |
| HybridSearch.RrfResultsIds | cli/lib/hybrid_search.py:127-141 | one result per table entry, in table order, ids distinct |
| HybridSearch.RrfBm25Errors | cli/lib/hybrid_search.py:100-108 | the BM25 loop can only raise `ZeroDivisionError` or `KeyError` |
| HybridSearch.RrfSemanticErrors | cli/lib/hybrid_search.py:110-120 | the semantic loop can only raise `ZeroDivisionError` or `KeyError` |
| HybridSearch.RrfSpecSucceeds | cli/lib/hybrid_search.py:94-144 | succeeds exactly when no rank divides by zero and every id is known; otherwise one of those two errors |
| HybridSearch.RrfSpecShape | cli/lib/hybrid_search.py:143-144 | for `limit >= 0`, exactly `min(limit, n)` results for the `n` distinct ids; sorted by RRF score; ids distinct; no table entry left out has a higher RRF score than a kept one |
| HybridSearch.RrfSpecMember | cli/lib/hybrid_search.py:100-141 | each result is a ranked movie with its title, description, last ranks and accumulated reciprocal ranks |
| HybridSearch.RrfSpecScore | cli/lib/hybrid_search.py:100-141 | with each semantic id once, a result's score is `rrf_score` of its reported ranks |
| HybridSearch.RrfSpecTies | cli/lib/hybrid_search.py:143-144 | equal RRF scores keep table order |

## Left out

- The embedding model, cosine similarity and numpy arrays are inputs: chunked and plain semantic search take each embedding's similarity to the query as a sequence of reals. So `generate_embedding`'s `ValueError` for empty text is not modelled.
- Reading and writing caches (`save`, `load`, `load_or_create_embeddings`, `load_or_create_chunk_embeddings`, `build_embeddings`, the JSON and `.npy` files) is I/O and is left out. Metadata keys are integers rather than the strings JSON reads back.
- The chunk metadata saved at cli/lib/semantic_search.py:159 is wrapped in `{"chunks": ...}`, but line 153 keeps the unwrapped dict. So `search_chunk` right after a fresh build would fail at line 197. The model takes the shape loaded from the cache: the metadata map itself.
- `round(score, 4)` at cli/lib/semantic_search.py:222 is left out: reals are exact here, and the result keeps the unrounded score.
- Floating point is modelled as exact reals, and Python's int/float distinction (`0` versus `0.0` scores) is dropped.
- `math.log` is a parameter `ln`. Its only assumed properties are `ln(1) == 0` and that it is strictly increasing on the positive reals.
- The index tokenizer (`utils/text_preprocessing.py`, which is not part of this model) is the index's `tokenize` parameter.
- The semantic `text_preprocessing` covers ASCII only. There is no NFKC normalization, no Unicode lower-casing, and `\w` and `\s` are their ASCII classes.
- SemanticChunk.SplitSentences, SemanticChunk.Chunk: `str.strip()` and the `\s` of the sentence split are ASCII whitespace here, while Python also counts Unicode spaces. For example Python splits `"a.\xa0b"` into `['a.', 'b']`, but the model keeps it as one sentence.
- Index.InvertedIndex.GetDocuments, KeywordSearchCli.SearchIds: `term.lower()` (classes/inverted_index.py:29) lowers ASCII letters only, so a query term with a non-ASCII capital letter finds no postings under its Python lower-case form.
- `normalize_score` (utils/hybrid_search_utils/normalize_score.py, not part of this model) is any length-preserving function on the score list.
- The BM25 ranker, `bm25_search` in cli/lib/keyword_search.py, is not part of this model. The hybrid searcher takes both rankers as function fields that return either their results or the exception they raise; the searches pass that exception on. The semantic field is not tied to `SemanticSearch.ChunkedSemanticSearch.SearchChunk`, whose `IndexError` for fewer than `limit` scored movies is stated by `SemanticSearch.SearchChunkSucceeds`, because the query embedding is an input there. The `bm25search` CLI command, which only prints results, is left out with it.
- `tfidf_utils` and the other context files are not part of this model.
- The class-level dictionaries of `InvertedIndex` and of the semantic searchers are shared between instances in Python. The model gives each instance its own fields.
- `ChunkedSemanticSearch.documents` and `chunk_metadata` start as `None`. The model starts them empty; the `None` access errors are not modelled.
- `list.sort` is modelled by the stable descending insertion sort `Sorting.SortDesc` on a sequence, not in place. `sorted(set(...))` is `Sorting.SortedSet`.
- `HybridSearch.OverwriteScores` returns a new sequence instead of mutating the ranker's result dicts, so aliasing with the caller's list is not modelled.
- `SemanticSearch.ChunkedSemanticSearch.SearchChunk` uses the corrected lookup by id. The lookup as written is `SemanticSearch.SearchChunkAsWritten` (see Findings).
- `HybridSearch.HybridSearch.WeightedSearch` passes `alpha` to `hybrid_score`. The call as written is `HybridSearch.WeightedSpecAsWritten` (see Findings).
- Printing in the CLI commands is left out; the commands are modelled by the values they return.

## Findings

| source | as written | input that shows it | evidently intended | confidence | as-written member | corrected member |
|---|---|---|---|---|---|---|
| cli/lib/hybrid_search.py:78 | `hybrid_score(bm25_score, semantic_score)` omits the required `alpha`, so any result raises `TypeError` | one BM25 hit `(1, 2.0)` for a known movie | `hybrid_score(bm25_score, semantic_score, alpha)` with the method's `alpha` | high, not executed | HybridSearch.WeightedAsWrittenRaises, HybridSearch.WeightedAsWrittenExample | HybridSearch.HybridSearch.WeightedSearch, HybridSearch.WeightedIntendedExample |
| cli/lib/semantic_search.py:221 | `self.documents[movie_idx]` indexes the movie list by the movie id, with Python's wrap-around for negative values | movies with ids 1 and 2 and one chunk of movie 1: the result is movie 2; a chunk of movie 2 raises `IndexError` | `self.document_map[movie_idx]` | high, not executed | SemanticSearch.PositionLookupPicksWrongMovie, SemanticSearch.PositionLookupRaisesForLastId | SemanticSearch.ChunkedSemanticSearch.SearchChunk, SemanticSearch.SearchChunkShape |
