/** The two fusion formulas of hybrid search: the weighted linear
    combination of normalized scores and reciprocal rank fusion (RRF). */
module ScoreUtils {

  /** `alpha * bm25 + (1 - alpha) * semantic`. Alpha 1 keeps the BM25 score,
      alpha 0 the semantic one, and any alpha in [0, 1] lands between them. */
  function HybridScore(bm25Score: real, semanticScore: real, alpha: real): (r: real)
    ensures alpha == 1.0 ==> r == bm25Score
    ensures alpha == 0.0 ==> r == semanticScore
  {
    alpha * bm25Score + (1.0 - alpha) * semanticScore
  }

  lemma MulNonneg(a: real, d: real)
    requires a >= 0.0 && d >= 0.0
    ensures a * d >= 0.0
  {
  }

  /** For alpha in [0, 1] the hybrid score lies between the two scores. */
  lemma {:induction false} HybridScoreBetween(b: real, s: real, alpha: real)
    requires 0.0 <= alpha <= 1.0
    ensures (if b <= s then b else s) <= HybridScore(b, s, alpha) <= (if b <= s then s else b)
  {
    var r := HybridScore(b, s, alpha);
    assert r == s + alpha * (b - s);
    var d := if b <= s then s - b else b - s;
    MulNonneg(alpha, d);
    MulNonneg(1.0 - alpha, d);
    assert alpha * d + (1.0 - alpha) * d == d;
  }

  /** Raising alpha never lowers the hybrid score of a document whose BM25
      score is at least its semantic score, and never raises the other kind. */
  lemma {:induction false} HybridScoreMonotoneInAlpha(b: real, s: real, a1: real, a2: real)
    requires a1 <= a2
    ensures b >= s ==> HybridScore(b, s, a1) <= HybridScore(b, s, a2)
    ensures b <= s ==> HybridScore(b, s, a1) >= HybridScore(b, s, a2)
  {
    assert HybridScore(b, s, a2) - HybridScore(b, s, a1) == (a2 - a1) * (b - s);
    if b >= s {
      MulNonneg(a2 - a1, b - s);
    } else {
      MulNonneg(a2 - a1, s - b);
      assert (a2 - a1) * (s - b) == -((a2 - a1) * (b - s));
    }
  }

  /** A rank can be turned into a reciprocal without dividing by zero. */
  predicate RankUsable(rank: int, k: int)
  {
    rank > 0 ==> rank + k != 0
  }

  /** `1 / (rank + k)` for a retrieved document (rank > 0), 0 otherwise. */
  function RecipRank(rank: int, k: int): (r: real)
    requires RankUsable(rank, k)
    ensures rank <= 0 ==> r == 0.0
    ensures rank > 0 && rank + k > 0 ==> r > 0.0
  {
    if rank > 0 then 1.0 / (rank + k) as real else 0.0
  }

  /** The RRF score of a document: the sum of the reciprocal ranks it has in
      the two lists, 0 standing for "not retrieved by that ranker". */
  function RrfScore(bm25Rank: int, semanticRank: int, k: int): (r: real)
    requires RankUsable(bm25Rank, k) && RankUsable(semanticRank, k)
    ensures bm25Rank <= 0 && semanticRank <= 0 ==> r == 0.0
    ensures bm25Rank > 0 && semanticRank <= 0 ==> r == 1.0 / (bm25Rank + k) as real
    ensures bm25Rank <= 0 && semanticRank > 0 ==> r == 1.0 / (semanticRank + k) as real
  {
    RecipRank(bm25Rank, k) + RecipRank(semanticRank, k)
  }

  /** The two rank arguments play the same role. */
  lemma RrfScoreSymmetric(a: int, b: int, k: int)
    requires RankUsable(a, k) && RankUsable(b, k)
    ensures RrfScore(a, b, k) == RrfScore(b, a, k)
  {
  }

  /** A document retrieved by both rankers accumulates both contributions. */
  lemma RrfScoreAdditive(a: int, b: int, k: int)
    requires a > 0 && b > 0 && a + k != 0 && b + k != 0
    ensures RrfScore(a, b, k) == 1.0 / (a + k) as real + 1.0 / (b + k) as real
  {
  }

  lemma {:induction false} ReciprocalDecreasing(x: real, y: real)
    requires 0.0 < x < y
    ensures 1.0 / y < 1.0 / x
  {
    var a, b := 1.0 / x, 1.0 / y;
    assert a * x == 1.0 && b * y == 1.0;
    assert a > 0.0;
    assert a * y > a * x;
    assert (a - b) * y > 0.0;
  }

  /** For k > 0, a worse (larger) positive rank gives a strictly smaller score. */
  lemma {:induction false} RrfScoreStrictlyDecreasing(r1: int, r2: int, other: int, k: int)
    requires k > 0 && 0 < r1 < r2 && other >= 0
    ensures RrfScore(r2, other, k) < RrfScore(r1, other, k)
    ensures RrfScore(other, r2, k) < RrfScore(other, r1, k)
  {
    ReciprocalDecreasing((r1 + k) as real, (r2 + k) as real);
  }

  lemma {:induction false} RecipRankBounds(rank: int, k: int)
    requires k > 0 && rank >= 0
    ensures 0.0 <= RecipRank(rank, k) <= 1.0 / (1 + k) as real
  {
    if rank > 1 {
      ReciprocalDecreasing((1 + k) as real, (rank + k) as real);
    }
  }

  /** For k > 0 and non-negative ranks the score lies in [0, 2/(1+k)]. */
  lemma {:induction false} RrfScoreBounds(a: int, b: int, k: int)
    requires k > 0 && a >= 0 && b >= 0
    ensures 0.0 <= RrfScore(a, b, k) <= 2.0 / (1 + k) as real
  {
    RecipRankBounds(a, k);
    RecipRankBounds(b, k);
    assert 2.0 / (1 + k) as real == 1.0 / (1 + k) as real + 1.0 / (1 + k) as real;
  }
}
