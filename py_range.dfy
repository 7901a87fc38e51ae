/** Python's `range(start, stop, step)` for a positive step, as the list of
    the positions it yields. */
module PyRange {

  /** `list(range(i, n, step))`. */
  function RangeFrom(n: int, step: int, i: nat): seq<nat>
    requires step > 0
    decreases n - i
  {
    if i >= n then [] else [i] + RangeFrom(n, step, i + step)
  }

  /** `len(range(0, n, step))`: the ceiling of `n / step`, 0 for `n <= 0`. */
  function RangeLength(n: int, step: int): nat
    requires step > 0
  {
    if n <= 0 then 0 else (n + step - 1) / step
  }

  lemma MulSucc(c: int, step: int)
    ensures (c + 1) * step == c * step + step
  {
  }

  lemma MulMono(a: int, b: int, s: int)
    requires a <= b && s >= 0
    ensures a * s <= b * s
  {
  }

  /** Position `j` of the range is `i + j * step`, and every position lies in `[i, n)`. */
  lemma {:induction false} RangeAt(n: int, step: int, i: nat, j: nat)
    requires step > 0 && j < |RangeFrom(n, step, i)|
    ensures RangeFrom(n, step, i)[j] == i + j * step
    ensures i <= RangeFrom(n, step, i)[j] < n
    decreases j
  {
    if j > 0 {
      RangeAt(n, step, i + step, j - 1);
      MulSucc(j - 1, step);
    }
  }

  /** `c` positions start at `i` exactly when `c` is the ceiling of `(n - i) / step`. */
  lemma {:induction false} RangeCount(n: int, step: int, i: nat)
    requires step > 0
    ensures var c := |RangeFrom(n, step, i)|;
      if i >= n then c == 0 else (c - 1) * step < n - i <= c * step
    decreases n - i
  {
    if i < n {
      RangeCount(n, step, i + step);
      MulSucc(|RangeFrom(n, step, i + step)|, step);
    }
  }

  /** The ceiling characterisation pins the count down to `(m + step - 1) / step`. */
  lemma {:induction false} CeilingDivision(m: int, step: int, c: int)
    requires m > 0 && step > 0 && (c - 1) * step < m <= c * step
    ensures c == (m + step - 1) / step
  {
    var q, r := (m + step - 1) / step, (m + step - 1) % step;
    assert m + step - 1 == q * step + r && 0 <= r < step;
    if q < c {
      MulMono(q + 1, c, step);
    } else if q > c {
      MulMono(c + 1, q, step);
    }
  }

  /** `range(0, n, step)` has `RangeLength(n, step)` positions. */
  lemma {:induction false} RangeLengthIsCount(n: int, step: int)
    requires step > 0
    ensures |RangeFrom(n, step, 0)| == RangeLength(n, step)
  {
    RangeCount(n, step, 0);
    if n > 0 {
      CeilingDivision(n, step, |RangeFrom(n, step, 0)|);
    }
  }

  /** For `0 <= k < n`, position `k / step` of `range(0, n, step)` exists and
      is the last one not beyond `k`. */
  lemma {:induction false} RangeCovers(n: int, step: int, k: int)
    requires step > 0 && 0 <= k < n
    ensures k / step < |RangeFrom(n, step, 0)|
    ensures (k / step) * step <= k < (k / step) * step + step
  {
    var j := k / step;
    assert k == j * step + k % step;
    RangeCount(n, step, 0);
    var c := |RangeFrom(n, step, 0)|;
    if j >= c {
      MulMono(c, j, step);
    }
  }
}
