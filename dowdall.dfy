/**
 * Dowdall (reciprocal-rank) scoring of one rank.  Scores are exact reals,
 * so `1/rank` carries no rounding.
 */
module Dowdall {
  import opened Wrappers

  /**
   * The score of a rank: 0 for a missing (NA) or non-positive rank, otherwise
   * the reciprocal of the rank.  `listSize` is accepted and ignored, as in
   * `dowdall_score`.
   */
  function DowdallScore(rank: Option<int>, listSize: int): (score: real)
    ensures rank.None? || rank.value <= 0 ==> score == 0.0
    ensures rank.Some? && rank.value > 0 ==> score * rank.value as real == 1.0
    ensures 0.0 <= score <= 1.0
  {
    if rank.None? || rank.value <= 0 then 0.0 else 1.0 / rank.value as real
  }

  /** The list size never changes a score. */
  lemma ScoreIgnoresListSize(rank: Option<int>, n: int, m: int)
    ensures DowdallScore(rank, n) == DowdallScore(rank, m)
  {
  }

  /** Over positive ranks the score is strictly positive and strictly decreasing. */
  lemma ScoreStrictlyDecreasing(r1: int, r2: int, listSize: int)
    requires 0 < r1 < r2
    ensures 0.0 < DowdallScore(Some(r2), listSize) < DowdallScore(Some(r1), listSize)
  {
    var a, b := r1 as real, r2 as real;
    var s1, s2 := 1.0 / a, 1.0 / b;
    assert s2 * b == 1.0;
    assert 0.0 < s2;
    assert s2 * a < s2 * b by {
      assert s2 * (b - a) > 0.0;
    }
    assert s1 * a == 1.0;
    assert (s1 - s2) * a == s1 * a - s2 * a;
    assert s2 < s1;
  }
}
