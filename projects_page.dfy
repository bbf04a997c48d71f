/**
 * The overall progress figure on the project list (src/pages/ProjectsPage.tsx):
 * the mean of the six stage percentages, rounded half up with `Math.round`.
 */
module ProjectsPage {
  import opened Wrappers
  import opened Types
  import opened Folds

  /** How a stage's percentage enters the sum: as itself, as the `(a, b) => a + b` reduce adds it. */
  function Summand(v: int): int { v }

  /** `stages.reduce((a, b) => a + b, 0)` over `Object.values(progress)`. */
  function ProgressSum(progress: Progress): int {
    SumOf(progress.Values(), Summand)
  }

  /**
   * `getOverallProgress`: 0 without a progress record, otherwise
   * `Math.round(sum / 6)`. `Math.round(x)` is `floor(x + 1/2)`, which for
   * `x = sum / 6` is the integer quotient `(2 * sum + 6) / 12`.
   */
  function GetOverallProgress(progress: Option<Progress>): (r: int)
    ensures progress.None? ==> r == 0
    ensures progress.Some? ==>
              var n := |progress.value.Values()|;
              n == 6 &&
              // r is the nearest integer to sum / n, halves rounded up
              2 * ProgressSum(progress.value) - n < 2 * n * r <= 2 * ProgressSum(progress.value) + n
  {
    if progress.None? then 0
    else
      var n := |progress.value.Values()|;
      (2 * ProgressSum(progress.value) + n) / (2 * n)
  }

  function MinOf(xs: seq<int>): (m: int)
    requires xs != []
    ensures m in xs
    ensures forall x :: x in xs ==> m <= x
  {
    if |xs| == 1 then xs[0]
    else
      var rest := MinOf(xs[1..]);
      assert forall x :: x in xs ==> x == xs[0] || x in xs[1..];
      if xs[0] <= rest then xs[0] else rest
  }

  function MaxOf(xs: seq<int>): (m: int)
    requires xs != []
    ensures m in xs
    ensures forall x :: x in xs ==> x <= m
  {
    if |xs| == 1 then xs[0]
    else
      var rest := MaxOf(xs[1..]);
      assert forall x :: x in xs ==> x == xs[0] || x in xs[1..];
      if xs[0] >= rest then xs[0] else rest
  }

  /** A sum of six values between `lo` and `hi`, rounded as the page does, stays between them. */
  lemma RoundedMeanBetween(sum: int, r: int, lo: int, hi: int)
    requires 6 * lo <= sum <= 6 * hi
    requires 2 * sum - 6 < 12 * r <= 2 * sum + 6
    ensures lo <= r <= hi
  {
  }

  /** The rounded mean never leaves the range of the stage percentages. */
  lemma OverallProgressWithinRange(progress: Progress)
    ensures MinOf(progress.Values()) <= GetOverallProgress(Some(progress)) <= MaxOf(progress.Values())
  {
    var lo, hi := MinOf(progress.Values()), MaxOf(progress.Values());
    SumOfBounds(progress.Values(), Summand, lo, hi);
    RoundedMeanBetween(ProgressSum(progress), GetOverallProgress(Some(progress)), lo, hi);
  }

  /** Percentages in 0..100 give an overall figure in 0..100. */
  lemma OverallProgressIsPercent(progress: Progress)
    requires forall v :: v in progress.Values() ==> 0 <= v <= 100
    ensures 0 <= GetOverallProgress(Some(progress)) <= 100
  {
    SumOfBounds(progress.Values(), Summand, 0, 100);
    RoundedMeanBetween(ProgressSum(progress), GetOverallProgress(Some(progress)), 0, 100);
  }

  /** When every stage stands at the same percentage, that is the overall figure. */
  lemma OverallProgressUniform(progress: Progress, v: int)
    requires forall w :: w in progress.Values() ==> w == v
    ensures GetOverallProgress(Some(progress)) == v
  {
    SumOfBounds(progress.Values(), Summand, v, v);
    RoundedMeanBetween(ProgressSum(progress), GetOverallProgress(Some(progress)), v, v);
  }
}
