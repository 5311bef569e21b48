/** Blending a live observed rate with a prior rate (`blend_with_prior`). */
module Blending {
  import opened Wrappers
  import Reals

  /**
   * `blend_with_prior`: the prior when nothing was observed, otherwise the
   * weighted average `w * live + (1 - w) * prior`.
   */
  function BlendWithPrior(liveValue: Option<real>, prior: real, liveWeight: real): (r: real)
    ensures liveValue.None? ==> r == prior
    ensures liveValue.Some? && liveWeight == 0.0 ==> r == prior
    ensures liveValue.Some? && liveWeight == 1.0 ==> r == liveValue.value
    ensures liveValue.Some? && 0.0 <= liveWeight <= 1.0 ==>
      (if liveValue.value <= prior then liveValue.value else prior) <= r
      && r <= (if liveValue.value <= prior then prior else liveValue.value)
  {
    if liveValue.None? then prior
    else
      var live := liveValue.value;
      var lo := if live <= prior then live else prior;
      var hi := if live <= prior then prior else live;
      assert 0.0 <= liveWeight <= 1.0 ==> lo <= liveWeight * live + (1.0 - liveWeight) * prior <= hi by {
        if 0.0 <= liveWeight <= 1.0 { Reals.ConvexBetween(liveWeight, live, prior, lo, hi); }
      }
      liveWeight * live + (1.0 - liveWeight) * prior
  }

  /** A credible interval (lower, upper). */
  datatype Interval = Interval(lower: real, upper: real)

  /**
   * `bayesian_credible_interval`: `None` when either count is missing; otherwise the
   * `alpha / 2` and `1 - alpha / 2` quantiles of the Beta(1 + successes,
   * 1 + trials - successes) posterior, which `betaQuantile` stands for.
   */
  function BayesianCredibleInterval(
    successes: Option<int>, trials: Option<int>, alpha: real,
    betaQuantile: (real, int, int) -> real): (r: Option<Interval>)
    ensures r.None? <==> successes.None? || trials.None?
    ensures r.Some? ==>
      var a := 1 + successes.value;
      var b := 1 + (trials.value - successes.value);
      r.value == Interval(betaQuantile(alpha / 2.0, a, b), betaQuantile(1.0 - alpha / 2.0, a, b))
  {
    if successes.None? || trials.None? then None
    else
      var postA := 1 + successes.value;
      var postB := 1 + (trials.value - successes.value);
      Some(Interval(betaQuantile(alpha / 2.0, postA, postB), betaQuantile(1.0 - alpha / 2.0, postA, postB)))
  }
}
