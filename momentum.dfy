/**
 * Point-level momentum (Wang et al. 2024, as the repository implements it): the
 * rolling point-win rate, the leverage of a point, momentum as an exponentially
 * weighted average of leverage, and the `MomentumTracker` that keeps their histories.
 */
module Momentum {
  import opened Wrappers
  import Reals

  /**
   * `calculate_rolling_point_win_probability`: `(wins + smoothing) / window`, clamped
   * to [0, 1].
   */
  function RollingPointWinProbability(previousWins: int, windowSize: int, smoothing: int): (r: real)
    requires windowSize > 0
    ensures 0.0 <= r <= 1.0
    ensures 0 <= previousWins + smoothing <= windowSize ==>
      r * (windowSize as real) == (previousWins + smoothing) as real
    ensures previousWins + smoothing >= windowSize ==> r == 1.0
    ensures previousWins + smoothing <= 0 ==> r == 0.0
  {
    Reals.Clamp((previousWins + smoothing) as real / windowSize as real, 0.0, 1.0)
  }

  /** More wins in the window never lower the rolling rate. */
  lemma RollingMonotone(w1: int, w2: int, windowSize: int, smoothing: int)
    requires windowSize > 0 && w1 <= w2
    ensures RollingPointWinProbability(w1, windowSize, smoothing)
      <= RollingPointWinProbability(w2, windowSize, smoothing)
  {
    DivMonotone((w1 + smoothing) as real, (w2 + smoothing) as real, windowSize as real);
  }

  lemma DivMonotone(a: real, b: real, n: real)
    requires a <= b && n > 0.0
    ensures a / n <= b / n
  {
    assert (b - a) / n >= 0.0;
    assert b / n - a / n == (b - a) / n;
  }

  /** The documented example: 12 wins of the last 20 with smoothing 1 give 0.65. */
  lemma RollingTwelveOfTwenty(wins: int, windowSize: int, smoothing: int)
    requires wins == 12 && windowSize == 20 && smoothing == 1
    ensures RollingPointWinProbability(wins, windowSize, smoothing) == 0.65
  {
  }

  /**
   * `calculate_leverage`: a lost point carries no leverage; a won point carries the
   * swing `pWin - pLose` of the match-win probability, clipped at zero.
   */
  function Leverage(playerWonPoint: bool, pWinCounterfactual: real, pLoseCounterfactual: real): (r: real)
    ensures r >= 0.0
    ensures !playerWonPoint ==> r == 0.0
    ensures playerWonPoint && pWinCounterfactual >= pLoseCounterfactual ==>
      r == pWinCounterfactual - pLoseCounterfactual
    ensures pWinCounterfactual <= pLoseCounterfactual ==> r == 0.0
  {
    if !playerWonPoint then 0.0
    else
      var leverage := pWinCounterfactual - pLoseCounterfactual;
      if leverage > 0.0 then leverage else 0.0
  }

  /** Leverage never exceeds the swing between the two counterfactual probabilities. */
  lemma LeverageAtMostSwing(won: bool, pWin: real, pLose: real)
    requires 0.0 <= pLose <= 1.0 && 0.0 <= pWin <= 1.0
    ensures 0.0 <= Leverage(won, pWin, pLose) <= 1.0
    ensures Leverage(won, pWin, pLose) <= if pWin >= pLose then pWin - pLose else pLose - pWin
  {
  }

  /** The documented examples: a break point saved at 4-5 (0.25) against a point at 5-4 (0.10). */
  lemma LeverageExamples(pw1: real, pl1: real, pw2: real, pl2: real)
    requires pw1 == 0.45 && pl1 == 0.20 && pw2 == 0.95 && pl2 == 0.85
    ensures Leverage(true, pw1, pl1) == 0.25 && Leverage(true, pw2, pl2) == 0.10
  {
  }

  /** The weight `(1 - alpha)^i` of the leverage `i` points back. */
  function Weight(alpha: real, i: nat): real {
    Reals.Pow(1.0 - alpha, i)
  }

  /** `sum (1 - alpha)^i` for `i < n`: the denominator of the momentum average. */
  function WeightSum(alpha: real, n: nat): real {
    if n == 0 then 0.0 else WeightSum(alpha, n - 1) + Weight(alpha, n - 1)
  }

  /**
   * `sum (1 - alpha)^i * h[|h| - 1 - i]` for `i < n`: the numerator, the most recent
   * leverage weighted by `(1 - alpha)^0`.
   */
  function WeightedSum(alpha: real, h: seq<real>, n: nat): real
    requires n <= |h|
  {
    if n == 0 then 0.0 else WeightedSum(alpha, h, n - 1) + Reals.Scale(Weight(alpha, n - 1), h[|h| - n])
  }

  /**
   * Momentum of a leverage history (equation 5 as the repository computes it): 0 for
   * an empty history or a non-positive denominator, otherwise the weighted average
   * clamped to [-1, 1].
   */
  function Ewma(h: seq<real>, alpha: real): real {
    if |h| == 0 || WeightSum(alpha, |h|) <= 0.0 then 0.0
    else Reals.Clamp(WeightedSum(alpha, h, |h|) / WeightSum(alpha, |h|), -1.0, 1.0)
  }

  /**
   * `calculate_momentum_ewma`: accumulates numerator and denominator over the history,
   * newest first.
   */
  method MomentumEwma(leverageHistory: seq<real>, alpha: real) returns (momentum: real)
    ensures momentum == Ewma(leverageHistory, alpha)
    ensures -1.0 <= momentum <= 1.0
  {
    if |leverageHistory| == 0 {
      return 0.0;
    }
    var t := |leverageHistory|;
    var numerator := 0.0;
    var denominator := 0.0;
    var decayFactor := 1.0 - alpha;
    var i := 0;
    while i < t
      invariant 0 <= i <= t
      invariant numerator == WeightedSum(alpha, leverageHistory, i)
      invariant denominator == WeightSum(alpha, i)
    {
      var weight := Reals.Pow(decayFactor, i);
      numerator := numerator + Reals.Scale(weight, leverageHistory[t - 1 - i]);
      denominator := denominator + weight;
      i := i + 1;
    }
    if denominator <= 0.0 {
      return 0.0;
    }
    momentum := Reals.Clamp(numerator / denominator, -1.0, 1.0);
  }

  /** Momentum always lies in [-1, 1], and is 0 for an empty history. */
  lemma EwmaBounded(h: seq<real>, alpha: real)
    ensures -1.0 <= Ewma(h, alpha) <= 1.0
    ensures h == [] ==> Ewma(h, alpha) == 0.0
  {
  }

  /** With `alpha <= 1` every weight is non-negative and the first is 1. */
  lemma {:induction false} WeightSumAtLeastOne(alpha: real, n: nat)
    requires alpha <= 1.0 && n >= 1
    ensures WeightSum(alpha, n) >= 1.0
  {
    if n > 1 {
      WeightSumAtLeastOne(alpha, n - 1);
      Reals.PowNonNegative(1.0 - alpha, n - 1);
    }
  }

  lemma ScaleBetween(w: real, x: real, lo: real, hi: real)
    requires w >= 0.0 && lo <= x <= hi
    ensures Reals.Scale(lo, w) <= Reals.Scale(w, x) <= Reals.Scale(hi, w)
  {
    assert w * x - w * lo == w * (x - lo);
    assert w * hi - w * x == w * (hi - x);
  }

  /** The numerator lies between `lo` and `hi` times the denominator. */
  lemma {:induction false} WeightedSumBetween(alpha: real, h: seq<real>, n: nat, lo: real, hi: real)
    requires alpha <= 1.0 && n <= |h|
    requires forall j :: 0 <= j < |h| ==> lo <= h[j] <= hi
    ensures Reals.Scale(lo, WeightSum(alpha, n)) <= WeightedSum(alpha, h, n)
    ensures WeightedSum(alpha, h, n) <= Reals.Scale(hi, WeightSum(alpha, n))
  {
    if n > 0 {
      WeightedSumBetween(alpha, h, n - 1, lo, hi);
      var w := Weight(alpha, n - 1);
      Reals.PowNonNegative(1.0 - alpha, n - 1);
      ScaleBetween(w, h[|h| - n], lo, hi);
      ScaleAdd(lo, WeightSum(alpha, n - 1), w);
      ScaleAdd(hi, WeightSum(alpha, n - 1), w);
    }
  }

  lemma ScaleAdd(c: real, x: real, y: real)
    ensures Reals.Scale(c, x + y) == Reals.Scale(c, x) + Reals.Scale(c, y)
  {
  }

  lemma MulStrict(a: real, b: real, c: real)
    requires a < b && c > 0.0
    ensures a * c < b * c
  {
    assert b * c - a * c == (b - a) * c;
  }

  lemma DivBetween(num: real, den: real, lo: real, hi: real)
    requires den > 0.0 && Reals.Scale(lo, den) <= num <= Reals.Scale(hi, den)
    ensures lo <= num / den <= hi
  {
    var q := num / den;
    assert q * den == num;
    assert lo <= q by {
      if q < lo {
        MulStrict(q, lo, den);
        assert false;
      }
    }
    assert q <= hi by {
      if q > hi {
        MulStrict(hi, q, den);
        assert false;
      }
    }
  }

  /**
   * With `alpha <= 1` every weight `(1 - alpha)^i` is non-negative, so the momentum is
   * a true average: it lies between the smallest and the largest leverage recorded
   * (which [-1, 1] contains).
   */
  lemma EwmaBetween(h: seq<real>, alpha: real, lo: real, hi: real)
    requires alpha <= 1.0 && |h| > 0
    requires -1.0 <= lo && hi <= 1.0
    requires forall j :: 0 <= j < |h| ==> lo <= h[j] <= hi
    ensures lo <= Ewma(h, alpha) <= hi
  {
    WeightSumAtLeastOne(alpha, |h|);
    WeightedSumBetween(alpha, h, |h|, lo, hi);
    DivBetween(WeightedSum(alpha, h, |h|), WeightSum(alpha, |h|), lo, hi);
  }

  /** With `alpha` = 1 only the newest leverage has weight: momentum is that value. */
  lemma {:induction false} EwmaAlphaOne(h: seq<real>, alpha: real)
    requires alpha == 1.0 && |h| > 0
    ensures Ewma(h, alpha) == Reals.Clamp(h[|h| - 1], -1.0, 1.0)
  {
    WeightsVanish(alpha, h, |h|);
  }

  lemma {:induction false} WeightsVanish(alpha: real, h: seq<real>, n: nat)
    requires alpha == 1.0 && 1 <= n <= |h|
    ensures WeightSum(alpha, n) == 1.0 && WeightedSum(alpha, h, n) == h[|h| - 1]
  {
    if n > 1 {
      WeightsVanish(alpha, h, n - 1);
      assert Weight(alpha, n - 1) == 0.0;
    }
  }

  /**
   * With the paper's `alpha` = 3.4 two points give the denominator 1 - 2.4 < 0, so the
   * momentum falls back to 0 whatever the leverage.
   */
  lemma EwmaPaperAlphaTwoPoints(h: seq<real>, alpha: real)
    requires alpha == 3.4 && |h| == 2
    ensures Ewma(h, alpha) == 0.0
  {
    assert WeightSum(alpha, 1) == 1.0;
    assert Weight(alpha, 1) == 1.0 - alpha;
  }

  /** The number of `true` entries, as Python's `sum` counts a list of booleans. */
  function CountTrue(s: seq<bool>): (n: nat)
    ensures n <= |s|
  {
    if |s| == 0 then 0 else CountTrue(s[..|s| - 1]) + (if s[|s| - 1] then 1 else 0)
  }

  /** `s[-n:]` for `n > 0`: the last `n` entries, or all of them when there are fewer. */
  function LastN(s: seq<bool>, n: nat): (r: seq<bool>)
    requires n > 0
    ensures |r| == if |s| <= n then |s| else n
    ensures s == s[..|s| - |r|] + r
  {
    if |s| <= n then s else s[|s| - n..]
  }

  lemma {:induction false} CountTrueAppend(a: seq<bool>, b: seq<bool>)
    ensures CountTrue(a + b) == CountTrue(a) + CountTrue(b)
    decreases |b|
  {
    if |b| == 0 {
      assert a + b == a;
    } else {
      assert (a + b)[..|a + b| - 1] == a + b[..|b| - 1];
      CountTrueAppend(a, b[..|b| - 1]);
    }
  }

  /** Points older than the window never affect the rolling count. */
  lemma OnlyWindowCounts(older: seq<bool>, h: seq<bool>, n: nat)
    requires n > 0 && |h| >= n
    ensures LastN(older + h, n) == LastN(h, n)
  {
    assert (older + h)[|older + h| - n..] == h[|h| - n..];
  }

  /** The momentum recorded after each prefix of the leverage history. */
  ghost predicate MomentumFollowsLeverage(leverage: seq<real>, momentum: seq<real>, alpha: real) {
    |momentum| == |leverage|
    && forall k :: 0 <= k < |momentum| ==> momentum[k] == Ewma(leverage[..k + 1], alpha)
  }

  /** Appending a leverage and the momentum of the longer history keeps them in step. */
  lemma MomentumAppend(leverage: seq<real>, momentum: seq<real>, alpha: real, x: real)
    requires MomentumFollowsLeverage(leverage, momentum, alpha)
    ensures MomentumFollowsLeverage(leverage + [x], momentum + [Ewma(leverage + [x], alpha)], alpha)
  {
    var lev := leverage + [x];
    var mom := momentum + [Ewma(lev, alpha)];
    forall k | 0 <= k < |mom|
      ensures mom[k] == Ewma(lev[..k + 1], alpha)
    {
      if k < |momentum| {
        assert lev[..k + 1] == leverage[..k + 1];
      } else {
        assert lev[..k + 1] == lev;
      }
    }
  }

  /** `MomentumTracker`: serve/receive outcomes, leverage and momentum streams of a match. */
  class MomentumTracker {
    const windowSize: int
    const alpha: real
    const smoothing: int
    var serveWinHistory: seq<bool>
    var receiveWinHistory: seq<bool>
    var leverageHistory: seq<real>
    var momentumHistory: seq<real>
    var lastPointServer: Option<string>
    var pointsPlayed: int

    /**
     * Every recorded point adds one entry to exactly one outcome history, one leverage
     * and one momentum, and each momentum is that of the leverage up to its point.
     */
    ghost predicate Valid()
      reads this
    {
      pointsPlayed == |leverageHistory| == |serveWinHistory| + |receiveWinHistory|
      && MomentumFollowsLeverage(leverageHistory, momentumHistory, alpha)
    }

    constructor(windowSize: int, alpha: real, smoothing: int)
      ensures this.windowSize == windowSize && this.alpha == alpha && this.smoothing == smoothing
      ensures serveWinHistory == [] && receiveWinHistory == []
      ensures leverageHistory == [] && momentumHistory == []
      ensures lastPointServer == None && pointsPlayed == 0
      ensures Valid()
    {
      this.windowSize := windowSize;
      this.alpha := alpha;
      this.smoothing := smoothing;
      serveWinHistory := [];
      receiveWinHistory := [];
      leverageHistory := [];
      momentumHistory := [];
      lastPointServer := None;
      pointsPlayed := 0;
    }

    /** `reset`: forget every point, keeping the configuration. */
    method Reset()
      modifies this
      ensures serveWinHistory == [] && receiveWinHistory == []
      ensures leverageHistory == [] && momentumHistory == []
      ensures lastPointServer == None && pointsPlayed == 0
      ensures Valid()
    {
      serveWinHistory := [];
      receiveWinHistory := [];
      leverageHistory := [];
      momentumHistory := [];
      lastPointServer := None;
      pointsPlayed := 0;
    }

    /**
     * `add_point`: the outcome goes to the serve or the receive history, the leverage
     * is appended and the momentum of the whole leverage history is appended.
     */
    method AddPoint(pointWonByServer: bool, isServerPoint: bool, leverage: real)
      modifies this
      ensures isServerPoint ==>
        serveWinHistory == old(serveWinHistory) + [pointWonByServer]
        && receiveWinHistory == old(receiveWinHistory)
      ensures !isServerPoint ==>
        receiveWinHistory == old(receiveWinHistory) + [pointWonByServer]
        && serveWinHistory == old(serveWinHistory)
      ensures leverageHistory == old(leverageHistory) + [leverage]
      ensures momentumHistory == old(momentumHistory) + [Ewma(leverageHistory, alpha)]
      ensures pointsPlayed == old(pointsPlayed) + 1
      ensures lastPointServer == old(lastPointServer)
      ensures old(Valid()) ==> Valid()
    {
      if isServerPoint {
        serveWinHistory := serveWinHistory + [pointWonByServer];
      } else {
        receiveWinHistory := receiveWinHistory + [pointWonByServer];
      }
      leverageHistory := leverageHistory + [leverage];
      var newMomentum := MomentumEwma(leverageHistory, alpha);
      momentumHistory := momentumHistory + [newMomentum];
      pointsPlayed := pointsPlayed + 1;
      if old(Valid()) {
        MomentumAppend(old(leverageHistory), old(momentumHistory), alpha, leverage);
      }
    }

    /**
     * `get_rolling_point_win_probability`: `None` before the first point of that kind,
     * otherwise the rolling rate of the last `windowSize` outcomes.
     */
    function GetRollingPointWinProbability(isServing: bool): (r: Option<real>)
      requires windowSize > 0
      reads this
      ensures var h := if isServing then serveWinHistory else receiveWinHistory;
        (r.None? <==> h == [])
        && (r.Some? ==>
          r.value == RollingPointWinProbability(CountTrue(LastN(h, windowSize)), windowSize, smoothing)
          && 0.0 <= r.value <= 1.0)
    {
      var h := if isServing then serveWinHistory else receiveWinHistory;
      if h == [] then None
      else Some(RollingPointWinProbability(CountTrue(LastN(h, windowSize)), windowSize, smoothing))
    }

    /** `get_current_momentum`: the newest momentum, `None` before the first point. */
    function GetCurrentMomentum(): (r: Option<real>)
      reads this
      ensures r.None? <==> momentumHistory == []
      ensures r.Some? ==> r.value == momentumHistory[|momentumHistory| - 1]
    {
      if momentumHistory == [] then None else Some(momentumHistory[|momentumHistory| - 1])
    }

    /** In a valid tracker the current momentum is that of the whole leverage history. */
    lemma CurrentMomentumIsEwma()
      requires Valid() && pointsPlayed > 0
      ensures GetCurrentMomentum() == Some(Ewma(leverageHistory, alpha))
      ensures -1.0 <= GetCurrentMomentum().value <= 1.0
    {
      var k := |momentumHistory| - 1;
      assert leverageHistory[..k + 1] == leverageHistory;
      EwmaBounded(leverageHistory, alpha);
    }

    /**
     * `get_momentum_delta`: the newest momentum minus the one `lastN` points earlier,
     * `None` while fewer than `lastN + 1` are recorded.
     */
    function GetMomentumDelta(lastN: int): (r: Option<real>)
      requires lastN >= 0
      reads this
      ensures r.None? <==> |momentumHistory| < lastN + 1
      ensures r.Some? ==>
        r.value == momentumHistory[|momentumHistory| - 1] - momentumHistory[|momentumHistory| - 1 - lastN]
    {
      if |momentumHistory| < lastN + 1 then None
      else Some(momentumHistory[|momentumHistory| - 1] - momentumHistory[|momentumHistory| - (lastN + 1)])
    }

    /** Over zero points the delta is zero; momentum deltas telescope. */
    lemma DeltaTelescopes(m: nat, n: nat)
      requires |momentumHistory| >= m + n + 1
      ensures GetMomentumDelta(0) == Some(0.0)
      ensures GetMomentumDelta(m + n).value ==
        GetMomentumDelta(m).value
        + (momentumHistory[|momentumHistory| - 1 - m] - momentumHistory[|momentumHistory| - 1 - m - n])
    {
    }

    /**
     * `detect_momentum_spike`: with at least five momenta, whether the newest exceeds
     * the fifth newest by more than `threshold`.
     */
    function DetectMomentumSpike(threshold: real): (spike: bool)
      reads this
      ensures spike ==> |momentumHistory| >= 5
      ensures |momentumHistory| >= 5 ==>
        (spike <==> momentumHistory[|momentumHistory| - 1] - momentumHistory[|momentumHistory| - 5] > threshold)
    {
      if |momentumHistory| < 5 then false
      else momentumHistory[|momentumHistory| - 1] - momentumHistory[|momentumHistory| - 5] > threshold
    }

    /** A spike is a momentum delta over four points (not five) above the threshold. */
    lemma SpikeIsFourPointDelta(threshold: real)
      ensures DetectMomentumSpike(threshold) <==>
        (GetMomentumDelta(4).Some? && GetMomentumDelta(4).value > threshold)
    {
    }

    /** With momenta in [-1, 1] no threshold of 2 or more is ever crossed. */
    lemma NoSpikeAboveTwo(threshold: real)
      requires Valid() && threshold >= 2.0
      ensures !DetectMomentumSpike(threshold)
    {
      if |momentumHistory| >= 5 {
        var n := |momentumHistory|;
        EwmaBounded(leverageHistory[..n], alpha);
        EwmaBounded(leverageHistory[..n - 4], alpha);
      }
    }
  }
}
