/**
 * `get_all_game_outcomes`: from the current point score, the mass of each way the
 * game can end, the chance of reaching deuce, and the chance of passing through
 * every intermediate score. Display labels, player names and the `> 0.001`
 * display filter are not modelled; the table keeps every score the loop visits.
 */
module GameOutcomes {
  import opened Wrappers
  import opened TennisSchema
  import Reals
  import Chains
  import Forecast

  /** The two ways a game ends ("Server wins", "Receiver wins"). */
  datatype GameEnd = ServerWins | ReceiverWins

  /** The mass a distribution gives to `k`; absent keys count as 0 (`dict.get(k, 0)`). */
  function Mass(m: map<GameEnd, real>, k: GameEnd): real {
    if k in m then m[k] else 0.0
  }

  /** `acc` with `w` times every entry of `src` added to it. */
  function AddWeighted(acc: map<GameEnd, real>, src: map<GameEnd, real>, w: real): map<GameEnd, real> {
    map k | k in acc.Keys + src.Keys :: Mass(acc, k) + Reals.Scale(w, Mass(src, k))
  }

  /** One step of `game_outcomes`: the left continuation weighted by `p`, the right by `1 - p`. */
  function Combine(p: real, left: map<GameEnd, real>, right: map<GameEnd, real>): map<GameEnd, real> {
    AddWeighted(AddWeighted(map[], left, p), right, 1.0 - p)
  }

  /** Combining mixes the masses of every outcome. */
  lemma MassCombine(p: real, left: map<GameEnd, real>, right: map<GameEnd, real>, k: GameEnd)
    ensures Mass(Combine(p, left, right), k) == Reals.Mix(p, Mass(left, k), Mass(right, k))
  {
    var first := AddWeighted(map[], left, p);
    MassAddWeighted(map[], left, p, k);
    MassAddWeighted(first, right, 1.0 - p, k);
  }

  /** The mass of `k` after adding `w` times `src` into `acc`. */
  lemma MassAddWeighted(acc: map<GameEnd, real>, src: map<GameEnd, real>, w: real, k: GameEnd)
    ensures Mass(AddWeighted(acc, src, w), k) == Mass(acc, k) + Reals.Scale(w, Mass(src, k))
  {
    if k !in acc && k !in src {
      assert Reals.Scale(w, 0.0) == 0.0;
    }
  }

  /** The entries of `src` whose keys are not in `pending`. */
  function Without(src: map<GameEnd, real>, pending: set<GameEnd>): map<GameEnd, real> {
    map k | k in src && k !in pending :: src[k]
  }

  /** Adding the entry of one more key moves that key out of `pending`. */
  lemma MergeStep(acc: map<GameEnd, real>, src: map<GameEnd, real>, pending: set<GameEnd>, k: GameEnd, w: real)
    requires k in pending && pending <= src.Keys
    ensures var res := AddWeighted(acc, Without(src, pending), w);
      res[k := Mass(res, k) + Reals.Scale(w, src[k])] == AddWeighted(acc, Without(src, pending - {k}), w)
  {
    var before := Without(src, pending);
    var after := Without(src, pending - {k});
    var res := AddWeighted(acc, before, w);
    var next := res[k := Mass(res, k) + Reals.Scale(w, src[k])];
    var target := AddWeighted(acc, after, w);
    assert Mass(before, k) == 0.0;
    assert Mass(after, k) == src[k];
    assert next.Keys == target.Keys;
    forall j | j in next
      ensures next[j] == target[j]
    {
      if j != k { assert Mass(before, j) == Mass(after, j); }
    }
  }

  /**
   * The two accumulation loops of `game_outcomes`: every `(outcome, prob)` of `src` is
   * added into `acc` as `acc.get(outcome, 0) + w * prob`.
   */
  method MergeWeighted(acc: map<GameEnd, real>, src: map<GameEnd, real>, w: real) returns (res: map<GameEnd, real>)
    ensures res == AddWeighted(acc, src, w)
  {
    res := acc;
    var pending := src.Keys;
    assert AddWeighted(acc, Without(src, pending), w) == acc by {
      assert Without(src, pending) == map[];
      forall j | j in acc ensures AddWeighted(acc, map[], w)[j] == acc[j] {
        assert Mass(map[], j) == 0.0;
      }
    }
    while pending != {}
      invariant pending <= src.Keys
      invariant res == AddWeighted(acc, Without(src, pending), w)
      decreases pending
    {
      var k :| k in pending;
      MergeStep(acc, src, pending, k, w);
      res := res[k := Mass(res, k) + w * src[k]];
      pending := pending - {k};
    }
    assert Without(src, pending) == src;
  }

  /**
   * `game_outcomes`: the distribution over how the game ends from `s`-`r`, the server
   * winning each point with `p`; past 10 points the whole mass goes to the side
   * favoured on serve.
   */
  function Outcomes(p: real, s: nat, r: nat): map<GameEnd, real>
    decreases 2 * Chains.GAME_CUTOFF + 2 - s - r
  {
    if Chains.ServerWon(Chains.GAME_POINTS, s, r) then map[ServerWins := 1.0]
    else if Chains.ReceiverWon(Chains.GAME_POINTS, s, r) then map[ReceiverWins := 1.0]
    else if s > Chains.GAME_CUTOFF || r > Chains.GAME_CUTOFF then
      (if p > 0.5 then map[ServerWins := 1.0] else map[ReceiverWins := 1.0])
    else
      Combine(p, Outcomes(p, s + 1, r), Outcomes(p, s, r + 1))
  }

  /** The recursion of `game_outcomes` with its accumulation loops, computing `Outcomes`. */
  method ComputeOutcomes(p: real, s: nat, r: nat) returns (m: map<GameEnd, real>)
    ensures m == Outcomes(p, s, r)
    decreases 2 * Chains.GAME_CUTOFF + 2 - s - r
  {
    if Chains.ServerWon(Chains.GAME_POINTS, s, r) {
      return map[ServerWins := 1.0];
    }
    if Chains.ReceiverWon(Chains.GAME_POINTS, s, r) {
      return map[ReceiverWins := 1.0];
    }
    if s > Chains.GAME_CUTOFF || r > Chains.GAME_CUTOFF {
      if p > 0.5 {
        return map[ServerWins := 1.0];
      }
      return map[ReceiverWins := 1.0];
    }
    var left := ComputeOutcomes(p, s + 1, r);
    var right := ComputeOutcomes(p, s, r + 1);
    m := CombineOutcomes(p, left, right);
    OutcomesStep(p, s, r);
  }

  /** The two accumulation loops of one step: `left` weighted by `p`, then `right` by `1 - p`. */
  method CombineOutcomes(p: real, left: map<GameEnd, real>, right: map<GameEnd, real>) returns (m: map<GameEnd, real>)
    ensures m == Combine(p, left, right)
  {
    var weighted := MergeWeighted(map[], left, p);
    m := MergeWeighted(weighted, right, 1.0 - p);
  }

  /** While the game is in play, its distribution combines those after the next point. */
  lemma OutcomesStep(p: real, s: nat, r: nat)
    requires InPlay(s, r)
    ensures Outcomes(p, s, r) == Combine(p, Outcomes(p, s + 1, r), Outcomes(p, s, r + 1))
  {
  }

  /** Neither side has won the game at `s`-`r` and the recursion has not been cut off. */
  predicate InPlay(s: nat, r: nat) {
    && !Chains.ServerWon(Chains.GAME_POINTS, s, r) && !Chains.ReceiverWon(Chains.GAME_POINTS, s, r)
    && s <= Chains.GAME_CUTOFF && r <= Chains.GAME_CUTOFF
  }

  /** The mass of one outcome after a point: the two continuations mixed by `p`. */
  lemma MassStep(p: real, s: nat, r: nat, k: GameEnd)
    requires InPlay(s, r)
    ensures Mass(Outcomes(p, s, r), k) == Reals.Mix(p, Mass(Outcomes(p, s + 1, r), k), Mass(Outcomes(p, s, r + 1), k))
  {
    MassCombine(p, Outcomes(p, s + 1, r), Outcomes(p, s, r + 1), k);
  }

  /**
   * The "Server wins" mass is the game recursion whose cap is all-or-nothing: 1 when
   * the server is favoured on serve, else 0.
   */
  lemma {:induction false} ServerMassIsRace(p: real, s: nat, r: nat)
    ensures Mass(Outcomes(p, s, r), ServerWins)
      == Chains.Race(p, if p > 0.5 then 1.0 else 0.0, Chains.GAME_POINTS, Chains.GAME_CUTOFF, s, r)
    decreases 2 * Chains.GAME_CUTOFF + 2 - s - r
  {
    if InPlay(s, r) {
      ServerMassIsRace(p, s + 1, r);
      ServerMassIsRace(p, s, r + 1);
      MassStep(p, s, r, ServerWins);
    }
  }

  /** Whatever `p` is, the "Server wins" and "Receiver wins" masses sum to 1. */
  lemma {:induction false} MassesSumToOne(p: real, s: nat, r: nat)
    ensures Mass(Outcomes(p, s, r), ServerWins) + Mass(Outcomes(p, s, r), ReceiverWins) == 1.0
    decreases 2 * Chains.GAME_CUTOFF + 2 - s - r
  {
    if InPlay(s, r) {
      MassesSumToOne(p, s + 1, r);
      MassesSumToOne(p, s, r + 1);
      MassSumStep(p, s, r);
    } else {
      TerminalMassIsOne(p, s, r);
    }
  }

  /** Where the recursion stops, one outcome has all the mass. */
  lemma TerminalMassIsOne(p: real, s: nat, r: nat)
    requires !InPlay(s, r)
    ensures Mass(Outcomes(p, s, r), ServerWins) + Mass(Outcomes(p, s, r), ReceiverWins) == 1.0
  {
  }

  /** If both continuations' masses sum to 1, so do those of the score before them. */
  lemma MassSumStep(p: real, s: nat, r: nat)
    requires InPlay(s, r)
    requires Mass(Outcomes(p, s + 1, r), ServerWins) + Mass(Outcomes(p, s + 1, r), ReceiverWins) == 1.0
    requires Mass(Outcomes(p, s, r + 1), ServerWins) + Mass(Outcomes(p, s, r + 1), ReceiverWins) == 1.0
    ensures Mass(Outcomes(p, s, r), ServerWins) + Mass(Outcomes(p, s, r), ReceiverWins) == 1.0
  {
    MassStep(p, s, r, ServerWins);
    MassStep(p, s, r, ReceiverWins);
    var leftServer, rightServer := Mass(Outcomes(p, s + 1, r), ServerWins), Mass(Outcomes(p, s, r + 1), ServerWins);
    var leftReceiver, rightReceiver := Mass(Outcomes(p, s + 1, r), ReceiverWins), Mass(Outcomes(p, s, r + 1), ReceiverWins);
    Reals.MixPartition(p, leftServer, rightServer, leftReceiver, rightReceiver);
  }

  /** For `p` in [0, 1] each outcome mass is a probability. */
  lemma MassesInUnit(p: real, s: nat, r: nat)
    requires 0.0 <= p <= 1.0
    ensures 0.0 <= Mass(Outcomes(p, s, r), ServerWins) <= 1.0
    ensures 0.0 <= Mass(Outcomes(p, s, r), ReceiverWins) <= 1.0
  {
    ServerMassIsRace(p, s, r);
    Chains.RaceInUnit(p, if p > 0.5 then 1.0 else 0.0, Chains.GAME_POINTS, Chains.GAME_CUTOFF, s, r);
    MassesSumToOne(p, s, r);
  }

  /**
   * `reaches_deuce`: the chance of passing through 40-40 from `s`-`r`; 0 once either
   * side has 4 points, 1 at 40-40.
   */
  function ReachesDeuce(p: real, s: nat, r: nat): real
    decreases 2 * Chains.GAME_CUTOFF + 2 - s - r
  {
    if s >= 4 || r >= 4 then 0.0
    else if s == 3 && r == 3 then 1.0
    else if s > Chains.GAME_CUTOFF || r > Chains.GAME_CUTOFF then 0.0
    else Reals.Mix(p, ReachesDeuce(p, s + 1, r), ReachesDeuce(p, s, r + 1))
  }

  /**
   * `prob_to_score`: the chance of passing through `ts`-`tr` from `s`-`r`; 1 at the
   * target, 0 once the score is past it or the game is over.
   */
  function ProbToScore(p: real, s: nat, r: nat, ts: nat, tr: nat): real
    decreases 2 * Chains.GAME_CUTOFF + 2 - s - r
  {
    if s == ts && r == tr then 1.0
    else if s > ts || r > tr then 0.0
    else if Chains.ServerWon(Chains.GAME_POINTS, s, r) || Chains.ReceiverWon(Chains.GAME_POINTS, s, r) then 0.0
    else if s > Chains.GAME_CUTOFF || r > Chains.GAME_CUTOFF then 0.0
    else Reals.Mix(p, ProbToScore(p, s + 1, r, ts, tr), ProbToScore(p, s, r + 1, ts, tr))
  }

  /** Reaching deuce is reaching the score 40-40 (index 3-3). */
  lemma {:induction false} ReachesDeuceIsReachingFortyAll(p: real, s: nat, r: nat)
    ensures ReachesDeuce(p, s, r) == ProbToScore(p, s, r, 3, 3)
    decreases 2 * Chains.GAME_CUTOFF + 2 - s - r
  {
    if s < 4 && r < 4 && !(s == 3 && r == 3) {
      ReachesDeuceIsReachingFortyAll(p, s + 1, r);
      ReachesDeuceIsReachingFortyAll(p, s, r + 1);
    }
  }

  /** For `p` in [0, 1] reaching a score is a probability. */
  lemma {:induction false} ProbToScoreInUnit(p: real, s: nat, r: nat, ts: nat, tr: nat)
    requires 0.0 <= p <= 1.0
    ensures 0.0 <= ProbToScore(p, s, r, ts, tr) <= 1.0
    decreases 2 * Chains.GAME_CUTOFF + 2 - s - r
  {
    if !(s == ts && r == tr) && s <= ts && r <= tr
      && !Chains.ServerWon(Chains.GAME_POINTS, s, r) && !Chains.ReceiverWon(Chains.GAME_POINTS, s, r)
      && s <= Chains.GAME_CUTOFF && r <= Chains.GAME_CUTOFF
    {
      ProbToScoreInUnit(p, s + 1, r, ts, tr);
      ProbToScoreInUnit(p, s, r + 1, ts, tr);
      Reals.MixBetween(p, ProbToScore(p, s + 1, r, ts, tr), ProbToScore(p, s, r + 1, ts, tr), 0.0, 1.0);
    }
  }

  /**
   * The chance of one particular tally of `a` points won and `b` lost in some order:
   * the number of orders times `p^a (1 - p)^b`.
   */
  function PathsProb(p: real, a: nat, b: nat): real {
    (Reals.Choose(a + b, a) as real) * Reals.Pow(p, a) * Reals.Pow(1.0 - p, b)
  }

  /** Pascal's rule for path probabilities: the next point is won (from `a - 1`) or lost (from `b - 1`). */
  lemma PathsProbStep(p: real, a: nat, b: nat)
    requires a > 0 && b > 0
    ensures Reals.Mix(p, PathsProb(p, a - 1, b), PathsProb(p, a, b - 1)) == PathsProb(p, a, b)
  {
    PathsProbFactors(p, a, b);
    Reals.PascalMix(p, Reals.Choose(a - 1 + b, a - 1) as real, Reals.Choose(a + (b - 1), a) as real,
      Reals.Pow(p, a - 1), Reals.Pow(1.0 - p, b - 1));
  }

  /** The three path probabilities of Pascal's rule, over the common factors `p^(a-1)` and `(1-p)^(b-1)`. */
  lemma PathsProbFactors(p: real, a: nat, b: nat)
    requires a > 0 && b > 0
    ensures var c1, c2 := Reals.Choose(a - 1 + b, a - 1) as real, Reals.Choose(a + (b - 1), a) as real;
      var x, y := Reals.Pow(p, a - 1), Reals.Pow(1.0 - p, b - 1);
      && PathsProb(p, a - 1, b) == c1 * x * ((1.0 - p) * y)
      && PathsProb(p, a, b - 1) == c2 * (p * x) * y
      && PathsProb(p, a, b) == (c1 + c2) * (p * x) * ((1.0 - p) * y)
  {
    var q := 1.0 - p;
    assert Reals.Pow(p, a) == p * Reals.Pow(p, a - 1);
    assert Reals.Pow(q, b) == q * Reals.Pow(q, b - 1);
    assert Reals.Choose(a + b, a) == Reals.Choose(a - 1 + b, a - 1) + Reals.Choose(a + (b - 1), a);
  }

  /** With no point lost, the one path wins every point. */
  lemma PathsProbAllWon(p: real, a: nat)
    requires a > 0
    ensures Reals.Mix(p, PathsProb(p, a - 1, 0), 0.0) == PathsProb(p, a, 0)
  {
    Reals.ChooseAll(a);
    Reals.ChooseAll(a - 1);
    assert Reals.Choose(a - 1 + 0, a - 1) == 1;
    assert Reals.Pow(1.0 - p, 0) == 1.0;
    assert PathsProb(p, a - 1, 0) == Reals.Pow(p, a - 1);
    assert PathsProb(p, a, 0) == p * Reals.Pow(p, a - 1);
  }

  /** With no point won, the one path loses every point. */
  lemma PathsProbAllLost(p: real, b: nat)
    requires b > 0
    ensures Reals.Mix(p, 0.0, PathsProb(p, 0, b - 1)) == PathsProb(p, 0, b)
  {
    assert PathsProb(p, 0, b - 1) == Reals.Pow(1.0 - p, b - 1);
    assert PathsProb(p, 0, b) == (1.0 - p) * Reals.Pow(1.0 - p, b - 1);
  }

  /**
   * Before 40 on either side no game can end, so reaching `ts`-`tr` is counting
   * the orders of the remaining points: the binomial closed form.
   */
  lemma {:induction false} ProbToScoreBinomial(p: real, s: nat, r: nat, ts: nat, tr: nat)
    requires s <= ts <= 3 && r <= tr <= 3
    ensures ProbToScore(p, s, r, ts, tr) == PathsProb(p, ts - s, tr - r)
    decreases ts - s + tr - r
  {
    var a, b := ts - s, tr - r;
    if a == 0 && b == 0 {
      assert PathsProb(p, 0, 0) == 1.0;
    } else if a == 0 {
      ProbToScoreBinomial(p, s, r + 1, ts, tr);
      PathsProbAllLost(p, b);
    } else if b == 0 {
      ProbToScoreBinomial(p, s + 1, r, ts, tr);
      PathsProbAllWon(p, a);
    } else {
      ProbToScoreBinomial(p, s + 1, r, ts, tr);
      ProbToScoreBinomial(p, s, r + 1, ts, tr);
      PathsProbStep(p, a, b);
    }
  }

  /** Before deuce, reaching deuce is the binomial count of the points still to be won and lost. */
  lemma ReachesDeuceBinomial(p: real, s: nat, r: nat)
    requires s <= 3 && r <= 3
    ensures ReachesDeuce(p, s, r) == PathsProb(p, 3 - s, 3 - r)
  {
    ReachesDeuceIsReachingFortyAll(p, s, r);
    ProbToScoreBinomial(p, s, r, 3, 3);
  }

  /** Three points won and three lost, in any of their 20 orders. */
  lemma PathsProbThreeAll(p: real)
    ensures PathsProb(p, 3, 3) == 20.0 * Reals.Pow(p, 3) * Reals.Pow(1.0 - p, 3)
  {
    assert Reals.Choose(6, 3) == 20;
  }

  /** From 0-0 the chance of reaching deuce is 20 p³ (1 - p)³. */
  lemma DeuceFromLove(p: real)
    ensures ReachesDeuce(p, 0, 0) == 20.0 * Reals.Pow(p, 3) * Reals.Pow(1.0 - p, 3)
  {
    ReachesDeuceBinomial(p, 0, 0);
    PathsProbThreeAll(p);
  }

  /** The scores the display loop visits: both indices below 5, excluding 40-AD, AD-40 and AD-AD. */
  predicate Shown(ts: int, tr: int) {
    0 <= ts < 5 && 0 <= tr < 5
    && !(ts >= 4 && ts - tr < 2) && !(tr >= 4 && tr - ts < 2)
  }

  /** A point score as (server points, receiver points). */
  datatype Score = Score(server: nat, receiver: nat)

  /**
   * The display loop of `get_all_game_outcomes` (labels and filter left out): the
   * chance of reaching every shown score from `s`-`r`.
   */
  method ReachTable(p: real, s: nat, r: nat) returns (table: map<Score, real>)
    ensures forall t: Score :: t in table <==> Shown(t.server, t.receiver)
    ensures forall t :: t in table ==> table[t] == ProbToScore(p, s, r, t.server, t.receiver)
  {
    table := map[];
    var ts := 0;
    while ts < 5
      invariant 0 <= ts <= 5
      invariant forall t: Score :: t in table <==> Shown(t.server, t.receiver) && t.server < ts
      invariant forall t :: t in table ==> table[t] == ProbToScore(p, s, r, t.server, t.receiver)
    {
      var tr := 0;
      while tr < 5
        invariant 0 <= tr <= 5
        invariant forall t: Score :: t in table <==>
          Shown(t.server, t.receiver) && (t.server < ts || (t.server == ts && t.receiver < tr))
        invariant forall t :: t in table ==> table[t] == ProbToScore(p, s, r, t.server, t.receiver)
      {
        if !(ts >= 4 && ts - tr < 2) && !(tr >= 4 && tr - ts < 2) {
          table := table[Score(ts, tr) := ProbToScore(p, s, r, ts, tr)];
        }
        tr := tr + 1;
      }
      ts := ts + 1;
    }
  }

  /** What `get_all_game_outcomes` returns: the reach table and the chance of deuce. */
  datatype AllOutcomes = AllOutcomes(reach: map<Score, real>, deuce: real)

  /**
   * `get_all_game_outcomes`: `None` without a server or in a tiebreak; otherwise, from
   * the current score (server points read from A's score), the reach table and the
   * chance of deuce. The outcome distribution is computed too but not returned.
   */
  method GetAllGameOutcomes(snap: MatchSnapshot) returns (res: Option<AllOutcomes>)
    ensures res.None? <==> snap.server.None? || snap.isTiebreak
    ensures res.Some? ==>
      var p := Forecast.ServerServePointWinPct(snap).value;
      var s := Forecast.ScoreIndexOrZero(snap.pointScoreA);
      var r := Forecast.ScoreIndexOrZero(snap.pointScoreB);
      && (forall t: Score :: t in res.value.reach <==> Shown(t.server, t.receiver))
      && (forall t :: t in res.value.reach ==> res.value.reach[t] == ProbToScore(p, s, r, t.server, t.receiver))
      && res.value.deuce == ReachesDeuce(p, s, r)
  {
    var pServer := Forecast.ServerServePointWinPct(snap);
    if pServer.None? || snap.isTiebreak {
      return None;
    }
    var p := pServer.value;
    var s := Forecast.ScoreIndexOrZero(snap.pointScoreA);
    var r := Forecast.ScoreIndexOrZero(snap.pointScoreB);
    var allOutcomes := ComputeOutcomes(p, s, r);
    var pDeuce := ReachesDeuce(p, s, r);
    var table := ReachTable(p, s, r);
    res := Some(AllOutcomes(table, pDeuce));
  }
}
