/**
 * The snapshot-level entry points of the scoring engine: the server's point-win
 * probability, the score labels, and the next-point, next-game, three-game, set,
 * match and next-game-outcome forecasts built on the chains. Notes and the Monte
 * Carlo score distributions returned beside the values are not modelled.
 */
module Forecast {
  import opened Wrappers
  import opened TennisSchema
  import Blending
  import Chains

  /** A snapshot whose rates, blending weight and prior are all fractions in [0, 1]. */
  predicate InUnit(s: MatchSnapshot) {
    && RatesInUnit(s.playerA) && RatesInUnit(s.playerB)
    && 0.0 <= s.blendingWeightLive <= 1.0
    && 0.0 <= s.genericPriorServePointWin <= 1.0
  }

  /** The live serve-point-win rate of whoever serves; any server other than A reads B's stats. */
  function ServerLivePct(s: MatchSnapshot): Option<real> {
    if s.server == Some(A) then ServePointWinPct(s.playerA) else ServePointWinPct(s.playerB)
  }

  /**
   * `get_server_serve_point_win_pct`: `None` without a server; the prior when the
   * server has no live rate; otherwise the live rate blended with the prior. It is
   * exactly `blend_with_prior` applied to the server's live rate.
   */
  function ServerServePointWinPct(s: MatchSnapshot): (r: Option<real>)
    ensures r.None? <==> s.server.None?
    ensures r.Some? ==>
      r.value == Blending.BlendWithPrior(ServerLivePct(s), s.genericPriorServePointWin, s.blendingWeightLive)
    ensures r.Some? && InUnit(s) ==> 0.0 <= r.value <= 1.0
  {
    if s.server.None? then None
    else
      var live := ServerLivePct(s);
      var prior := s.genericPriorServePointWin;
      if live.None? then Some(prior)
      else
        var w := s.blendingWeightLive;
        assert InUnit(s) ==> 0.0 <= w * live.value + (1.0 - w) * prior <= 1.0 by {
          if InUnit(s) {
            if s.server == Some(A) { ServePointWinInUnit(s.playerA); } else { ServePointWinInUnit(s.playerB); }
            assert Blending.BlendWithPrior(live, prior, w) == w * live.value + (1.0 - w) * prior;
          }
        }
        Some(w * live.value + (1.0 - w) * prior)
  }

  /** `get_receiver_serve_point_win_pct`: the complement of the server's probability. */
  function ReceiverServePointWinPct(s: MatchSnapshot): (r: Option<real>)
    ensures r.None? <==> s.server.None?
    ensures r.Some? ==> r.value + ServerServePointWinPct(s).value == 1.0
    ensures r.Some? && InUnit(s) ==> 0.0 <= r.value <= 1.0
  {
    var sp := ServerServePointWinPct(s);
    if sp.None? then None else Some(1.0 - sp.value)
  }

  /** The point scores in index order. */
  const POINT_LABELS: seq<string> := ["0", "15", "30", "40", "AD"]

  /**
   * `point_score_to_index`: the position of the score in `POINT_LABELS`; `None` for
   * a missing score and for any other string.
   */
  function PointScoreToIndex(score: Option<string>): (r: Option<nat>)
    ensures r.Some? <==> score.Some? && score.value in POINT_LABELS
    ensures r.Some? ==> r.value < |POINT_LABELS| && POINT_LABELS[r.value] == score.value
  {
    if score.None? then None
    else match score.value
      case "0" => Some(0)
      case "15" => Some(1)
      case "30" => Some(2)
      case "40" => Some(3)
      case "AD" => Some(4)
      case _ => None
  }

  /** Every label maps back to its own index. */
  lemma PointLabelsRoundTrip(i: nat)
    requires i < |POINT_LABELS|
    ensures PointScoreToIndex(Some(POINT_LABELS[i])) == Some(i)
  {
  }

  /** `point_score_to_index(...) or 0`: a missing or unknown score counts as 0 points. */
  function ScoreIndexOrZero(score: Option<string>): (i: nat)
    ensures i <= 4
    ensures score.Some? && score.value in POINT_LABELS ==> POINT_LABELS[i] == score.value
    ensures !(score.Some? && score.value in POINT_LABELS) ==> i == 0
  {
    PointScoreToIndex(score).GetOr(0)
  }

  /** A pair of complementary probabilities, for the two sides of a point or a game. */
  datatype Split = Split(first: real, second: real)

  /** `next_point_probability`: the server's and the receiver's chance of the next point. */
  function NextPointProbability(s: MatchSnapshot): (r: Option<Split>)
    ensures r.None? <==> s.server.None?
    ensures r.Some? ==>
      r.value.first == ServerServePointWinPct(s).value
      && r.value.second == ReceiverServePointWinPct(s).value
      && r.value.first + r.value.second == 1.0
  {
    var sp := ServerServePointWinPct(s);
    if sp.None? then None else Some(Split(sp.value, 1.0 - sp.value))
  }

  /**
   * `next_game_probability` (without its simulated score distribution): `None` without
   * a server or in a tiebreak; otherwise the current game's hold and break chances,
   * the server's points always read from player A's score.
   */
  function NextGameProbability(s: MatchSnapshot): (r: Option<Split>)
    ensures r.None? <==> s.server.None? || s.isTiebreak
    ensures r.Some? ==>
      var p := ServerServePointWinPct(s).value;
      r.value.first == Chains.CurrentGameHold(p, ScoreIndexOrZero(s.pointScoreA), ScoreIndexOrZero(s.pointScoreB))
      && r.value.first + r.value.second == 1.0
    ensures r.Some? && InUnit(s) ==> 0.0 <= r.value.first <= 1.0 && 0.0 <= r.value.second <= 1.0
  {
    var sp := ServerServePointWinPct(s);
    if sp.None? || s.isTiebreak then None
    else
      var sIdx := ScoreIndexOrZero(s.pointScoreA);
      var rIdx := ScoreIndexOrZero(s.pointScoreB);
      var hold := Chains.CurrentGameHold(sp.value, sIdx, rIdx);
      assert InUnit(s) ==> 0.0 <= hold <= 1.0 by {
        if InUnit(s) { Chains.GameHoldsInUnit(sp.value, sIdx, rIdx); }
      }
      Some(Split(hold, 1.0 - hold))
  }

  /** The stats of `player`. */
  function StatsOf(s: MatchSnapshot, player: Player): PlayerStats {
    if player == A then s.playerA else s.playerB
  }

  /**
   * `_hold_probability_for_player`: the hold probability from 0-0 on the player's
   * unblended serve rate, `None` when the player has no rate.
   */
  function HoldProbabilityForPlayer(s: MatchSnapshot, player: Player): (r: Option<real>)
    ensures r.None? <==> ServePointWinPct(StatsOf(s, player)).None?
    ensures r.Some? ==> r.value == Chains.PlayerHold(ServePointWinPct(StatsOf(s, player)).value)
    ensures r.Some? && RatesInUnit(StatsOf(s, player)) ==> 0.0 <= r.value <= 1.0
  {
    var ps := StatsOf(s, player);
    var pServe := ServePointWinPct(ps);
    if pServe.None? then None
    else
      assert RatesInUnit(ps) ==> 0.0 <= Chains.PlayerHold(pServe.value) <= 1.0 by {
        if RatesInUnit(ps) {
          ServePointWinInUnit(ps);
          Chains.GameHoldsInUnit(pServe.value, 0, 0);
        }
      }
      Some(Chains.PlayerHold(pServe.value))
  }

  /** Who serves game `k` (counting from 0) when `first` serves game 0. */
  function ServerOfGame(first: Player, k: nat): Player {
    if k % 2 == 0 then first else first.Other()
  }

  /** A's and B's chances of one game when `server` serves it, A holding with `ha` and B with `hb`. */
  function GameChances(server: Player, ha: real, hb: real): (g: Split)
    ensures g.first + g.second == 1.0
    ensures server == A ==> g.first == ha
    ensures server == B ==> g.second == hb
  {
    if server == A then Split(ha, 1.0 - ha) else Split(1.0 - hb, hb)
  }

  /**
   * `next_three_games_forecast` (without its simulated set scores): `None` without a
   * server or without both hold probabilities; otherwise A's and B's chances of each
   * of the next three games, the serve passing to the other player after every game.
   */
  method NextThreeGamesForecast(s: MatchSnapshot) returns (f: Option<seq<Split>>)
    ensures f.None? <==>
      s.server.None? || HoldProbabilityForPlayer(s, A).None? || HoldProbabilityForPlayer(s, B).None?
    ensures f.Some? ==>
      var ha := HoldProbabilityForPlayer(s, A).value;
      var hb := HoldProbabilityForPlayer(s, B).value;
      |f.value| == 3
      && forall k :: 0 <= k < 3 ==> f.value[k] == GameChances(ServerOfGame(s.server.value, k), ha, hb)
  {
    if s.server.None? {
      return None;
    }
    var pHoldA := HoldProbabilityForPlayer(s, A);
    var pHoldB := HoldProbabilityForPlayer(s, B);
    if pHoldA.None? || pHoldB.None? {
      return None;
    }
    var games := AlternatingGames(s.server.value, pHoldA.value, pHoldB.value);
    f := Some(games);
  }

  /**
   * The loop of `next_three_games_forecast`: three games from `first` serving, each
   * giving the server's hold probability to the server; the serve then changes hands.
   */
  method AlternatingGames(first: Player, ha: real, hb: real) returns (games: seq<Split>)
    ensures |games| == 3
    ensures forall k :: 0 <= k < 3 ==> games[k] == GameChances(ServerOfGame(first, k), ha, hb)
  {
    games := [];
    var server := first;
    var gameNum := 1;
    while gameNum < 4
      invariant 1 <= gameNum <= 4 && |games| == gameNum - 1
      invariant server == ServerOfGame(first, gameNum - 1)
      invariant forall k :: 0 <= k < |games| ==> games[k] == GameChances(ServerOfGame(first, k), ha, hb)
    {
      if server == A {
        games := games + [Split(ha, 1.0 - ha)];
        server := B;
      } else {
        games := games + [Split(1.0 - hb, hb)];
        server := A;
      }
      gameNum := gameNum + 1;
    }
  }

  /** In the three-game forecast the server of consecutive games differs, and the first is the current one. */
  lemma ServeAlternatesAcrossGames(first: Player, k: nat)
    ensures ServerOfGame(first, 0) == first
    ensures ServerOfGame(first, k + 1) == ServerOfGame(first, k).Other()
  {
  }

  /**
   * `set_win_probability`: `None` without both games counts or both hold probabilities;
   * otherwise the set chain from the current games, the first server read off the
   * parity of the games played.
   */
  function SetWinProbability(s: MatchSnapshot): (r: Option<real>)
    ensures r.None? <==>
      (s.gamesInSetA.None? || s.gamesInSetB.None?
       || HoldProbabilityForPlayer(s, A).None? || HoldProbabilityForPlayer(s, B).None?)
    ensures r.Some? ==> r.value == Chains.SetByParity(
      HoldProbabilityForPlayer(s, A).value, HoldProbabilityForPlayer(s, B).value,
      s.gamesInSetA.value, s.gamesInSetB.value)
    ensures r.Some? && InUnit(s) ==> 0.0 <= r.value <= 1.0
  {
    if s.gamesInSetA.None? || s.gamesInSetB.None? then None
    else
      var pHoldA := HoldProbabilityForPlayer(s, A);
      var pHoldB := HoldProbabilityForPlayer(s, B);
      if pHoldA.None? || pHoldB.None? then None
      else
        var ga, gb := s.gamesInSetA.value, s.gamesInSetB.value;
        var nextServer := Chains.ServerAfter(ga + gb);
        var p := Chains.SetProb(pHoldA.value, pHoldB.value, ga, gb, nextServer);
        assert p == Chains.SetByParity(pHoldA.value, pHoldB.value, ga, gb) by {
          Chains.SetServerFollowsParity(pHoldA.value, pHoldB.value, ga, gb);
        }
        assert InUnit(s) ==> 0.0 <= p <= 1.0 by {
          if InUnit(s) { Chains.SetProbInUnit(pHoldA.value, pHoldB.value, ga, gb, nextServer); }
        }
        Some(p)
  }

  /**
   * `match_win_probability`: `None` without both set counts or a set probability;
   * otherwise the match chain that reuses the current set probability for every set.
   */
  function MatchWinProbability(s: MatchSnapshot): (r: Option<real>)
    ensures r.None? <==> s.setsWonA.None? || s.setsWonB.None? || SetWinProbability(s).None?
    ensures r.Some? ==> r.value == Chains.MatchProb(
      SetWinProbability(s).value, Chains.SetsToWin(s.bestOfSets), s.setsWonA.value, s.setsWonB.value)
    ensures r.Some? && InUnit(s) ==> 0.0 <= r.value <= 1.0
    ensures r.Some? && s.setsWonA.value >= Chains.SetsToWin(s.bestOfSets) ==> r.value == 1.0
  {
    if s.setsWonA.None? || s.setsWonB.None? then None
    else
      var pSet := SetWinProbability(s);
      if pSet.None? then None
      else
        var n := Chains.SetsToWin(s.bestOfSets);
        var p := Chains.MatchProb(pSet.value, n, s.setsWonA.value, s.setsWonB.value);
        assert InUnit(s) ==> 0.0 <= p <= 1.0 by {
          if InUnit(s) { Chains.MatchProbInUnit(pSet.value, n, s.setsWonA.value, s.setsWonB.value); }
        }
        Some(p)
  }

  /**
   * `forecast_next_game_outcomes` (values only): `None` when the current game has no
   * forecast or the player serving next has no live rate; otherwise the hold and
   * break chances of the current game, whoever serves next.
   */
  function ForecastNextGameOutcomes(s: MatchSnapshot): (r: Option<Split>)
    ensures r.Some? ==> NextGameProbability(s).Some? && r == NextGameProbability(s)
    ensures r.None? <==>
      (NextGameProbability(s).None?
       || ServePointWinPct(StatsOf(s, if s.server == Some(A) then B else A)).None?)
  {
    var current := NextGameProbability(s);
    if current.None? then None
    else
      var nextServer := if s.server == Some(A) then B else A;
      if ServePointWinPct(StatsOf(s, nextServer)).None? then None
      else current
  }
}
