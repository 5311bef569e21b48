/**
 * The Markov-chain evaluators of the scoring engine: the point race that a game
 * and a tiebreak both are, the set chain over games with alternating serve, and
 * the match chain over sets. Each recursion keeps the source's own depth cap,
 * which is also its termination measure; the memo dictionaries are caches and
 * are not modelled.
 */
module Chains {
  import opened TennisSchema
  import Reals

  const GAME_POINTS: nat := 4       // a game is first to 4 points with a 2-point lead
  const GAME_CUTOFF: nat := 10      // `s_pts > 10 or r_pts > 10` stops the game recursion
  const TIEBREAK_POINTS: nat := 7   // a tiebreak is first to 7 points with a 2-point lead
  const TIEBREAK_CUTOFF: nat := 20  // `pts_a > 20 or pts_b > 20` stops the tiebreak recursion
  const SET_GAMES: int := 6         // a set is first to 6 games with a 2-game lead
  const SET_CUTOFF: int := 12       // `g_a > 12 or g_b > 12` stops the set recursion

  /** The server has won a race to `target` with a lead of two. */
  predicate ServerWon(target: int, s: int, r: int) {
    s >= target && s - r >= 2
  }

  /** The receiver has won a race to `target` with a lead of two. */
  predicate ReceiverWon(target: int, s: int, r: int) {
    r >= target && r - s >= 2
  }

  /**
   * Probability that the side winning each point with probability `p` wins a race
   * to `target` points with a 2-point lead, from `s` points to `r`. Past `cutoff`
   * points on either side the recursion stops and answers `cap`.
   * This is `game_prob` (target 4, cutoff 10) and `tb_prob` (target 7, cutoff 20).
   */
  function Race(p: real, cap: real, target: nat, cutoff: nat, s: nat, r: nat): real
    decreases 2 * cutoff + 2 - s - r
  {
    if ServerWon(target, s, r) then 1.0
    else if ReceiverWon(target, s, r) then 0.0
    else if s > cutoff || r > cutoff then cap
    else Reals.Mix(p, Race(p, cap, target, cutoff, s + 1, r), Race(p, cap, target, cutoff, s, r + 1))
  }

  /** A race probability is a probability, 1 once the server has won and 0 once the receiver has. */
  lemma {:induction false} RaceInUnit(p: real, cap: real, target: nat, cutoff: nat, s: nat, r: nat)
    requires 0.0 <= p <= 1.0 && 0.0 <= cap <= 1.0
    ensures 0.0 <= Race(p, cap, target, cutoff, s, r) <= 1.0
    ensures ServerWon(target, s, r) ==> Race(p, cap, target, cutoff, s, r) == 1.0
    ensures ReceiverWon(target, s, r) ==> Race(p, cap, target, cutoff, s, r) == 0.0
    decreases 2 * cutoff + 2 - s - r
  {
    if !ServerWon(target, s, r) && !ReceiverWon(target, s, r) && s <= cutoff && r <= cutoff {
      RaceInUnit(p, cap, target, cutoff, s + 1, r);
      RaceInUnit(p, cap, target, cutoff, s, r + 1);
      Reals.MixBetween(p, Race(p, cap, target, cutoff, s + 1, r), Race(p, cap, target, cutoff, s, r + 1), 0.0, 1.0);
    }
  }

  /**
   * Seen from the other side the race is the same race: the receiver's chance,
   * computed with point probability `1 - p` and cap `1 - cap` from the swapped
   * score, is exactly the complement of the server's.
   */
  lemma {:induction false} RaceSwap(p: real, cap: real, target: nat, cutoff: nat, s: nat, r: nat)
    ensures Race(p, cap, target, cutoff, s, r) + Race(1.0 - p, 1.0 - cap, target, cutoff, r, s) == 1.0
    decreases 2 * cutoff + 2 - s - r
  {
    if !ServerWon(target, s, r) && !ReceiverWon(target, s, r) && s <= cutoff && r <= cutoff {
      RaceSwap(p, cap, target, cutoff, s + 1, r);
      RaceSwap(p, cap, target, cutoff, s, r + 1);
      Reals.MixComplement(p,
        Race(p, cap, target, cutoff, s + 1, r), Race(p, cap, target, cutoff, s, r + 1),
        Race(1.0 - p, 1.0 - cap, target, cutoff, r, s + 1), Race(1.0 - p, 1.0 - cap, target, cutoff, r + 1, s));
    }
  }

  /** At level terms (a fair point, a fair cap, a level score) the race is a coin toss. */
  lemma RaceEven(p: real, cap: real, target: nat, cutoff: nat, s: nat)
    requires p == 0.5 && cap == 0.5
    ensures Race(p, cap, target, cutoff, s, s) == 0.5
  {
    RaceSwap(p, cap, target, cutoff, s, s);
  }

  /** A side that wins every point wins the race unless it has already lost it. */
  lemma {:induction false} RaceCertain(p: real, cap: real, target: nat, cutoff: nat, s: nat, r: nat)
    requires p == 1.0 && cap == 1.0 && !ReceiverWon(target, s, r)
    ensures Race(p, cap, target, cutoff, s, r) == 1.0
    decreases 2 * cutoff + 2 - s - r
  {
    if !ServerWon(target, s, r) && s <= cutoff && r <= cutoff {
      RaceCertain(p, cap, target, cutoff, s + 1, r);
    }
  }

  /**
   * A side that loses every point loses the race unless it has already won it,
   * provided the opponent can close it out before the cap is reached.
   */
  lemma {:induction false} RaceHopeless(p: real, cap: real, target: nat, cutoff: nat, s: nat, r: nat)
    requires p == 0.0 && !ServerWon(target, s, r) && s < cutoff && target <= cutoff + 1
    ensures Race(p, cap, target, cutoff, s, r) == 0.0
    decreases 2 * cutoff + 2 - s - r
  {
    if !ReceiverWon(target, s, r) {
      assert r <= cutoff;
      RaceHopeless(p, cap, target, cutoff, s, r + 1);
    }
  }

  /**
   * One point more for the server never hurts it: from any score the chance after the
   * server takes the next point is at least the chance after the receiver does,
   * provided the target can be reached before the cutoff.
   */
  lemma {:induction false} RaceLead(p: real, cap: real, target: nat, cutoff: nat, s: nat, r: nat)
    requires 0.0 <= p <= 1.0 && 0.0 <= cap <= 1.0 && target <= cutoff
    ensures Race(p, cap, target, cutoff, s, r + 1) <= Race(p, cap, target, cutoff, s + 1, r)
    decreases 2 * cutoff + 2 - s - r
  {
    RaceInUnit(p, cap, target, cutoff, s, r + 1);
    RaceInUnit(p, cap, target, cutoff, s + 1, r);
    if InRace(target, cutoff, s, r + 1) && InRace(target, cutoff, s + 1, r) {
      RaceLead(p, cap, target, cutoff, s, r + 1);
      RaceLead(p, cap, target, cutoff, s + 1, r);
      var level := Race(p, cap, target, cutoff, s + 1, r + 1);
      var behind := Race(p, cap, target, cutoff, s, r + 2);
      var ahead := Race(p, cap, target, cutoff, s + 2, r);
      Reals.MixBetween(p, level, behind, behind, level);
      Reals.MixBetween(p, ahead, level, level, ahead);
    }
  }

  /** The race is still being played at `s`-`r`: nobody has won and the cutoff is not passed. */
  predicate InRace(target: nat, cutoff: nat, s: nat, r: nat) {
    !ServerWon(target, s, r) && !ReceiverWon(target, s, r) && s <= cutoff && r <= cutoff
  }

  /**
   * A better point probability and a higher cap never lower the server's chance, when
   * the target can be reached before the cutoff.
   */
  lemma {:induction false} RaceMonotone(p1: real, p2: real, cap1: real, cap2: real, target: nat, cutoff: nat, s: nat, r: nat)
    requires 0.0 <= p1 <= p2 <= 1.0 && 0.0 <= cap1 <= cap2 <= 1.0 && target <= cutoff
    ensures Race(p1, cap1, target, cutoff, s, r) <= Race(p2, cap2, target, cutoff, s, r)
    decreases 2 * cutoff + 2 - s - r
  {
    if InRace(target, cutoff, s, r) {
      RaceMonotone(p1, p2, cap1, cap2, target, cutoff, s + 1, r);
      RaceMonotone(p1, p2, cap1, cap2, target, cutoff, s, r + 1);
      RaceLead(p2, cap2, target, cutoff, s, r);
      Reals.MixMono(p1, p2,
        Race(p1, cap1, target, cutoff, s + 1, r), Race(p2, cap2, target, cutoff, s + 1, r),
        Race(p1, cap1, target, cutoff, s, r + 1), Race(p2, cap2, target, cutoff, s, r + 1));
    }
  }

  /** `p if p > 0.5 else (1 - p)`: the cap `next_game_probability` and the set recursion use. */
  function LeaderCap(p: real): (c: real)
    ensures c >= 0.5 && (c == p || c == 1.0 - p)
    ensures 0.0 <= p <= 1.0 ==> c <= 1.0
  {
    if p > 0.5 then p else 1.0 - p
  }

  /**
   * The hold probability of the current game as `next_game_probability` computes it,
   * from server points `s` and receiver points `r`.
   */
  function CurrentGameHold(p: real, s: nat, r: nat): real {
    Race(p, LeaderCap(p), GAME_POINTS, GAME_CUTOFF, s, r)
  }

  /** The hold probability from 0-0 as `_hold_probability_for_player` computes it (cap `p`). */
  function PlayerHold(p: real): real {
    Race(p, p, GAME_POINTS, GAME_CUTOFF, 0, 0)
  }

  /** Both game evaluators give a probability, and the hold and break of the current game sum to 1. */
  lemma GameHoldsInUnit(p: real, s: nat, r: nat)
    requires 0.0 <= p <= 1.0
    ensures 0.0 <= CurrentGameHold(p, s, r) <= 1.0
    ensures 0.0 <= 1.0 - CurrentGameHold(p, s, r) <= 1.0
    ensures 0.0 <= PlayerHold(p) <= 1.0
  {
    RaceInUnit(p, LeaderCap(p), GAME_POINTS, GAME_CUTOFF, s, r);
    RaceInUnit(p, p, GAME_POINTS, GAME_CUTOFF, 0, 0);
  }

  /** A server who wins every point holds the current game unless already broken. */
  lemma GameHoldCertain(p: real, s: nat, r: nat)
    requires p == 1.0 && !ReceiverWon(GAME_POINTS, s, r)
    ensures CurrentGameHold(p, s, r) == 1.0
  {
    RaceCertain(p, LeaderCap(p), GAME_POINTS, GAME_CUTOFF, s, r);
  }

  /** A server who wins no point is broken in the current game unless it is already held. */
  lemma GameHoldHopeless(p: real, s: nat, r: nat)
    requires p == 0.0 && !ServerWon(GAME_POINTS, s, r) && s <= GAME_POINTS
    ensures CurrentGameHold(p, s, r) == 0.0
  {
    RaceHopeless(p, LeaderCap(p), GAME_POINTS, GAME_CUTOFF, s, r);
  }

  /** An even server at a level score holds the current game half the time. */
  lemma GameHoldEven(p: real, s: nat)
    requires p == 0.5
    ensures CurrentGameHold(p, s, s) == 0.5
  {
    RaceEven(p, LeaderCap(p), GAME_POINTS, GAME_CUTOFF, s);
  }

  /**
   * The two game evaluators differ only in the value past the depth cap, so for a
   * server favoured on serve they agree from 0-0.
   */
  lemma PlayerHoldIsCurrentGameFromLove(p: real)
    requires p > 0.5
    ensures PlayerHold(p) == CurrentGameHold(p, 0, 0)
  {
  }

  /**
   * Below p = 1/2 the two game chains part at the cutoff: from 10-10 every next point
   * reaches it, and the current-game chain answers 1 - p where the from-love chain
   * answers p.
   */
  lemma CapsDisagreeBelowHalf(p: real)
    requires p < 0.5
    ensures CurrentGameHold(p, GAME_CUTOFF, GAME_CUTOFF) == 1.0 - p
    ensures Race(p, p, GAME_POINTS, GAME_CUTOFF, GAME_CUTOFF, GAME_CUTOFF) == p
    ensures CurrentGameHold(p, GAME_CUTOFF, GAME_CUTOFF) != Race(p, p, GAME_POINTS, GAME_CUTOFF, GAME_CUTOFF, GAME_CUTOFF)
  {
    assert Reals.Mix(p, 1.0 - p, 1.0 - p) == 1.0 - p;
    assert Reals.Mix(p, p, p) == p;
  }

  /** `hold_probability` grows with the server's point probability. */
  lemma PlayerHoldMonotone(p1: real, p2: real)
    requires 0.0 <= p1 <= p2 <= 1.0
    ensures PlayerHold(p1) <= PlayerHold(p2)
  {
    RaceMonotone(p1, p2, p1, p2, GAME_POINTS, GAME_CUTOFF, 0, 0);
  }

  /**
   * From p = 1/2 up the current-game chain grows with the point probability too, since
   * its cap is then `p` itself.
   */
  lemma CurrentGameHoldMonotoneAboveHalf(p1: real, p2: real, s: nat, r: nat)
    requires 0.5 <= p1 <= p2 <= 1.0
    ensures CurrentGameHold(p1, s, r) <= CurrentGameHold(p2, s, r)
  {
    RaceMonotone(p1, p2, LeaderCap(p1), LeaderCap(p2), GAME_POINTS, GAME_CUTOFF, s, r);
  }

  /**
   * Below p = 1/2 it does not: the cap `max(p, 1 - p)` falls as p rises, so from 10-10
   * a server winning 20% of points is given a better chance than one winning 40%.
   */
  lemma CurrentGameHoldNotMonotone(p1: real, p2: real)
    requires p1 == 0.2 && p2 == 0.4
    ensures CurrentGameHold(p1, GAME_CUTOFF, GAME_CUTOFF) == 0.8
    ensures CurrentGameHold(p2, GAME_CUTOFF, GAME_CUTOFF) == 0.6
    ensures p1 < p2 && CurrentGameHold(p2, GAME_CUTOFF, GAME_CUTOFF) < CurrentGameHold(p1, GAME_CUTOFF, GAME_CUTOFF)
  {
    CapsDisagreeBelowHalf(p1);
    CapsDisagreeBelowHalf(p2);
  }

  /**
   * `_tiebreak_win_prob`: A's chance in a first-to-7 tiebreak, treating A's game
   * hold probability as A's point probability on every point; `pHoldB` is unused.
   */
  function TiebreakWinProb(pHoldA: real, pHoldB: real): real {
    Race(pHoldA, pHoldA, TIEBREAK_POINTS, TIEBREAK_CUTOFF, 0, 0)
  }

  /** For a hold probability in [0, 1] the tiebreak probability is a probability. */
  lemma TiebreakInUnit(pHoldA: real, pHoldB: real)
    requires 0.0 <= pHoldA <= 1.0
    ensures 0.0 <= TiebreakWinProb(pHoldA, pHoldB) <= 1.0
  {
    RaceInUnit(pHoldA, pHoldA, TIEBREAK_POINTS, TIEBREAK_CUTOFF, 0, 0);
  }

  /** An even hold probability gives an even tiebreak, whatever B's hold probability. */
  lemma TiebreakEven(pHoldA: real, pHoldB: real)
    requires pHoldA == 0.5
    ensures TiebreakWinProb(pHoldA, pHoldB) == 0.5
  {
    RaceEven(pHoldA, pHoldA, TIEBREAK_POINTS, TIEBREAK_CUTOFF, 0);
  }

  /** A's tiebreak chance grows with A's hold probability, whatever B's. */
  lemma TiebreakMonotone(ha1: real, ha2: real, hb1: real, hb2: real)
    requires 0.0 <= ha1 <= ha2 <= 1.0
    ensures TiebreakWinProb(ha1, hb1) <= TiebreakWinProb(ha2, hb2)
  {
    RaceMonotone(ha1, ha2, ha1, ha2, TIEBREAK_POINTS, TIEBREAK_CUTOFF, 0, 0);
  }

  /**
   * `set_prob`: probability that A wins the set from games `ga`-`gb` with `serving`
   * about to serve, A holding with `ha` and B with `hb`; the server changes every game.
   */
  function SetProb(ha: real, hb: real, ga: int, gb: int, serving: Player): real
    decreases 2 * SET_CUTOFF + 2 - ga - gb
  {
    if ServerWon(SET_GAMES, ga, gb) then 1.0
    else if ReceiverWon(SET_GAMES, ga, gb) then 0.0
    else if ga == SET_GAMES && gb == SET_GAMES then TiebreakWinProb(ha, hb)
    else if ga > SET_CUTOFF || gb > SET_CUTOFF then LeaderCap(ha)
    else if serving == A then
      Reals.Mix(ha, SetProb(ha, hb, ga + 1, gb, B), SetProb(ha, hb, ga, gb + 1, B))
    else
      Reals.Mix(hb, SetProb(ha, hb, ga, gb + 1, A), SetProb(ha, hb, ga + 1, gb, A))
  }

  /**
   * For hold probabilities in [0, 1] the set probability is a probability; it is 1 once
   * A has 6 games and a 2-game lead, 0 once B has, and the tiebreak value at 6-6.
   */
  lemma {:induction false} SetProbInUnit(ha: real, hb: real, ga: int, gb: int, serving: Player)
    requires 0.0 <= ha <= 1.0 && 0.0 <= hb <= 1.0
    ensures 0.0 <= SetProb(ha, hb, ga, gb, serving) <= 1.0
    ensures ServerWon(SET_GAMES, ga, gb) ==> SetProb(ha, hb, ga, gb, serving) == 1.0
    ensures ReceiverWon(SET_GAMES, ga, gb) ==> SetProb(ha, hb, ga, gb, serving) == 0.0
    ensures ga == 6 && gb == 6 ==> SetProb(ha, hb, ga, gb, serving) == TiebreakWinProb(ha, hb)
    decreases 2 * SET_CUTOFF + 2 - ga - gb
  {
    if ServerWon(SET_GAMES, ga, gb) || ReceiverWon(SET_GAMES, ga, gb) {
    } else if ga == SET_GAMES && gb == SET_GAMES {
      TiebreakInUnit(ha, hb);
    } else if ga > SET_CUTOFF || gb > SET_CUTOFF {
    } else {
      SetProbInUnit(ha, hb, ga + 1, gb, serving.Other());
      SetProbInUnit(ha, hb, ga, gb + 1, serving.Other());
      var up := SetProb(ha, hb, ga + 1, gb, serving.Other());
      var down := SetProb(ha, hb, ga, gb + 1, serving.Other());
      if serving == A {
        Reals.MixBetween(ha, up, down, 0.0, 1.0);
      } else {
        Reals.MixBetween(hb, down, up, 0.0, 1.0);
      }
    }
  }

  /** The set is still being played at `ga`-`gb`: no winner, not 6-6, no side past 12 games. */
  predicate InSet(ga: int, gb: int) {
    !ServerWon(SET_GAMES, ga, gb) && !ReceiverWon(SET_GAMES, ga, gb)
      && !(ga == SET_GAMES && gb == SET_GAMES) && ga <= SET_CUTOFF && gb <= SET_CUTOFF
  }

  /** One game of the set chain: the server's hold probability weighs A's two next scores. */
  lemma SetStep(ha: real, hb: real, ga: int, gb: int, serving: Player)
    requires InSet(ga, gb)
    ensures serving == A ==> (SetProb(ha, hb, ga, gb, serving)
      == Reals.Mix(ha, SetProb(ha, hb, ga + 1, gb, B), SetProb(ha, hb, ga, gb + 1, B)))
    ensures serving == B ==> (SetProb(ha, hb, ga, gb, serving)
      == Reals.Mix(hb, SetProb(ha, hb, ga, gb + 1, A), SetProb(ha, hb, ga + 1, gb, A)))
  {
  }

  /**
   * Taking the next game never hurts A: from a score with neither side past 6 games
   * (other than 6-6, which is settled by the tiebreak) A's chance after winning the
   * next game is at least its chance after losing it, whoever serves next.
   */
  lemma {:induction false} SetLead(ha: real, hb: real, ga: int, gb: int, serving: Player)
    requires 0.0 <= ha <= 1.0 && 0.0 <= hb <= 1.0
    requires ga <= SET_GAMES && gb <= SET_GAMES && !(ga == SET_GAMES && gb == SET_GAMES)
    ensures SetProb(ha, hb, ga, gb + 1, serving) <= SetProb(ha, hb, ga + 1, gb, serving)
    decreases 2 * SET_GAMES - ga - gb
  {
    SetProbInUnit(ha, hb, ga, gb + 1, serving);
    SetProbInUnit(ha, hb, ga + 1, gb, serving);
    TiebreakInUnit(ha, hb);
    if InSet(ga, gb + 1) && InSet(ga + 1, gb) {
      var next := serving.Other();
      SetLead(ha, hb, ga, gb + 1, next);
      SetLead(ha, hb, ga + 1, gb, next);
      SetStep(ha, hb, ga, gb + 1, serving);
      SetStep(ha, hb, ga + 1, gb, serving);
      var level := SetProb(ha, hb, ga + 1, gb + 1, next);
      var behind := SetProb(ha, hb, ga, gb + 2, next);
      var ahead := SetProb(ha, hb, ga + 2, gb, next);
      if serving == A {
        Reals.MixBetween(ha, level, behind, behind, level);
        Reals.MixBetween(ha, ahead, level, level, ahead);
      } else {
        Reals.MixBetween(hb, behind, level, behind, level);
        Reals.MixBetween(hb, level, ahead, level, ahead);
      }
    }
  }

  /**
   * From a score with neither side past 6 games, A's set chance grows with A's hold
   * probability and falls as B's grows. (Past 12 games the cap `max(ha, 1 - ha)` breaks
   * this, as it does for the current game.)
   */
  lemma {:induction false} SetMonotone(ha1: real, ha2: real, hb1: real, hb2: real, ga: int, gb: int, serving: Player)
    requires 0.0 <= ha1 <= ha2 <= 1.0 && 0.0 <= hb2 <= hb1 <= 1.0
    requires ga <= SET_GAMES && gb <= SET_GAMES
    ensures SetProb(ha1, hb1, ga, gb, serving) <= SetProb(ha2, hb2, ga, gb, serving)
    decreases 2 * SET_GAMES + 2 - ga - gb
  {
    if ga == SET_GAMES && gb == SET_GAMES {
      TiebreakMonotone(ha1, ha2, hb1, hb2);
    } else if InSet(ga, gb) {
      var next := serving.Other();
      var up1 := SetProb(ha1, hb1, ga + 1, gb, next);
      var up2 := SetProb(ha2, hb2, ga + 1, gb, next);
      var down1 := SetProb(ha1, hb1, ga, gb + 1, next);
      var down2 := SetProb(ha2, hb2, ga, gb + 1, next);
      assert up1 <= up2 by {
        if ga + 1 <= SET_GAMES { SetMonotone(ha1, ha2, hb1, hb2, ga + 1, gb, next); }
      }
      assert down1 <= down2 by {
        if gb + 1 <= SET_GAMES { SetMonotone(ha1, ha2, hb1, hb2, ga, gb + 1, next); }
      }
      SetLead(ha2, hb2, ga, gb, next);
      SetStep(ha1, hb1, ga, gb, serving);
      SetStep(ha2, hb2, ga, gb, serving);
      ServeMixMono(serving, ha1, ha2, hb1, hb2, up1, up2, down1, down2);
    }
  }

  /**
   * Past the game cap the set chain answers `max(ha, 1 - ha)`, so from 12-12, where
   * either next game passes the cap, a weaker holder (20%) is given a better set chance
   * than a stronger one (40%): monotonicity holds only below the cap.
   */
  lemma SetNotMonotonePastCap(ha1: real, ha2: real, hb: real, serving: Player)
    requires ha1 == 0.2 && ha2 == 0.4
    ensures SetProb(ha1, hb, SET_CUTOFF, SET_CUTOFF, serving) == 0.8
    ensures SetProb(ha2, hb, SET_CUTOFF, SET_CUTOFF, serving) == 0.6
    ensures ha1 < ha2 && SetProb(ha2, hb, SET_CUTOFF, SET_CUTOFF, serving) < SetProb(ha1, hb, SET_CUTOFF, SET_CUTOFF, serving)
  {
    assert Reals.Mix(ha1, 0.8, 0.8) == 0.8 && Reals.Mix(hb, 0.8, 0.8) == 0.8;
    assert Reals.Mix(ha2, 0.6, 0.6) == 0.6 && Reals.Mix(hb, 0.6, 0.6) == 0.6;
  }

  /**
   * The arithmetic of one set step: with the first branch the larger, the server's
   * mixture grows with A's hold probability and with both branches, and falls as B's
   * hold probability grows.
   */
  lemma ServeMixMono(serving: Player, ha1: real, ha2: real, hb1: real, hb2: real,
                     up1: real, up2: real, down1: real, down2: real)
    requires 0.0 <= ha1 <= ha2 <= 1.0 && 0.0 <= hb2 <= hb1 <= 1.0
    requires up1 <= up2 && down1 <= down2 && down2 <= up2
    ensures serving == A ==> Reals.Mix(ha1, up1, down1) <= Reals.Mix(ha2, up2, down2)
    ensures serving == B ==> Reals.Mix(hb1, down1, up1) <= Reals.Mix(hb2, down2, up2)
  {
    Reals.MixMono(ha1, ha2, up1, up2, down1, down2);
    Reals.MixFlip(hb1, up1, down1);
    Reals.MixFlip(hb2, up2, down2);
    Reals.MixMono(1.0 - hb1, 1.0 - hb2, up1, up2, down1, down2);
  }

  /** Who serves after `games` games of the set when A served the first: A after an even number. */
  function ServerAfter(games: int): Player {
    if games % 2 == 0 then A else B
  }

  /** The server changes with every game played. */
  lemma ServerAlternates(games: int)
    ensures ServerAfter(games + 1) == ServerAfter(games).Other()
  {
  }

  /**
   * The set chain with the server read off the parity of the games played at every
   * state instead of being carried along: the reference for "serve alternates".
   */
  function SetByParity(ha: real, hb: real, ga: int, gb: int): real
    decreases 2 * SET_CUTOFF + 2 - ga - gb
  {
    if ServerWon(SET_GAMES, ga, gb) then 1.0
    else if ReceiverWon(SET_GAMES, ga, gb) then 0.0
    else if ga == SET_GAMES && gb == SET_GAMES then TiebreakWinProb(ha, hb)
    else if ga > SET_CUTOFF || gb > SET_CUTOFF then LeaderCap(ha)
    else
      var hold := if ServerAfter(ga + gb) == A then ha else 1.0 - hb;
      Reals.Mix(hold, SetByParity(ha, hb, ga + 1, gb), SetByParity(ha, hb, ga, gb + 1))
  }

  /**
   * Started with the server the parity of the games played gives, the set recursion
   * keeps the server in step with that parity at every later state.
   */
  lemma {:induction false} SetServerFollowsParity(ha: real, hb: real, ga: int, gb: int)
    ensures SetProb(ha, hb, ga, gb, ServerAfter(ga + gb)) == SetByParity(ha, hb, ga, gb)
    decreases 2 * SET_CUTOFF + 2 - ga - gb
  {
    if !ServerWon(SET_GAMES, ga, gb) && !ReceiverWon(SET_GAMES, ga, gb)
      && !(ga == SET_GAMES && gb == SET_GAMES) && ga <= SET_CUTOFF && gb <= SET_CUTOFF
    {
      SetServerFollowsParity(ha, hb, ga + 1, gb);
      SetServerFollowsParity(ha, hb, ga, gb + 1);
      ServerAlternates(ga + gb);
      assert ga + 1 + gb == ga + (gb + 1) == ga + gb + 1;
      Reals.MixFlip(hb, SetByParity(ha, hb, ga + 1, gb), SetByParity(ha, hb, ga, gb + 1));
    }
  }

  /** `sets_to_win = best_of_sets // 2 + 1`. */
  function SetsToWin(bestOfSets: int): (n: int)
    ensures bestOfSets == 3 ==> n == 2
    ensures bestOfSets == 5 ==> n == 3
    ensures bestOfSets >= 0 ==> 2 * (n - 1) <= bestOfSets < 2 * n
  {
    bestOfSets / 2 + 1
  }

  /**
   * `match_prob`: probability that A wins the match from sets `a`-`b` when A wins
   * each remaining set with `pSet`; reaching `n` sets is checked for A first.
   */
  function MatchProb(pSet: real, n: int, a: int, b: int): real
    decreases 2 * n - a - b
  {
    if a >= n then 1.0
    else if b >= n then 0.0
    else Reals.Mix(pSet, MatchProb(pSet, n, a + 1, b), MatchProb(pSet, n, a, b + 1))
  }

  /** The match probability is a probability: 1 once A has `n` sets, else 0 once B has. */
  lemma {:induction false} MatchProbInUnit(pSet: real, n: int, a: int, b: int)
    requires 0.0 <= pSet <= 1.0
    ensures 0.0 <= MatchProb(pSet, n, a, b) <= 1.0
    ensures a >= n ==> MatchProb(pSet, n, a, b) == 1.0
    ensures a < n <= b ==> MatchProb(pSet, n, a, b) == 0.0
    decreases 2 * n - a - b
  {
    if a < n && b < n {
      MatchProbInUnit(pSet, n, a + 1, b);
      MatchProbInUnit(pSet, n, a, b + 1);
      Reals.MixBetween(pSet, MatchProb(pSet, n, a + 1, b), MatchProb(pSet, n, a, b + 1), 0.0, 1.0);
    }
  }

  /** Unless both sides already claim the match, A's and B's match chances sum to 1. */
  lemma {:induction false} MatchProbSwap(pSet: real, n: int, a: int, b: int)
    requires !(a >= n && b >= n)
    ensures MatchProb(pSet, n, a, b) + MatchProb(1.0 - pSet, n, b, a) == 1.0
    decreases 2 * n - a - b
  {
    if a < n && b < n {
      MatchProbSwap(pSet, n, a + 1, b);
      MatchProbSwap(pSet, n, a, b + 1);
      Reals.MixComplement(pSet,
        MatchProb(pSet, n, a + 1, b), MatchProb(pSet, n, a, b + 1),
        MatchProb(1.0 - pSet, n, b, a + 1), MatchProb(1.0 - pSet, n, b + 1, a));
    }
  }

  /**
   * One more set for A never lowers A's chance and one more for B never raises it.
   */
  lemma {:induction false} MatchLead(pSet: real, n: int, a: int, b: int)
    requires 0.0 <= pSet <= 1.0
    ensures MatchProb(pSet, n, a, b + 1) <= MatchProb(pSet, n, a, b) <= MatchProb(pSet, n, a + 1, b)
    decreases 2 * n - a - b
  {
    MatchProbInUnit(pSet, n, a, b);
    MatchProbInUnit(pSet, n, a, b + 1);
    MatchProbInUnit(pSet, n, a + 1, b);
    if a < n && b < n {
      if a + 1 < n { MatchLead(pSet, n, a + 1, b); }
      if b + 1 < n { MatchLead(pSet, n, a, b + 1); }
      var up := MatchProb(pSet, n, a + 1, b);
      var down := MatchProb(pSet, n, a, b + 1);
      Reals.MixBetween(pSet, up, down, down, up);
    }
  }

  /** A better chance per set never lowers the match chance. */
  lemma {:induction false} MatchMonotone(p1: real, p2: real, n: int, a: int, b: int)
    requires 0.0 <= p1 <= p2 <= 1.0
    ensures MatchProb(p1, n, a, b) <= MatchProb(p2, n, a, b)
    decreases 2 * n - a - b
  {
    if a < n && b < n {
      MatchMonotone(p1, p2, n, a + 1, b);
      MatchMonotone(p1, p2, n, a, b + 1);
      MatchLead(p2, n, a, b);
      Reals.MixMono(p1, p2,
        MatchProb(p1, n, a + 1, b), MatchProb(p2, n, a + 1, b),
        MatchProb(p1, n, a, b + 1), MatchProb(p2, n, a, b + 1));
    }
  }

  /** Best of three from 0-0: A needs two sets, which happens with probability p²(3 - 2p). */
  lemma MatchBestOfThree(p: real)
    ensures MatchProb(p, SetsToWin(3), 0, 0) == p * p * (3.0 - 2.0 * p)
  {
    var q := 1.0 - p;
    assert MatchProb(p, 2, 1, 1) == p;
    assert MatchProb(p, 2, 1, 0) == p + q * p;
    assert MatchProb(p, 2, 0, 1) == p * p;
    calc {
      MatchProb(p, 2, 0, 0);
      p * (p + q * p) + q * (p * p);
      p * p * (1.0 + 2.0 * q);
    }
  }

  /** One step of the match chain while neither side has enough sets. */
  lemma MatchStep(pSet: real, n: int, a: int, b: int)
    requires a < n && b < n
    ensures MatchProb(pSet, n, a, b) == Reals.Mix(pSet, MatchProb(pSet, n, a + 1, b), MatchProb(pSet, n, a, b + 1))
  {
  }

  /** Best of five from 0-0: A needs three sets, with probability p³(1 + 3q + 6q²), q = 1 - p. */
  lemma MatchBestOfFive(p: real)
    ensures var q := 1.0 - p; MatchProb(p, SetsToWin(5), 0, 0) == p * p * p * (1.0 + 3.0 * q + 6.0 * q * q)
  {
    assert SetsToWin(5) == 3;
    MatchStep(p, 3, 2, 2);
    MatchStep(p, 3, 2, 1);
    MatchStep(p, 3, 1, 2);
    MatchStep(p, 3, 2, 0);
    MatchStep(p, 3, 0, 2);
    MatchStep(p, 3, 1, 1);
    MatchStep(p, 3, 1, 0);
    MatchStep(p, 3, 0, 1);
    MatchStep(p, 3, 0, 0);
    BestOfFiveAlgebra(p,
      MatchProb(p, 3, 2, 2), MatchProb(p, 3, 2, 1), MatchProb(p, 3, 1, 2),
      MatchProb(p, 3, 2, 0), MatchProb(p, 3, 0, 2), MatchProb(p, 3, 1, 1),
      MatchProb(p, 3, 1, 0), MatchProb(p, 3, 0, 1), MatchProb(p, 3, 0, 0));
  }

  /** The polynomial arithmetic of the best-of-five chain, one state at a time. */
  lemma BestOfFiveAlgebra(p: real, m22: real, m21: real, m12: real, m20: real, m02: real,
                          m11: real, m10: real, m01: real, m00: real)
    requires m22 == Reals.Mix(p, 1.0, 0.0)
    requires m21 == Reals.Mix(p, 1.0, m22) && m12 == Reals.Mix(p, m22, 0.0)
    requires m20 == Reals.Mix(p, 1.0, m21) && m02 == Reals.Mix(p, m12, 0.0)
    requires m11 == Reals.Mix(p, m21, m12)
    requires m10 == Reals.Mix(p, m20, m11) && m01 == Reals.Mix(p, m11, m02)
    requires m00 == Reals.Mix(p, m10, m01)
    ensures var q := 1.0 - p; m00 == p * p * p * (1.0 + 3.0 * q + 6.0 * q * q)
  {
    var q := 1.0 - p;
    BestOfFiveLateStates(p, m22, m21, m12, m20, m02, m11);
    BestOfFiveEarlyStates(p, m20, m02, m11, m10, m01);
    var c := p * p * p;
    assert p * m10 == c * (1.0 + 2.0 * q + 3.0 * q * q);
    assert q * m01 == c * (q + 3.0 * q * q);
  }

  /** The states two sets or fewer from the end of a best-of-five match. */
  lemma BestOfFiveLateStates(p: real, m22: real, m21: real, m12: real, m20: real, m02: real, m11: real)
    requires m22 == Reals.Mix(p, 1.0, 0.0)
    requires m21 == Reals.Mix(p, 1.0, m22) && m12 == Reals.Mix(p, m22, 0.0)
    requires m20 == Reals.Mix(p, 1.0, m21) && m02 == Reals.Mix(p, m12, 0.0)
    requires m11 == Reals.Mix(p, m21, m12)
    ensures var q := 1.0 - p;
      && m20 == p * (1.0 + q + q * q) && m02 == p * p * p
      && m11 == p * p * (1.0 + 2.0 * q)
  {
    var q := 1.0 - p;
    assert m21 == p * (1.0 + q);
    assert m12 == p * p;
  }

  /** The states after one set of a best-of-five match. */
  lemma BestOfFiveEarlyStates(p: real, m20: real, m02: real, m11: real, m10: real, m01: real)
    requires var q := 1.0 - p;
      && m20 == p * (1.0 + q + q * q) && m02 == p * p * p
      && m11 == p * p * (1.0 + 2.0 * q)
    requires m10 == Reals.Mix(p, m20, m11) && m01 == Reals.Mix(p, m11, m02)
    ensures var q := 1.0 - p;
      && m10 == p * p * (1.0 + 2.0 * q + 3.0 * q * q)
      && m01 == p * p * p * (1.0 + 3.0 * q)
  {
  }
}
