/**
 * The match snapshot: both players' live serve statistics, the score, who serves,
 * and the blending configuration (`PlayerStats` and `MatchSnapshot`).
 */
module TennisSchema {
  import opened Wrappers
  import Reals

  /** The two players; the source writes them as the strings "A" and "B". */
  datatype Player = A | B {
    function Other(): (o: Player)
      ensures o != this
    {
      if this == A then B else A
    }
  }

  /** Live serve rates of one player, each a fraction in [0, 1] when known. */
  datatype PlayerStats = PlayerStats(
    playerName: string,
    firstServeInPct: Option<real>,
    firstServePointsWonPct: Option<real>,
    secondServePointsWonPct: Option<real>)

  /** Stats for `name` with nothing recorded yet. */
  function EmptyStats(name: string): PlayerStats {
    PlayerStats(name, None, None, None)
  }

  /**
   * `get_serve_point_win_pct`: the probability of winning a point on serve, mixing
   * first- and second-serve rates by how often the first serve goes in.
   */
  function ServePointWinPct(ps: PlayerStats): (r: Option<real>)
    ensures r.None? <==>
      ps.firstServeInPct.None? || ps.firstServePointsWonPct.None? || ps.secondServePointsWonPct.None?
    ensures r.Some? ==>
      r.value == Reals.Mix(ps.firstServeInPct.value, ps.firstServePointsWonPct.value, ps.secondServePointsWonPct.value)
  {
    if ps.firstServeInPct.None? || ps.firstServePointsWonPct.None? || ps.secondServePointsWonPct.None? then
      None
    else
      var fsi := ps.firstServeInPct.value;
      var fspw := ps.firstServePointsWonPct.value;
      var sspw := ps.secondServePointsWonPct.value;
      Some(fsi * fspw + (1.0 - fsi) * sspw)
  }

  /** Every rate that is present is a fraction in [0, 1]. */
  predicate RatesInUnit(ps: PlayerStats) {
    && (ps.firstServeInPct.Some? ==> 0.0 <= ps.firstServeInPct.value <= 1.0)
    && (ps.firstServePointsWonPct.Some? ==> 0.0 <= ps.firstServePointsWonPct.value <= 1.0)
    && (ps.secondServePointsWonPct.Some? ==> 0.0 <= ps.secondServePointsWonPct.value <= 1.0)
  }

  /** Rates in [0, 1] give a serve-point-win probability in [0, 1]. */
  lemma ServePointWinInUnit(ps: PlayerStats)
    requires RatesInUnit(ps) && ServePointWinPct(ps).Some?
    ensures 0.0 <= ServePointWinPct(ps).value <= 1.0
  {
    Reals.MixBetween(ps.firstServeInPct.value, ps.firstServePointsWonPct.value, ps.secondServePointsWonPct.value, 0.0, 1.0);
  }

  /** The value the repository's tests use: (0.65, 0.82, 0.60) serves points at exactly 0.743. */
  lemma ServePointWinExample()
    ensures ServePointWinPct(PlayerStats("A", Some(0.65), Some(0.82), Some(0.60))) == Some(0.743)
  {
  }

  /** One state of a match as entered, pasted or scraped (metadata fields left out). */
  datatype MatchSnapshot = MatchSnapshot(
    bestOfSets: int,
    playerAName: string,
    playerBName: string,
    setsWonA: Option<int>,
    setsWonB: Option<int>,
    gamesInSetA: Option<int>,
    gamesInSetB: Option<int>,
    isTiebreak: bool,
    pointScoreA: Option<string>,
    pointScoreB: Option<string>,
    server: Option<Player>,
    playerA: PlayerStats,
    playerB: PlayerStats,
    blendingWeightLive: real,
    genericPriorServePointWin: real)

  const DEFAULT_BEST_OF_SETS: int := 3
  const DEFAULT_BLENDING_WEIGHT_LIVE: real := 0.70
  const DEFAULT_PRIOR_SERVE_POINT_WIN: real := 0.62

  /** A snapshot built with every field at its declared default. */
  function DefaultSnapshot(): (s: MatchSnapshot)
    ensures s.bestOfSets == 3 && s.blendingWeightLive == 0.70 && s.genericPriorServePointWin == 0.62
    ensures s.server.None? && !s.isTiebreak
  {
    MatchSnapshot(
      DEFAULT_BEST_OF_SETS, "Player A", "Player B",
      None, None, None, None, false, None, None, None,
      EmptyStats("Player A"), EmptyStats("Player B"),
      DEFAULT_BLENDING_WEIGHT_LIVE, DEFAULT_PRIOR_SERVE_POINT_WIN)
  }

  /** `is_complete_for_match_probability`: all nine required values are present. */
  predicate IsCompleteForMatchProbability(s: MatchSnapshot) {
    && s.setsWonA.Some? && s.setsWonB.Some?
    && s.gamesInSetA.Some? && s.gamesInSetB.Some?
    && s.pointScoreA.Some? && s.pointScoreB.Some?
    && s.server.Some?
    && ServePointWinPct(s.playerA).Some? && ServePointWinPct(s.playerB).Some?
  }

  /** `is_complete_for_next_point`: the server and both serve percentages are present. */
  predicate IsCompleteForNextPoint(s: MatchSnapshot) {
    s.server.Some? && ServePointWinPct(s.playerA).Some? && ServePointWinPct(s.playerB).Some?
  }

  /** Every snapshot ready for the match probability is ready for the next point. */
  lemma MatchCompleteImpliesNextPointComplete(s: MatchSnapshot)
    ensures IsCompleteForMatchProbability(s) ==> IsCompleteForNextPoint(s)
  {
  }

  /** The message naming a required value, if that value is absent. */
  function Absent(present: bool, message: string): (ms: seq<string>)
    ensures ms == [] <==> present
    ensures |ms| <= 1
  {
    if present then [] else [message]
  }

  /**
   * The messages `missing_required_fields` reports for `s`: one per absent required
   * value, in the order the nine values are checked.
   */
  function MissingMessages(s: MatchSnapshot): (ms: seq<string>)
    ensures |ms| <= 9
    ensures ms == [] <==> IsCompleteForMatchProbability(s)
  {
    Absent(s.setsWonA.Some?, "Sets won by Player A")
    + Absent(s.setsWonB.Some?, "Sets won by Player B")
    + Absent(s.gamesInSetA.Some?, "Games in current set (Player A)")
    + Absent(s.gamesInSetB.Some?, "Games in current set (Player B)")
    + Absent(s.pointScoreA.Some?, "Point score (Player A)")
    + Absent(s.pointScoreB.Some?, "Point score (Player B)")
    + Absent(s.server.Some?, "Current server")
    + Absent(ServePointWinPct(s.playerA).Some?, "Serve stats for " + s.playerAName)
    + Absent(ServePointWinPct(s.playerB).Some?, "Serve stats for " + s.playerBName)
  }

  /**
   * `missing_required_fields`: one message per absent required value, in the fixed
   * order of `MissingMessages`; empty exactly when the snapshot is complete.
   */
  method MissingRequiredFields(s: MatchSnapshot) returns (missing: seq<string>)
    ensures missing == MissingMessages(s)
  {
    missing := [];
    missing := AppendIfAbsent(missing, s.setsWonA.Some?, "Sets won by Player A");
    assert missing == Absent(s.setsWonA.Some?, "Sets won by Player A");
    missing := AppendIfAbsent(missing, s.setsWonB.Some?, "Sets won by Player B");
    missing := AppendIfAbsent(missing, s.gamesInSetA.Some?, "Games in current set (Player A)");
    missing := AppendIfAbsent(missing, s.gamesInSetB.Some?, "Games in current set (Player B)");
    missing := AppendIfAbsent(missing, s.pointScoreA.Some?, "Point score (Player A)");
    missing := AppendIfAbsent(missing, s.pointScoreB.Some?, "Point score (Player B)");
    missing := AppendIfAbsent(missing, s.server.Some?, "Current server");
    missing := AppendIfAbsent(missing, ServePointWinPct(s.playerA).Some?, "Serve stats for " + s.playerAName);
    missing := AppendIfAbsent(missing, ServePointWinPct(s.playerB).Some?, "Serve stats for " + s.playerBName);
  }

  /** One check of `missing_required_fields`: append `message` when the value is absent. */
  method AppendIfAbsent(missing: seq<string>, present: bool, message: string) returns (extended: seq<string>)
    ensures extended == missing + Absent(present, message)
  {
    extended := missing;
    if !present {
      extended := extended + [message];
    } else {
      assert missing + [] == missing;
    }
  }

  /** The default snapshot lacks all nine values, starting with the sets won by A. */
  lemma DefaultSnapshotMissesEverything()
    ensures var ms := MissingMessages(DefaultSnapshot());
      |ms| == 9 && ms[0] == "Sets won by Player A" && ms[8] == "Serve stats for Player B"
  {
    var s := DefaultSnapshot();
    assert ServePointWinPct(s.playerA).None? && ServePointWinPct(s.playerB).None?;
  }
}
