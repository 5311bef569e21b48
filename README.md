# TennisVue scoring engine, modelled in Dafny

TennisVue is a Streamlit app that takes a live tennis match snapshot and estimates
win probabilities. It can read the snapshot from a URL, from pasted text or from
manual entry. This project models the app's computational core and proves properties
of it:

- **Snapshot schema** (`TennisSchema`). Per-player serve statistics, the
  serve-point-win rate they combine into, the snapshot defaults, the completeness
  checks, and the list of missing fields.
- **Blending** (`Blending`). Blending a live rate with a prior, and the Beta-posterior
  credible interval.
- **Markov chains** (`Chains`). The point race that both a game and a tiebreak are,
  the set chain over games with alternating serve, and the match chain over sets. Each
  keeps the source's own depth cap.
- **Forecast entry points** (`Forecast`). The server's and receiver's point
  probabilities, the hold and break chances of the current game, hold probabilities
  from love, the three-game forecast, and the set- and match-win probabilities.
- **Game outcomes** (`GameOutcomes`). How the current game ends, the chance of deuce,
  and the chance of passing through every intermediate score. It includes the
  closed forms: a binomial count of paths, and 20·p³·(1−p)³ for deuce from love.
- **Momentum** (`Momentum`). The rolling point-win rate, leverage, the
  exponentially weighted momentum, and the `MomentumTracker` object. The tracker
  records points and answers queries about them.
- **Ingestion helpers**:
  - `PasteParser`: JSON, then CSV-like, then key/value parsing of pasted text;
  - `MatchDetector`: tournament lookup by domain, cleaning of a player name,
    normalisation of a statistic value;
  - `Utils`: input validation.

Two modules are toolkits:
- `Text` models the Python `str` built-ins the source uses: `strip`, `split(c)`,
  `split()`, `" ".join`, substring `in`, `lower`/`upper`/`capitalize` on ASCII.
- `Reals` holds the exact-real facts the chains need: convex mixing, powers and
  binomial coefficients.

Probabilities are exact `real`s. Every chain step is the convex mix
`p·x + (1−p)·y`. The memo dictionaries of the recursive functions are caches that do
not change results, so each recursion is a plain recursive function. Its termination
measure is the source's own depth cap (10 points per side for a game, 20 for a
tiebreak, 12 games for a set).

All files verify together with
`dafny verify --resource-limit 2000000 --verification-time-limit 0 *.dfy`. `Chains.TiebreakEven` is
about the tiebreak race from 0-0, where every argument except the point probability
is a constant. Without its proof the solver keeps unfolding the race. With its proof
the lemma stays far below that limit.

The model follows the code as written, including in these places, some of which
its own comments describe otherwise:
- `get_momentum_delta` returns the newest momentum minus the one `last_n` points
  earlier. Its docstring describes the difference the other way round.
- `detect_momentum_spike` compares with `momentum[-5]`. That is a delta over four
  points (`SpikeIsFourPointDelta`).
- The serve-point-win rate for (0.65, 0.82, 0.60) is exactly 0.743
  (`ServePointWinExample`). A test comment states 0.754.
- `next_game_probability` and `get_all_game_outcomes` read the server's points from
  player A's score even when B serves.
- The tiebreak chain uses A's hold probability as A's per-point probability, whoever
  serves.
- Past the depth cap, the two game chains answer differently:
  - `next_game_probability` answers `max(p, 1−p)`, which is at least 0.5 even for a
    weak server;
  - `_hold_probability_for_player` answers `p`;
  - `game_outcomes` gives all the mass to the side favoured on serve.
- The caps break monotonicity. The comment at lines 92-93 of `probabilities.py` says a
  higher point percentage means the server eventually wins. Yet below 1/2 the
  `max(p, 1−p)` caps at lines 91-94 and 296-298 fall as p rises:
  - the current-game chain from 10-10 gives 0.8 to a server at 20% and 0.6 to one at
    40% (`CurrentGameHoldNotMonotone`);
  - the set chain behaves the same way from 12-12 (`SetNotMonotonePastCap`).
  The from-love hold, the tiebreak, the match chain, the current game for p ≥ 1/2,
  and the set chain from scores up to 6 games each are monotone (`PlayerHoldMonotone`,
  `TiebreakMonotone`, `MatchMonotone`, `CurrentGameHoldMonotoneAboveHalf`,
  `SetMonotone`).
- `get_all_game_outcomes` computes the outcome distribution but returns only the
  reach table and the chance of deuce.
- `forecast_next_game_outcomes` computes the next server's blended rate only to
  check that it exists. The chances it returns are those of the current game.
- With the paper's α = 3.4, two points give weights 1 and −2.4. Their sum is
  negative, so momentum is 0 (`EwmaPaperAlphaTwoPoints`).

Arguments the source reads from the outside world are parameters:
- the JSON decoder (`decode` in `PasteParser`);
- the Beta quantile function of SciPy (`betaQuantile` in `Blending`).

## Model

| member | source | states |
|---|---|---|
| TennisSchema.ServePointWinPct | src/tennis_schema.py:36-47 | None exactly when one of the three serve rates is missing; otherwise the first-serve-in mix of the first- and second-serve point-win rates |
| TennisSchema.ServePointWinInUnit | src/tennis_schema.py:36-47 | with all rates in [0, 1], the serve-point-win rate is in [0, 1] |
| TennisSchema.ServePointWinExample | src/tennis_schema.py:44-47 | rates (0.65, 0.82, 0.60) give exactly 0.743 |
| TennisSchema.DefaultSnapshot | src/tennis_schema.py:60-94 | a fresh snapshot is best of 3, live weight 0.70, prior 0.62, no server, not a tiebreak |
| TennisSchema.MatchCompleteImpliesNextPointComplete | src/tennis_schema.py:96-118 | a snapshot complete for the match probability is complete for the next point |
| TennisSchema.MissingMessages | src/tennis_schema.py:120-141 | at most nine messages, and none exactly when the snapshot is complete for the match probability |
| TennisSchema.MissingRequiredFields | src/tennis_schema.py:120-141 | the loop of appends builds exactly the messages of the absent fields, in field order |
| TennisSchema.AppendIfAbsent | src/tennis_schema.py:123-140 | one `if … is None: append` step adds the message exactly when its field is absent |
| TennisSchema.DefaultSnapshotMissesEverything | src/tennis_schema.py:120-141 | a default snapshot misses all nine fields, first "Sets won by Player A", last "Serve stats for Player B" |
| Blending.BlendWithPrior | src/models/blending.py:6-20 | the prior when nothing was observed; for a weight in [0, 1] the result lies between the live value and the prior, and weights 0 and 1 give the prior and the live value |
| Blending.BayesianCredibleInterval | src/models/blending.py:21-47 | None exactly when a count is missing; otherwise the alpha/2 and 1−alpha/2 quantiles of Beta(1 + successes, 1 + failures) |
| Chains.RaceInUnit | src/models/probabilities.py:77-102 | a game or tiebreak race value is a probability; it is 1 once the server has won and 0 once the receiver has |
| Chains.RaceSwap | src/models/probabilities.py:77-102 | the server's chance from s-r plus the receiver's chance, with p and the cap complemented, from r-s is 1 |
| Chains.RaceEven | src/models/probabilities.py:363-379 | with p = 1/2 (and cap 1/2) a race from any level score is 1/2 |
| Chains.RaceCertain | src/models/probabilities.py:77-102 | a server who wins every point wins from any score the receiver has not yet won |
| Chains.RaceHopeless | src/models/probabilities.py:77-102 | a server who wins no point never wins from a score they have not yet won |
| Chains.RaceLead | src/models/probabilities.py:77-102 | when the target is within the cutoff, the chance after the server takes the next point is at least the chance after the receiver does |
| Chains.RaceMonotone | src/models/probabilities.py:77-102 | when the target is within the cutoff, a higher point probability and a higher cap never lower the race value from any score |
| Chains.LeaderCap | src/models/probabilities.py:91-94 | the deep-deuce answer is p or 1−p, at least 1/2, at most 1 for p in [0, 1] |
| Chains.GameHoldsInUnit | src/models/probabilities.py:59-114 | current-game hold, its break complement, and the from-love hold are probabilities |
| Chains.GameHoldCertain | src/models/probabilities.py:77-102 | p = 1 gives hold probability 1 from any score the receiver has not won |
| Chains.GameHoldHopeless | src/models/probabilities.py:77-102 | p = 0 gives hold probability 0 from any score the server has not won |
| Chains.GameHoldEven | src/models/probabilities.py:77-102 | p = 1/2 gives hold probability 1/2 from any level score |
| Chains.PlayerHoldIsCurrentGameFromLove | src/models/probabilities.py:206-228 | for p > 1/2 the two game chains agree from 0-0, since their caps coincide |
| Chains.CapsDisagreeBelowHalf | src/models/probabilities.py:206-228 | for p < 1/2 the two game chains differ at 10-10, where every next point reaches the cutoff: the current-game chain (cap `max(p, 1−p)`, lines 91-94) gives 1−p, the from-love chain (cap `p`, lines 217-219) gives p |
| Chains.PlayerHoldMonotone | src/models/probabilities.py:206-228 | the from-love hold probability grows with the serve point probability |
| Chains.CurrentGameHoldMonotoneAboveHalf | src/models/probabilities.py:77-102 | for point probabilities from 1/2 up the current-game hold probability grows with p from every score |
| Chains.CurrentGameHoldNotMonotone | src/models/probabilities.py:91-94 | p = 0.2 gives 0.8 and p = 0.4 gives 0.6 at 10-10: below 1/2 the `max(p, 1−p)` cap makes the current-game chain fall as p rises |
| Chains.TiebreakInUnit | src/models/probabilities.py:357-379 | the tiebreak chance is a probability |
| Chains.TiebreakEven | src/models/probabilities.py:357-379 | with A's hold probability 1/2 the tiebreak is even |
| Chains.TiebreakMonotone | src/models/probabilities.py:357-379 | A's tiebreak chance grows with A's hold probability, whatever B's |
| Chains.SetProbInUnit | src/models/probabilities.py:280-313 | the set chance is a probability, 1 once A has won the set, 0 once B has, the tiebreak chance at 6-6 |
| Chains.SetLead | src/models/probabilities.py:280-313 | from a score with neither side past 6 games (not 6-6), winning the next game never lowers A's set chance, whoever serves |
| Chains.SetMonotone | src/models/probabilities.py:280-313 | from a score with neither side past 6 games, A's set chance grows with A's hold probability and falls as B's grows |
| Chains.SetNotMonotonePastCap | src/models/probabilities.py:296-298 | ha = 0.2 gives 0.8 and ha = 0.4 gives 0.6 at 12-12: past the 12-game cap the set chain falls as A's hold probability rises |
| Chains.ServerAlternates | src/models/probabilities.py:316-317 | the parity rule gives a new server after every game |
| Chains.SetServerFollowsParity | src/models/probabilities.py:280-319 | started with the server the parity of the games played gives, the set recursion equals the reference chain that reads the server off the parity at every state |
| Chains.SetsToWin | src/models/probabilities.py:332 | best of 3 needs 2 sets, best of 5 needs 3, and in general a majority of the sets |
| Chains.MatchProbInUnit | src/models/probabilities.py:335-351 | the match chance is a probability, 1 once A has enough sets, 0 once B has and A has not |
| Chains.MatchProbSwap | src/models/probabilities.py:335-351 | A's match chance plus B's, with the set chance complemented, is 1 |
| Chains.MatchLead | src/models/probabilities.py:335-351 | from any set score, one more set for A never lowers A's match chance and one more for B never raises it |
| Chains.MatchMonotone | src/models/probabilities.py:335-351 | a higher set probability never lowers the match chance from any set score |
| Chains.MatchBestOfThree | src/models/probabilities.py:323-354 | from 0-0 in best of 3 the match chance is p²(3−2p) |
| Chains.MatchBestOfFive | src/models/probabilities.py:323-354 | from 0-0 in best of 5 the match chance is p³(1+3q+6q²), q = 1−p |
| Forecast.ServerServePointWinPct | src/models/probabilities.py:7-24 | None exactly without a server; otherwise the server's live rate blended with the prior, or the prior when the live rate is missing; in [0, 1] for rates in [0, 1] |
| Forecast.ReceiverServePointWinPct | src/models/probabilities.py:27-32 | None exactly without a server; otherwise the complement of the server's rate |
| Forecast.PointScoreToIndex | src/models/probabilities.py:35-40 | defined exactly on the labels "0", "15", "30", "40", "AD", and the label at the returned index is the input |
| Forecast.PointLabelsRoundTrip | src/models/probabilities.py:35-40 | every label maps back to its own index |
| Forecast.ScoreIndexOrZero | src/models/probabilities.py:105-106 | a known label gives its index, anything else 0 |
| Forecast.NextPointProbability | src/models/probabilities.py:43-56 | None exactly without a server; otherwise the server's and receiver's rates, summing to 1 |
| Forecast.NextGameProbability | src/models/probabilities.py:59-114 | None exactly without a server or in a tiebreak; otherwise the game-chain hold chance from the current score and its complement, both in [0, 1] for rates in [0, 1] |
| Forecast.HoldProbabilityForPlayer | src/models/probabilities.py:192-228 | None exactly when the player's serve rate is missing; otherwise the from-love hold chance, a probability |
| Forecast.GameChances | src/models/probabilities.py:175-182 | the chances of one game sum to 1, with A's hold chance when A serves and B's when B serves |
| Forecast.NextThreeGamesForecast | src/models/probabilities.py:150-189 | None exactly without a server or a hold probability; otherwise three games whose server alternates from the current one |
| Forecast.AlternatingGames | src/models/probabilities.py:174-182 | the loop yields three games, game k served by the k-th alternate of the first server |
| Forecast.ServeAlternatesAcrossGames | src/models/probabilities.py:174-182 | the first game goes to the current server and each next game to the other player |
| Forecast.SetWinProbability | src/models/probabilities.py:266-320 | None exactly when games or a hold probability is missing; otherwise the parity-served set chain from the current games, in [0, 1] |
| Forecast.MatchWinProbability | src/models/probabilities.py:323-354 | None exactly when sets or the set chance is missing; otherwise the match chain from the current sets, in [0, 1], 1 once A has enough sets |
| Forecast.ForecastNextGameOutcomes | src/models/probabilities.py:509-547 | None exactly when the current game has no chances or the next server's rate is missing; otherwise the current game's hold and break chances |
| GameOutcomes.MassCombine | src/models/probabilities.py:442-446 | the combined distribution gives each ending the p-mix of the two successors' masses |
| GameOutcomes.MassAddWeighted | src/models/probabilities.py:443-446 | one accumulation loop adds w times the source mass to every ending |
| GameOutcomes.MergeWeighted | src/models/probabilities.py:443-446 | the loop over a distribution's items computes the weighted accumulation |
| GameOutcomes.ComputeOutcomes | src/models/probabilities.py:420-449 | the recursion with its two loops computes the game-end distribution |
| GameOutcomes.CombineOutcomes | src/models/probabilities.py:442-446 | the two accumulation loops together build the p-mix of the successor distributions |
| GameOutcomes.OutcomesStep | src/models/probabilities.py:439-446 | during play the distribution is the p-mix of those after a point won and a point lost |
| GameOutcomes.ServerMassIsRace | src/models/probabilities.py:420-449 | the "Server wins" mass equals the hold chance of the game chain with the 0-or-1 cap |
| GameOutcomes.MassesSumToOne | src/models/probabilities.py:420-449 | the two endings' masses sum to 1 from every score |
| GameOutcomes.MassesInUnit | src/models/probabilities.py:420-449 | each ending's mass is a probability |
| GameOutcomes.ReachesDeuceIsReachingFortyAll | src/models/probabilities.py:455-490 | the chance of deuce equals the chance of passing through 40-40 |
| GameOutcomes.ProbToScoreInUnit | src/models/probabilities.py:476-490 | the chance of passing through a score is a probability |
| GameOutcomes.ProbToScoreBinomial | src/models/probabilities.py:476-490 | up to 40-40 the chance of passing through ts-tr is C(a+b, a)·pᵃ·(1−p)ᵇ for the a and b points still needed |
| GameOutcomes.ReachesDeuceBinomial | src/models/probabilities.py:455-467 | the chance of deuce from s-r is the binomial path probability to 3-3 |
| GameOutcomes.PathsProbThreeAll | src/models/probabilities.py:455-469 | the path probability to 3-3 from love is 20·p³(1−p)³ |
| GameOutcomes.DeuceFromLove | src/models/probabilities.py:455-469 | from 0-0 the chance of deuce is 20·p³(1−p)³ |
| GameOutcomes.ReachTable | src/models/probabilities.py:493-503 | the nested loops tabulate exactly the scores the two `continue` tests keep (probabilities.py:495-498), each with its pass-through chance |
| GameOutcomes.GetAllGameOutcomes | src/models/probabilities.py:382-506 | None exactly without a server or in a tiebreak; otherwise the full reach table and the chance of deuce from the current score |
| Momentum.RollingPointWinProbability | src/models/probabilities.py:555-583 | the smoothed win rate clamped to [0, 1]: (wins + smoothing)/window inside, 1 and 0 outside |
| Momentum.RollingMonotone | src/models/probabilities.py:555-583 | more wins never lowers the rate |
| Momentum.RollingTwelveOfTwenty | src/models/probabilities.py:578-580 | 12 wins in 20 with smoothing 1 give 0.65 |
| Momentum.Leverage | src/models/probabilities.py:586-621 | non-negative, 0 on a lost point or when losing would be no worse, otherwise the counterfactual swing |
| Momentum.LeverageAtMostSwing | src/models/probabilities.py:586-621 | for probabilities the leverage is in [0, 1] and at most the absolute swing |
| Momentum.LeverageExamples | src/models/probabilities.py:610-615 | 0.45 vs 0.20 gives 0.25; 0.95 vs 0.85 gives 0.10 |
| Momentum.MomentumEwma | src/models/probabilities.py:624-679 | the weighted-sum loop computes the momentum of the history, which lies in [−1, 1] |
| Momentum.EwmaBounded | src/models/probabilities.py:656-679 | momentum is in [−1, 1] for every α and 0 for an empty history |
| Momentum.WeightSumAtLeastOne | src/models/probabilities.py:665-668 | for α ≤ 1 the weight total of a non-empty history is at least 1, so the division happens |
| Momentum.WeightedSumBetween | src/models/probabilities.py:665-668 | for α ≤ 1 the weighted sum lies between lo and hi times the weight total when every leverage does |
| Momentum.EwmaBetween | src/models/probabilities.py:624-679 | for α ≤ 1 (all weights non-negative) the momentum lies between bounds that hold for every leverage in the history |
| Momentum.EwmaAlphaOne | src/models/probabilities.py:624-679 | α = 1 gives the newest leverage, clamped |
| Momentum.EwmaPaperAlphaTwoPoints | src/models/probabilities.py:636-637 | with α = 3.4 two points give a negative weight total, so momentum 0 |
| Momentum.CountTrueAppend | src/models/probabilities.py:798 | the number of wins is additive over concatenation |
| Momentum.LastN | src/models/probabilities.py:797 | the window is the last min(n, length) results, a suffix of the history |
| Momentum.OnlyWindowCounts | src/models/probabilities.py:797-798 | results older than the window never change the window |
| Momentum.MomentumAppend | src/models/probabilities.py:779-783 | appending a leverage and its momentum keeps every momentum equal to that of its prefix |
| Momentum.MomentumTracker.constructor | src/models/probabilities.py:726-747 | records the parameters, all histories empty, no points played, invariant established |
| Momentum.MomentumTracker.Reset | src/models/probabilities.py:749-756 | every history emptied and the count zeroed; parameters kept |
| Momentum.MomentumTracker.AddPoint | src/models/probabilities.py:758-785 | the result goes to the serve or the receive history (the other unchanged), the leverage and the new history's momentum are appended, the count grows by one, the invariant is kept |
| Momentum.MomentumTracker.GetRollingPointWinProbability | src/models/probabilities.py:787-809 | None exactly for an empty history; otherwise the rolling rate of the last windowSize results, in [0, 1] |
| Momentum.MomentumTracker.GetCurrentMomentum | src/models/probabilities.py:811-813 | None exactly before the first point; otherwise the newest momentum |
| Momentum.MomentumTracker.CurrentMomentumIsEwma | src/models/probabilities.py:779-813 | after a point, the current momentum is that of the whole leverage history, in [−1, 1] |
| Momentum.MomentumTracker.GetMomentumDelta | src/models/probabilities.py:815-823 | None exactly with fewer than lastN+1 momenta; otherwise newest minus the one lastN points earlier |
| Momentum.MomentumTracker.DeltaTelescopes | src/models/probabilities.py:815-823 | the delta over 0 points is 0, and deltas over m+n points split into the m- and n-point parts |
| Momentum.MomentumTracker.DetectMomentumSpike | src/models/probabilities.py:825-838 | never with fewer than 5 momenta; otherwise exactly when the newest exceeds the fifth newest by more than the threshold |
| Momentum.MomentumTracker.SpikeIsFourPointDelta | src/models/probabilities.py:815-838 | a spike is exactly a four-point momentum delta above the threshold |
| Momentum.MomentumTracker.NoSpikeAboveTwo | src/models/probabilities.py:825-838 | in a valid tracker no threshold of 2 or more is crossed |
| PasteParser.CsvEntry | src/data_sources/paste_parser.py:31-34 | a line contributes exactly when it has a comma; the key and value are comma-free and stripped |
| PasteParser.KeyValueEntry | src/data_sources/paste_parser.py:43-46 | a line contributes exactly when it has a colon; the key is colon-free and both are stripped |
| PasteParser.CollectKeys | src/data_sources/paste_parser.py:30-34 | a key is in the dictionary exactly when some line contributes it |
| PasteParser.LastWriteWins | src/data_sources/paste_parser.py:30-34 | a key's value is the one on its last contributing line |
| PasteParser.CollectFromLines | src/data_sources/paste_parser.py:42-46 | every dictionary entry is some line's entry |
| PasteParser.CsvStatsTrimmed | src/data_sources/paste_parser.py:30-34 | CSV keys and values carry no surrounding whitespace |
| PasteParser.KeyValueStatsTrimmed | src/data_sources/paste_parser.py:42-46 | key/value keys and values carry no surrounding whitespace |
| PasteParser.CollectStats | src/data_sources/paste_parser.py:30-34 | the per-line loop builds the dictionary of the entries, later lines winning |
| PasteParser.PastedStats | src/data_sources/paste_parser.py:9-52 | a text reading is never an empty dictionary |
| PasteParser.ParsePastedStats | src/data_sources/paste_parser.py:9-52 | the method follows the JSON, CSV, key/value order of the specification function |
| PasteParser.BlankIsNone | src/data_sources/paste_parser.py:14-16 | blank text gives None |
| PasteParser.JsonObjectFirst | src/data_sources/paste_parser.py:19-22 | text that decodes to a JSON object is that object, even an empty one |
| PasteParser.SurroundingSpaceIgnored | src/data_sources/paste_parser.py:14 | surrounding whitespace never changes the result |
| PasteParser.CommaLineSelectsCsv | src/data_sources/paste_parser.py:28-36 | several lines, one with a comma, select the CSV reading |
| PasteParser.SingleLineReadsKeyValue | src/data_sources/paste_parser.py:28-48 | one line skips the CSV reading and goes to the key/value reading |
| PasteParser.SingleLineWithoutColonIsNone | src/data_sources/paste_parser.py:40-52 | one line without a colon is not recognised |
| PasteParser.SingleLineIsKeyValue | src/data_sources/paste_parser.py:40-48 | one line with a colon gives the single key before the first colon, whatever commas follow |
| MatchDetector.ReplaceSeparators | src/data_sources/match_detector.py:208 | same length, each hyphen and underscore becomes a space |
| MatchDetector.Capitalize | src/data_sources/match_detector.py:214 | first letter upper-cased, the rest lower-cased |
| MatchDetector.CleanWord | src/data_sources/match_detector.py:213-216 | same length, first letter upper-cased, the rest lower-cased |
| MatchDetector.CleanWords | src/data_sources/match_detector.py:211-216 | each word cleaned, in order |
| MatchDetector.CleanWordShape | src/data_sources/match_detector.py:213-216 | cleaning a word without whitespace or separators never introduces any |
| MatchDetector.WordsWithoutSeparators | src/data_sources/match_detector.py:208-210 | after the replacement, no word of the split holds a hyphen or an underscore |
| MatchDetector.CleanPlayerName | src/data_sources/match_detector.py:205-217 | the loop computes the cleaned name |
| MatchDetector.CaseKeepsSeparators | src/data_sources/match_detector.py:213-216 | case mapping creates no separator and no whitespace, and is idempotent |
| MatchDetector.CleanWordIdempotent | src/data_sources/match_detector.py:213-216 | cleaning a word twice is cleaning it once |
| MatchDetector.CleanedWordsShape | src/data_sources/match_detector.py:208-216 | cleaned words are non-empty, hold no whitespace, hyphen or underscore |
| MatchDetector.CleanedNameShape | src/data_sources/match_detector.py:205-217 | the name has no hyphen or underscore, no surrounding whitespace, single spaces only |
| MatchDetector.CleanedNameIdempotent | src/data_sources/match_detector.py:205-217 | cleaning a cleaned name changes nothing |
| MatchDetector.FirstTournamentFrom | src/data_sources/match_detector.py:91-98 | None exactly when no later domain occurs; otherwise the first tournament whose domain occurs |
| MatchDetector.IdentifyTournament | src/data_sources/match_detector.py:88-98 | the loop over the lower-cased URL finds the first matching tournament, None when none matches |
| MatchDetector.AustralianOpenShadowsUsOpen | src/data_sources/match_detector.py:14-32 | an ausopen.com URL also holds usopen.com but reports the Australian Open, listed first |
| MatchDetector.TruncateTowardZero | src/data_sources/match_detector.py:200 | truncation toward zero, as `int()` on a float |
| MatchDetector.NormalizeStatValue | src/data_sources/match_detector.py:181-202 | percentage keys give a fraction in [0, 1] (values in (1, 100] divided by 100, values in [0, 1] kept, clamped otherwise), count keys give the truncated count, other keys the value unchanged |
| MatchDetector.PercentIdempotent | src/data_sources/match_detector.py:193-196 | normalising a normalised percentage changes nothing |
| MatchDetector.CountIdempotent | src/data_sources/match_detector.py:199-200 | normalising a normalised count changes nothing |
| MatchDetector.NormalizeExamples | src/data_sources/match_detector.py:181-202 | 65 for a pct key gives 0.65; 5.7 and −2.5 aces give 5 and −2 |
| Utils.ValidateInput | src/utils.py:9-11 | accepted exactly when the stripped text has at least minLength characters; blank text only for minLength ≤ 0 |
| Utils.SurroundingSpaceIrrelevant | src/utils.py:9-11 | surrounding whitespace never changes the verdict |
| Utils.MonotoneInLength | src/utils.py:9-11 | a text passing a minimum passes every smaller one |
| Utils.NonPositiveAcceptsAll | src/utils.py:9-11 | a minimum of 0 or less accepts everything |
| Utils.ValidateExamples | src/utils.py:9-11 | "" and "   " fail, ("a", 2) fails, ("hello", 3) passes |

## Left out

- Monte Carlo simulations (`_simulate_game_final_scores`, `_simulate_set_scores`): they draw random numbers. The score distributions are therefore not part of the `next_game_probability` and `next_three_games_forecast` results.
- Notes, display labels and formatted strings beside each result (`score_index_to_label`, `holds serve: …%` keys, names in keys): only the probabilities are modelled.
- The `> 0.001` display filter of `get_all_game_outcomes`: ReachTable keeps every score the loops visit. The filter is a presentation threshold on floating-point values.
- The memo dictionaries: they are caches and do not change any value.
- `calculate_match_win_probability_counterfactual`: its body only returns None. There is nothing to prove about it.
- Blending.BayesianCredibleInterval: the Beta quantile of SciPy is a parameter. The fallback to None when SciPy cannot be imported is left out.
- PasteParser.PastedStats: `json.loads` is a parameter that says malformed, non-object or object. JSON syntax itself is not modelled.
- PasteParser.Collect, PasteParser.CollectStats: the result is a `map`, so the insertion order of the Python dictionary is not modelled. Which keys are present and their values are.
- The regular-expression extraction of `MatchDetector` (`extract_player_names`, `extract_stats_from_text`, `detect_live_pages`, `extract_score_from_page`): they need a regex engine.
- `format_number`: formatting a float as text is not modelled.
- The network, scraping and Streamlit pages (`url_scraper.py`, `pages/`, `app.py`): I/O and UI.
- Floating point: all rates are exact reals. Rounding, infinities and NaN are not modelled.
- Text.Lower, Text.Upper: case mapping covers ASCII letters only. Python maps all Unicode letters.
- MatchDetector.NormalizeStatValue: takes a number. The conversion of strings by `float()` and the test for `"%"` in the value's string form are left out.
- The snapshot's server is `Option<Player>`. The source treats every string other than "A" as B.
- Momentum.MomentumTracker.GetMomentumDelta: requires lastN >= 0. A negative `last_n` turns Python's negative indices into positive ones.
- Momentum.MomentumTracker.GetRollingPointWinProbability: requires windowSize > 0. In Python a window of 0 slices the whole history and then divides by zero.
- Momentum.RollingPointWinProbability: requires windowSize > 0, for the same division.
- Fields of the schema the core never reads (counts, timestamps, URL, ingestion notes) are not modelled.
