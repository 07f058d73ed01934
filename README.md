# cf-enhancer core, modelled in Dafny

cf-enhancer is a browser extension for Codeforces. This project models the parts of it that compute something, and proves what they promise.

- **Rating calculator** (`AccurateRatingCalculator`). It turns a contest's standings into predicted rating changes:
  - it resolves effective ratings and builds a histogram of them;
  - it convolves the histogram with the Elo win-probability table into a table of expected ranks (the "seed");
  - it ranks contestants by points and penalty;
  - it finds each delta by a binary search over ratings, then applies two balancing passes;
  - it finds each performance rating by a second binary search.
- **Rating predictor.** It reads ranks and scores from the standings page and parses actual rating changes. It builds prediction records from the calculator's results. It also covers rank titles, rank-change colouring and accuracy labels.
- **Standings colouriser.** It handles attempt counts read from cell titles and the highlight cookie. It derives CSS class names and detects the languages used on the page, with primary detection and a fallback.
- **Recommended problems.** It covers:
  - the rating window and the rating colours;
  - the solved set;
  - filtering and ranking the problem set;
  - the variety rule against repeating the last recommendations;
  - the Fisher–Yates shuffle;
  - the feature object with its cache.
- **Multi-account graph.** It builds the account list and the series. It covers the filter state (time range, rating range, hidden accounts), applying the filters, and the hex colour parser.
- **Options page.** The seven on/off options as a state machine: load, toggle, the dependent-option rule, reset, export and import.
- **Error handler.** The error record, the debug log that keeps the ten newest errors, and the wrappers that log and rethrow.

The calculator and the options page work in place in the source, so they are classes here:
- `RatingCalculator.Calculator` keeps its contestants, its `seed` array and its `adjustment` as fields. Each method is proved equal to a specification function (`RatingSeed`, `RatingRanks`, `RatingDeltas`).
- The properties are then lemmas about those functions.

Floating-point inputs are parameters:
- the win-probability table is `winProb: seq<real>`;
- `Math.sqrt` is `sqrt: real -> real`;
- `Math.log(n) * 10` is `popularity`.

Where a search is meant to find a threshold, the lemmas assume the monotonicity the algorithm relies on.

The operations follow the code as written, also where it departs from what it evidently intends. Three such departures are modelled as written, each with a corrected version beside it under "## Findings": the performance search, the pairing of predictions with rows and the rank-order table. Three more facts of the code:
- Tied contestants receive the worst position of their tie group (dist/features/accurateRatingCalculator.js:144-152), unlike standard competition ranking, which gives them the best.
- The effective rating uses `||`, so a rating of 0 also becomes 1400 (line 49).
- After the first balancing pass the deltas sum to a value in (-2n, 0). After both passes the sum is in (-12n, 0).

## Model

| member | source | states |
|---|---|---|
| RatingSeed.EffectiveRating | dist/features/accurateRatingCalculator.js:49 | a missing rating or a rating of 0 becomes 1400; any other rating is kept |
| RatingSeed.FromInput | dist/features/accurateRatingCalculator.js:44-53 | the working record copies handle, points, penalty and rating, takes the effective rating, and has no rank, delta or performance yet |
| RatingSeed.Histogram | dist/features/accurateRatingCalculator.js:77-85 | there are 6500 buckets, and bucket j holds the number of contestants whose effective rating plus 500 is j |
| RatingSeed.HistogramTotal | dist/features/accurateRatingCalculator.js:77-85 | the histogram counts exactly the contestants rated -500 .. 5999, once each, so its total is at most n |
| RatingSeed.Convolution | dist/features/accurateRatingCalculator.js:99-109 | the convolution of a and b has |a| + |b| - 1 entries |
| RatingSeed.SeedTable | dist/features/accurateRatingCalculator.js:88-93 | the seed has one entry per index of the convolution |
| RatingSeed.GetSeed | dist/features/accurateRatingCalculator.js:114-126 | outside the table the result is 1; inside, the seed minus the excluded rating's win probability, or the seed alone when that difference is outside the probability table |
| RatingSeed.ConvolutionIsWinSum | dist/features/accurateRatingCalculator.js:88-109 | at the index of rating x, the convolution of the table with the histogram is the expected number of contestants who beat x |
| RatingSeed.SeedIsExpectedRank | dist/features/accurateRatingCalculator.js:88-93 | the seed at rating x is one plus the expected number of contestants who beat x |
| RatingSeed.GetSeedExcludesSelf | dist/features/accurateRatingCalculator.js:114-126 | excluding a contestant's own rating removes exactly that contestant from the expected rank |
| RatingSeed.WinSumAntitone | dist/features/accurateRatingCalculator.js:30-35 | with a non-increasing probability table, fewer contestants are expected to beat a higher rating |
| RatingMath.TruncDiv | dist/features/accurateRatingCalculator.js:205 | `Math.trunc(a / b)`: the quotient rounded toward zero; the remainder has the sign of a and is smaller than b |
| RatingMath.RoundSqrt | dist/features/accurateRatingCalculator.js:215 | `Math.round(Math.sqrt(n))`: the whole number k with k - 1/2 <= sqrt(n) < k + 1/2 |
| RatingMath.TopCount | dist/features/accurateRatingCalculator.js:215 | the size of the top group is between 1 and n for n >= 1, and at most 4 round(sqrt(n)) |
| Search.LastTrue | dist/features/accurateRatingCalculator.js:181-188 | whatever the condition, the `left = mid` search stops inside its range where the condition holds (or at the low end) and the next value fails (or it is the high end) |
| Search.LastTrueDownwardClosed | dist/features/accurateRatingCalculator.js:177-191 | for a downward-closed condition the loop returns the largest value satisfying it, and the lower end when none does |
| Search.LastTrueUpwardClosed | dist/features/accurateRatingCalculator.js:241-250 | for an upward-closed condition the loop can only return an end of the range |
| Search.LastTrueMissesThreshold | dist/features/accurateRatingCalculator.js:241-250 | on -500 .. 6000 with the condition "at least 3000", the loop as written answers -500 |
| Search.FirstTrue | dist/features/accurateRatingCalculator.js:241-250 | the mirrored `right = mid` search, the one the performance loop is meant to be: whatever the condition, it stops where the condition holds (or at the high end) and the previous value fails (or it is the low end) |
| Search.FirstTrueUpwardClosed | dist/features/accurateRatingCalculator.js:241-250 | for an upward-closed condition the mirrored loop returns the smallest value satisfying it, and the upper end when none does |
| Search.FirstTrueFindsThreshold | dist/features/accurateRatingCalculator.js:241-250 | on the same condition the mirrored loop answers 3000 |
| Sorting.Sort | dist/features/accurateRatingCalculator.js:133-138 | `Array.prototype.sort` returns a permutation of its input |
| Sorting.SortSorted | dist/features/accurateRatingCalculator.js:198 | under a total preorder comparator, the result is in comparator order |
| RatingRanks.ScoreLeIsTotalPreorder | dist/features/accurateRatingCalculator.js:133-138 | the standings comparator (more points, then less penalty) orders every pair and is transitive |
| RatingRanks.Ranked | dist/features/accurateRatingCalculator.js:131-153 | after ranking, the same contestants remain, by handle, each once |
| RatingRanks.RankPerm | dist/features/accurateRatingCalculator.js:131-153 | a contestant's rank does not depend on the order of the standings |
| RatingRanks.RankAtGroupEnd | dist/features/accurateRatingCalculator.js:144-152 | in sorted standings, the last member of a tie group at position i gets rank i + 1 |
| RatingRanks.Rank | dist/features/accurateRatingCalculator.js:144-152 | the rank the backward scan gives a contestant is at most the field size, and at least 1 for a contestant of the field |
| RatingRanks.RanksAlongStandings | dist/features/accurateRatingCalculator.js:144-152 | along sorted standings, ranks never decrease, and position i has rank i + 1 or worse |
| RatingRanks.RankOneIffUniqueBest | dist/features/accurateRatingCalculator.js:144-152 | rank 1 goes to exactly the contestant who strictly beats everyone; a tie for first gets no rank 1 |
| RatingDeltas.NeededRating | dist/features/accurateRatingCalculator.js:177-191 | `rankToRating` returns a rating in 2 .. 6000 |
| RatingDeltas.SeedAtLeastDownwardClosed | dist/features/accurateRatingCalculator.js:183 | with a non-increasing probability table, the search condition "seed without self reaches rank" is downward closed |
| RatingDeltas.NeededRatingIsLargest | dist/features/accurateRatingCalculator.js:177-191 | `rankToRating` returns the largest rating in 2 .. 6000 whose expected rank among the others still reaches `rank`, and 2 when none does |
| RatingDeltas.RatingLeIsTotalPreorder | dist/features/accurateRatingCalculator.js:198 | the effective-rating comparator orders every pair and is transitive |
| RatingDeltas.SumShiftDeltas | dist/features/accurateRatingCalculator.js:208-210 | adding k to every delta adds n k to their sum |
| RatingDeltas.SecondInc | dist/features/accurateRatingCalculator.js:220 | the second increment lies in -10 .. 0; it is the top group's quotient when that is in range, and is clamped otherwise |
| RatingDeltas.Adjusted | dist/features/accurateRatingCalculator.js:196-227 | the adjustment keeps every contestant |
| RatingDeltas.AdjustedShiftsAll | dist/features/accurateRatingCalculator.js:196-227 | every final delta is the contestant's delta, in rating order, plus the stored adjustment, so differences between deltas are kept |
| RatingDeltas.FirstIncBalances | dist/features/accurateRatingCalculator.js:203-211 | after the first pass the deltas sum to a value in (-2n, 0) |
| RatingDeltas.SecondIncBalancesTop | dist/features/accurateRatingCalculator.js:214-226 | when the top quotient is not clamped, the second pass brings the top group's sum into (-k, k) |
| RatingDeltas.AdjustedSumBounds | dist/features/accurateRatingCalculator.js:196-227 | after both passes the deltas sum to a value in (-12n, 0) |
| RatingDeltas.PerformanceAsWritten | dist/features/accurateRatingCalculator.js:232-255 | the performance the calculator reports is `Infinity` exactly for rank 1, and otherwise a rating in -500 .. 6000 |
| RatingDeltas.PerformanceAsWrittenAtEnds | dist/features/accurateRatingCalculator.js:241-250 | when the adjusted delta does not grow with the rating, the search as written only ever answers -500 or 6000 |
| RatingDeltas.PerformanceOf | dist/features/accurateRatingCalculator.js:232-255 | corrected search: the performance is `Infinity` exactly for rank 1, and otherwise a rating in -500 .. 6000 |
| RatingDeltas.PerformanceIsThreshold | dist/features/accurateRatingCalculator.js:241-250 | corrected search: when the adjusted delta does not grow with the rating, the performance is the threshold, the delta being non-positive exactly at and above it |
| RatingCalculator.Outcome | dist/features/accurateRatingCalculator.js:42-71 | the calculation keeps one record per input contestant |
| RatingCalculator.Calculator.constructor | dist/features/accurateRatingCalculator.js:14-28 | a new calculator holds the given win-probability table, an empty seed, no contestants and adjustment 0 |
| RatingCalculator.Calculator.CalculateRatingChanges | dist/features/accurateRatingCalculator.js:42-71 | the five passes, the performance pass searching as written, leave the seed, the contestants and the adjustment equal to their specification functions, and return each record's public fields |
| RatingCalculator.Calculator.CalcSeed | dist/features/accurateRatingCalculator.js:76-94 | the histogram loop, the convolution and the +1 loop leave a fresh seed equal to `SeedTable` of the contestants |
| RatingCalculator.Calculator.Convolve | dist/features/accurateRatingCalculator.js:99-109 | the nested accumulation loop returns `Convolution(a, b)` |
| RatingCalculator.AssignRanks | dist/features/accurateRatingCalculator.js:140-152 | the backward scan over sorted standings gives each contestant the rank `Rank`: the number of contestants scoring at least as well, so a tied group shares its last position |
| RatingCalculator.Calculator.ReassignRanks | dist/features/accurateRatingCalculator.js:131-153 | the sort and the backward scan leave the contestants equal to `Ranked` of the old ones |
| RatingCalculator.Calculator.CalcDelta | dist/features/accurateRatingCalculator.js:158-163 | the result is `Delta` at the assumed rating |
| RatingDeltas.DeltaIsHalfWay | dist/features/accurateRatingCalculator.js:158-163 | `calcDelta` is half the way from the assumed rating to the needed rating, rounded toward zero: positive exactly when the needed rating is at least two above, negative exactly when at least two below, and the doubled delta lands within one of the needed rating |
| RatingCalculator.Calculator.CalcDeltas | dist/features/accurateRatingCalculator.js:168-172 | every contestant gets its delta at its own effective rating, and nothing else changes |
| Search.SearchLastTrue | dist/features/accurateRatingCalculator.js:178-190 | the `left = mid` / `right = mid - 1` loop returns `LastTrue`, which for a downward-closed condition is the largest value in range satisfying it (`Search.LastTrueDownwardClosed`) |
| Search.SearchFirstTrue | dist/features/accurateRatingCalculator.js:238-250 | the mirrored loop returns `FirstTrue`, which for an upward-closed condition is the smallest value in range satisfying it (`Search.FirstTrueUpwardClosed`) |
| RatingCalculator.Calculator.RankToRating | dist/features/accurateRatingCalculator.js:177-191 | the `while (left < right)` loop returns `NeededRating` |
| RatingCalculator.Calculator.AdjustDeltas | dist/features/accurateRatingCalculator.js:196-227 | the contestants become `Adjusted` of the old ones, and the adjustment becomes the sum of both increments |
| RatingCalculator.AddToDeltas | dist/features/accurateRatingCalculator.js:208-210 | adds `inc` to every delta and changes nothing else |
| RatingCalculator.Calculator.CalcPerformances | dist/features/accurateRatingCalculator.js:232-255 | every contestant gets `PerformanceAsWritten`: `Infinity` at rank 1, else the rating the `left = mid` search returns; nothing else changes |
| RatingCalculator.Calculator.SearchPerformance | dist/features/accurateRatingCalculator.js:238-252 | the search as written returns the last rating in -500 .. 6000 that the `left = mid` step would accept: the largest at which the adjusted delta is not positive, when that condition holds from -500 up to a bound |
| RatingCalculator.OutcomeIsPermutation | dist/features/accurateRatingCalculator.js:42-71 | the final records are the input's contestants, each once, with the input fields and effective rating as given |
| RatingCalculator.OutcomeSortedByRating | dist/features/accurateRatingCalculator.js:198 | the results come back ordered by effective rating, highest first, not in input order |
| RatingCalculator.OutcomeRanks | dist/features/accurateRatingCalculator.js:131-153 | every final rank is the number of contestants whose score is at least the contestant's own |
| RatingCalculator.OutcomeDeltaSum | dist/features/accurateRatingCalculator.js:196-227 | for a non-empty contest the final deltas sum to a value in (-12n, 0) |
| RatingCalculator.OutcomePerformance | dist/features/accurateRatingCalculator.js:232-255 | the performance is `Infinity` exactly for rank 1; every other performance is in -500 .. 6000 |
| RatingPredictor.RankOrderAsWritten | src/features/ratingPredictor.js:772-775 | the order table as written gives every abbreviation a value in 1 .. 8 |
| RatingPredictor.RankOrder | src/features/ratingPredictor.js:772-775 | the corrected order gives every abbreviation a value in 1 .. 10 |
| RatingPredictor.RankOrderMonotone | src/features/ratingPredictor.js:430-441 | a higher rating never gets a lower title, and different titles get different orders |
| RatingPredictor.RankAbbreviationEnds | src/features/ratingPredictor.js:430-441 | `getRankAbbreviation` gives "N" exactly below 1200 and "LGM" exactly from 3000 |
| RatingPredictor.StyleFollowsRating | src/features/ratingPredictor.js:743-766 | with the corrected order, the rank-change cell shows an upgrade exactly when the title changed and the rating went up, and a downgrade exactly when it went down |
| RatingPredictor.AsWrittenShowsPromotionAsDowngrade | src/features/ratingPredictor.js:772-775 | with the order as written, Expert to Candidate Master and International Grandmaster to Legendary Grandmaster are shown as downgrades |
| RatingPredictor.RankChange | src/features/ratingPredictor.js:597 | the text is "old→new" exactly when the titles differ, and the current title otherwise |
| RatingPredictor.RowRank | src/features/ratingPredictor.js:382 | a row's rank is never 0 |
| RatingPredictor.RowRankReadsPrintedRank | src/features/ratingPredictor.js:382 | a positive rank printed in decimal, with white space around it, reads back as itself |
| RatingPredictor.RowRankFallsBack | src/features/ratingPredictor.js:382 | when the trimmed text has no `0x` prefix after its optional sign and no digits or only zeros there, the rank is the row number |
| RatingPredictor.RowRankHex | src/features/ratingPredictor.js:382 | "0x1A" is read in base 16 as 26, and a bare "0X" falls back to the row number |
| Text.ParseIntPrefix | src/features/ratingPredictor.js:382 | `parseInt` without a radix, on a string without leading white space, is a number exactly when, after the optional sign, a hexadecimal digit follows a `0x`/`0X` prefix or, without that prefix, a decimal digit comes first; a `-` gives a number at most 0, otherwise it is at least 0 |
| Text.ParseIntPrefixOfHex | src/features/ratingPredictor.js:382 | behind the optional sign and `0x`/`0X`, the number is the signed value of the hexadecimal digits, or NaN when there are none |
| Text.ParseHexOfDigits | src/features/ratingPredictor.js:382 | behind `0x`, a run of hexadecimal digits followed by anything that is not one reads as the run's base-16 value |
| Text.TrimPadded | src/features/ratingPredictor.js:382 | `trim` of a text padded with white space on both sides gives the text back |
| RatingPredictor.ParseScoreText | src/features/ratingPredictor.js:401-408 | a score printed as "points" or "points (penalty)" parses back to those values, with penalty 0 when absent |
| RatingPredictor.ExtractScore | src/features/ratingPredictor.js:397-417 | the score comes from the last cell, from the third on, that reads as a score; with none, points are max(0, 100 - rank) and penalty is 0 |
| RatingPredictor.SignedNumberInChangeText | src/features/ratingPredictor.js:474-477 | a printed non-zero change "+n" or "-n" is read back as itself |
| RatingPredictor.SignedNumberInStopsAtDigits | src/features/ratingPredictor.js:474-477 | only the `[+-]\d+` match is read, so "+0x1A" gives 0 and not 26 |
| RatingPredictor.FirstPlausibleChange | src/features/ratingPredictor.js:471-483 | the loop returns `FirstPlausible`: the change of the first text that holds one of at most 500 either way, and none exactly when no text does |
| RatingPredictor.FirstPlausibleFacts | src/features/ratingPredictor.js:471-483 | `FirstPlausible` is none exactly when no text holds a plausible change; otherwise it is the change of the first text that does |
| RatingPredictor.RowChangeFacts | src/features/ratingPredictor.js:471-499 | a row's change is within ±500; a plausible title change wins over the element texts; a row shows none exactly when neither its titles nor its trimmed element texts hold one |
| RatingPredictor.ChangesFacts | src/features/ratingPredictor.js:459-504 | every recorded change is shown by a row with that handle; every handle with a row showing a change is recorded; the last such row of a handle decides its entry |
| RatingPredictor.ChangesShown | src/features/ratingPredictor.js:459-504 | every recorded change is shown by some row with that handle |
| RatingPredictor.ChangesRecorded | src/features/ratingPredictor.js:459-504 | every handle with a row showing a change is recorded |
| RatingPredictor.ChangesLastDecides | src/features/ratingPredictor.js:459-504 | the last row of a handle that shows a change decides that handle's entry |
| RatingPredictor.ChangesStep | src/features/ratingPredictor.js:459-504 | one more row sets its handle to its change when it shows one and leaves the map alone otherwise |
| RatingPredictor.ChangesBounded | src/features/ratingPredictor.js:479 | every recorded change is within ±500 |
| RatingPredictor.ReadRow | src/features/ratingPredictor.js:471-499 | the two inner loops of a row together yield `RowChange`: the title change when there is one, else the element-text change |
| RatingPredictor.ExtractActualChanges | src/features/ratingPredictor.js:446-506 | before finalisation there are no changes; afterwards the map is `Changes` of the rows, each row showing a change setting it for its handle in page order, and every entry is within ±500 |
| RatingPredictor.KnownRating | src/features/ratingPredictor.js:580 | the calculator gets the stored rating when present and non-zero, and none otherwise |
| RatingPredictor.PredictionsAsWritten | src/features/ratingPredictor.js:588-612 | the pairing as written makes one prediction per calculator result |
| RatingPredictor.FindByHandle | src/features/ratingPredictor.js:588-590 | finds a participant with the handle, and none exactly when no participant has it |
| RatingPredictor.PredictionOfCarries | src/features/ratingPredictor.js:598-610 | a prediction carries its result's handle, change, rank and performance, and its participant's row index and table rank |
| RatingPredictor.PredictionRatings | src/features/ratingPredictor.js:591-597 | the current rating is the calculator's effective rating; the new rating is current plus change; the rank-change text names both titles exactly when they differ |
| RatingPredictor.PredictionsByHandleMatchRows | src/features/ratingPredictor.js:588-612 | with the corrected pairing, every prediction carries the row index and table rank of a participant with its own handle |
| RatingPredictor.PredictionsByHandleComplete | src/features/ratingPredictor.js:588-612 | when every result's handle is listed, there is one prediction per result, in order, carrying that result's fields |
| RatingPredictor.CalculateRatingChanges | src/features/ratingPredictor.js:572-615 | the predictions are `PredictionsAsWritten` of the calculator's results: one per result, the k-th paired with the k-th participant row, as the source pairs them |
| RatingPredictor.PairByPosition | src/features/ratingPredictor.js:588-612 | the loop yields `PredictionsAsWritten`: the k-th result paired with `participants[k]` |
| RatingPredictor.PredictionsAsWrittenCarry | src/features/ratingPredictor.js:588-612 | each prediction as written carries its result's handle, delta, expected rank and performance, and the row index and rank of the participant at the same position |
| RatingPredictor.PredictionsCoverParticipants | src/features/ratingPredictor.js:572-615 | corrected pairing: exactly one prediction per participant |
| RatingPredictor.CalculatorShape | src/features/ratingPredictor.js:576-585 | the calculator's results are the participants' contestants, rearranged into rating order |
| RatingPredictor.FirstMovesWhenOutrated | dist/features/accurateRatingCalculator.js:198 | if anyone is rated above the first contestant, the rating-ordered output does not start with that contestant |
| RatingPredictor.AsWrittenPairsWrongRow | src/features/ratingPredictor.js:588-590 | whenever a later participant is rated above the first row's, the first prediction as written gets the first row's index and rank but another handle |
| RatingPredictor.AccuracyMonotone | src/features/ratingPredictor.js:712-721 | the accuracy label depends only on the size of the gap, and a larger gap never earns a better label |
| RatingPredictor.AccuracyOf | src/features/ratingPredictor.js:712-721 | the label is "excellent" exactly when the prediction is within 10 of the actual change, and "poor" exactly when it is more than 50 off |
| ColorizeStandings.LastIndexBefore | src/features/colorizeStandings.js:684-694 | the backward scan finds the last occurrence before a position, or -1 when there is none |
| ColorizeStandings.AttemptsInLayout | src/features/colorizeStandings.js:684-698 | the attempts text is exactly a non-empty run without '+', after the last '+' (or at the start) and ending at the title's last ',' |
| ColorizeStandings.AnnotateCell | src/features/colorizeStandings.js:679-706 | the two backward scans and the update produce `Annotated`: " (attempts)" is appended only when the comma is past index 0, attempts exist and there is a `.cell-time` |
| ColorizeStandings.AddAttemptCounts | src/features/colorizeStandings.js:678-707 | every cell's `.cell-time` text is annotated from its own title |
| ColorizeStandings.GetCookie | src/features/colorizeStandings.js:750-760 | returns the value of the first `;` segment that, trimmed, starts with `name=`, and none exactly when no segment does |
| ColorizeStandings.AlnumLowerChars | src/features/colorizeStandings.js:122 | lowercasing and stripping leaves only a-z and 0-9 and never lengthens the text |
| ColorizeStandings.ClassNameShape | src/features/colorizeStandings.js:122 | a class name is "l-" followed by lower-case letters and digits, and deriving it again from its tail gives it back |
| ColorizeStandings.EntryIndex | src/features/colorizeStandings.js:118-136 | looking a language up in the map finds its entry, or none exactly when it is absent |
| ColorizeStandings.TallyCounts | src/features/colorizeStandings.js:99-138 | the map has one entry per language; each counts exactly its cells, has its class name, and has palette slot k % 15 in first-seen order |
| ColorizeStandings.PlainPrefixLen | src/features/colorizeStandings.js:181 | the fallback's prefix is the longest one free of `(`, `,`, `;` and `:` |
| ColorizeStandings.Counted | src/features/colorizeStandings.js:146 | only languages with at least one cell remain |
| ColorizeStandings.CountCell | src/features/colorizeStandings.js:118-136 | one cell's update of the map and the colour counter is `Bump`, and the counter stays the map's size |
| ColorizeStandings.DetectLanguagesFromPage | src/features/colorizeStandings.js:69-168 | the primary detection loop returns `LanguageSpecs`: the tallied languages, most used first, or the fallback's specifications when none is found |
| ColorizeStandings.DetectLanguagesFallback | src/features/colorizeStandings.js:170-209 | the fallback loop returns `FallbackSpecs`: the tallied plain prefixes in first-seen order, in the neutral style |
| ColorizeStandings.TallySummarises | src/features/colorizeStandings.js:99-146 | the tally is its own count filter, and summarises the languages: distinct entries, exact counts, class names, every language present |
| ColorizeStandings.PrimaryEntriesFacts | src/features/colorizeStandings.js:145-153 | the primary map is sorted by count, most used first; it is a reordering of the tally and summarises the detected languages |
| ColorizeStandings.FallbackSpecsFacts | src/features/colorizeStandings.js:199-201 | the fallback gives one specification per language it read, in the neutral style, each counting exactly its cells |
| ColorizeStandings.PrimaryLanguagesNone | src/features/colorizeStandings.js:99-118 | no language is found exactly when no cell yields one |
| ColorizeStandings.UsesFallbackExactlyWhenNothingDetected | src/features/colorizeStandings.js:157-160 | the fallback is used exactly when no cell yields a language; otherwise the primary specifications are used and there is at least one |
| ColorizeStandings.FallbackLanguageShape | src/features/colorizeStandings.js:181-188 | a fallback language is longer than one character, holds no `(`, `,`, `;` or `:`, and has no two white-space characters side by side |
| ColorizeStandings.ToArray | src/features/colorizeStandings.js:335-337 | a single name becomes the one-element array of that name; an array is returned as it is |
| ColorizeStandings.DisplayName | src/features/colorizeStandings.js:326-328 | the fourth element when the spec has one; otherwise the first of the names, or none for an empty array |
| ColorizeStandings.DetectedSpecsShape | src/features/colorizeStandings.js:145-153 | every detected specification is for one language: shown under that name, listing only it, with its class name |
| RecommendedQuestions.TargetRating | src/features/recommendedQuestions.js:498-507 | with no rating (or 0) the window is 800 .. 1400; otherwise it is max(800, r - 200) .. r + 300, so the lower end is never below 800 |
| RecommendedQuestions.TargetRatingNonEmpty | src/features/recommendedQuestions.js:498-507 | the window holds a rating exactly when there is no rating or it is at least 500; from 1000 up it surrounds the user's rating |
| RecommendedQuestions.RatingColorByThresholds | src/features/recommendedQuestions.js:759-767 | a rating's colour is the one reached after as many steps as thresholds it passes; from 2400 on it is red |
| RecommendedQuestions.ProblemIdInjective | src/features/recommendedQuestions.js:481 | problem keys `${contestId}${index}` name one problem, as long as indices start with a letter |
| RecommendedQuestions.GetUserSolvedProblems | src/features/recommendedQuestions.js:469-493 | the set holds exactly the keys of accepted submissions; it is empty without a handle, on a failed request or on a non-OK reply |
| RecommendedQuestions.StatsMapLookup | src/features/recommendedQuestions.js:535-540 | a key is present exactly when some statistics entry has it, and maps to the last such entry |
| RecommendedQuestions.Score | src/features/recommendedQuestions.js:562-578 | a score is at most 100 + 50 + 35 |
| RecommendedQuestions.ScoredIsFilter | src/features/recommendedQuestions.js:543-578 | the candidates are exactly the eligible problems: rated in the window, unsolved, more than 50 solvers; each has its statistics and score |
| RecommendedQuestions.RankedCandidates | src/features/recommendedQuestions.js:543-583 | every ranked candidate is an eligible problem of the set, every eligible problem is ranked, and higher scores come first |
| RecommendedQuestions.NotRecentSubMultiset | src/features/recommendedQuestions.js:588-592 | dropping recent problems keeps a sub-multiset of the candidates |
| RecommendedQuestions.NotRecentExcludes | src/features/recommendedQuestions.js:588-592 | no remaining candidate was recommended last time |
| RecommendedQuestions.NotRecent | src/features/recommendedQuestions.js:588-592 | no longer than the candidates, and every candidate not recommended last time is kept |
| RecommendedQuestions.VarietyRule | src/features/recommendedQuestions.js:585-595 | with 10 or more fresh candidates no recent problem is offered again, otherwise all candidates stay; only candidates are offered, and with no history all of them |
| RecommendedQuestions.ShuffleArray | src/features/recommendedQuestions.js:749-754 | the Fisher–Yates swaps leave the array a permutation of itself, whatever indices are drawn |
| RecommendedQuestions.RecommendedQuestionsFeature.constructor | src/features/recommendedQuestions.js:9-19 | the feature starts with no rating, no cached problem set and no last recommendations |
| RecommendedQuestions.RecommendedQuestionsFeature.GetRecommendedProblems | src/features/recommendedQuestions.js:512-611 | on failure nothing is recommended and nothing changes; otherwise the set is cached, and min(10, min(30, final)) problems drawn from the first 30 final candidates are returned and remembered |
| RecommendedQuestions.RecommendedQuestionsFeature.RefreshRecommendations | src/features/recommendedQuestions.js:711-715 | forgets the last recommendations, then recommends from the first 30 of all ranked candidates, holding none back; the cache is refreshed as the fetch allows and the user rating is kept |
| MultiGraph.AccountList | dist/features/multiGraph.js:574-576 | the list always starts with the page's own handle |
| MultiGraph.AccountListOfNames | dist/features/multiGraph.js:574-576 | names typed with single spaces come back as typed, after the page's handle |
| MultiGraph.BuildSeries | dist/features/multiGraph.js:718-730 | there is one series per account |
| MultiGraph.BuildSeriesLabels | dist/features/multiGraph.js:718-730 | each series is labelled with its account's handle and has one point per contest |
| MultiGraph.BuildSeriesColors | dist/features/multiGraph.js:713-730 | two accounts share a colour exactly when their positions agree modulo ten |
| MultiGraph.TimeRangesNested | dist/features/multiGraph.js:1328-1337 | the 1-year range lies within the 2-year, which lies within the 3-year; "all" keeps every point; a custom range with both ends keeps exactly the points between them, ends included |
| MultiGraph.RatingRangesDisjoint | dist/features/multiGraph.js:1340-1350 | the named rating ranges do not overlap, and together cover every rating except 2300 .. 2399; "all" holds every non-negative rating |
| MultiGraph.KeptSeriesSound | dist/features/multiGraph.js:1353-1378 | every series kept is not hidden, is not empty, and holds exactly the passing points of a given series |
| MultiGraph.KeptSeriesComplete | dist/features/multiGraph.js:1353-1378 | every visible series with at least one passing point is kept, trimmed to those points |
| MultiGraph.ApplyFiltersSeries | dist/features/multiGraph.js:1353-1378 | the series kept are exactly the trimmed series of visible accounts that still have a point |
| MultiGraph.ApplyFiltersShape | dist/features/multiGraph.js:1322-1390 | no more series or accounts come out than go in, and every series kept is non-empty and not hidden |
| MultiGraph.ApplyFiltersAccounts | dist/features/multiGraph.js:1381-1384 | the accounts kept are exactly the given accounts that are not hidden and still have a series |
| MultiGraph.DefaultFiltersKeepAll | dist/features/multiGraph.js:1108-1116 | with the initial filters, every series of non-negative ratings is kept whole and in order |
| MultiGraph.ToggleFlips | dist/features/multiGraph.js:1176-1182 | a legend click flips the clicked account's visibility and no other; a second click restores the set |
| MultiGraph.GraphFilters.constructor | dist/features/multiGraph.js:1108-1116 | the graph starts with the initial filters |
| MultiGraph.GraphFilters.ToggleAccount | dist/features/multiGraph.js:1176-1182 | the click handler toggles the account in the hidden set and changes nothing else |
| MultiGraph.GraphFilters.ResetFilters | dist/features/multiGraph.js:1234-1243 | every filter goes back to its initial value |
| MultiGraph.GraphFilters.UpdateFilters | dist/features/multiGraph.js:1201-1229 | controls present overwrite their filters; a custom range takes both dates, extending the second to the end of its day, or falls back to "all"; any other range clears the custom dates |
| MultiGraph.HexPair | dist/features/multiGraph.js:1718-1720 | a pair of hex digits reads as a value in 0 .. 255 |
| MultiGraph.HexToRgb | dist/features/multiGraph.js:1715-1722 | every component of the result is in 0 .. 255 |
| MultiGraph.HexRoundTrip | dist/features/multiGraph.js:1715-1722 | any colour printed as `#rrggbb`, or without the `#`, reads back as itself |
| MultiGraph.HexToRgbRejects | dist/features/multiGraph.js:1715-1722 | anything other than six hex digits after an optional `#` gives the fallback colour (102, 126, 234) |
| OptionsPage.Exported | src/optionsPage.js:397-402 | the export has one entry per option |
| OptionsPage.ToggleFacts | src/optionsPage.js:162-166 | toggling the same option twice restores the values |
| OptionsPage.Toggled | src/optionsPage.js:162-166 | a toggle keeps the set of options, flips a known option and leaves every other option as it was |
| OptionsPage.Dependent | src/optionsPage.js:220-233 | the dependent update establishes "colouring off implies attempts off", keeps the set of options and touches nothing but the attempt counts |
| OptionsPage.Imported | src/optionsPage.js:430-436 | an import keeps the set of options |
| OptionsPage.DependentFacts | src/optionsPage.js:220-233 | once the dependent rule holds, the dependent update changes nothing |
| OptionsPage.ImportedFacts | src/optionsPage.js:430-436 | an option with no boolean entry keeps its value, and one with boolean entries takes the last |
| OptionsPage.FirstThrowing | src/optionsPage.js:430-436 | the entries before the returned position do not throw, and the entry at it does |
| OptionsPage.SavedByImportFacts | src/optionsPage.js:430-436 | every option a boolean entry names is saved with the value the import gives it; every other stored key keeps its value |
| OptionsPage.SavedByImportSets | src/optionsPage.js:430-436 | every option a boolean entry names is saved with the value the import gives it |
| OptionsPage.SavedByImportKeeps | src/optionsPage.js:430-436 | every key no boolean entry names as an option keeps its stored value |
| OptionsPage.ExportedImportsWhole | src/optionsPage.js:397-436 | importing an export never aborts: no exported entry names an inherited property |
| OptionsPage.ExportImport | src/optionsPage.js:397-436 | importing what was exported gives the same values back |
| OptionsPage.GetStorageOptions | src/optionsPage.js:102-119 | every requested key gets its stored value, or true when none is stored; a failed read gives nothing |
| OptionsPage.OptionsPageManager.constructor | src/optionsPage.js:10-19 | the page starts with every option on except dark mode |
| OptionsPage.ApplyStored | src/optionsPage.js:85-90 | after the loop every option holds the value read for it, and no other key appears |
| OptionsPage.OptionsPageManager.LoadStoredValues | src/optionsPage.js:80-94 | every option takes its stored value, or true; with nothing stored every option is on, dark mode included; a failed read changes nothing |
| OptionsPage.OptionsPageManager.UpdateDependentOptions | src/optionsPage.js:220-233 | the options become `Dependent` of the old ones and the attempt option is greyed out exactly while colouring is off; storage becomes `DependentSaved`: the nested toggle saves the attempt counts as off when the rule switches them off, and a failed nested save, whose error the toggle swallows, leaves storage as it was |
| OptionsPage.OptionsPageManager.ToggleOption | src/optionsPage.js:160-185 | an unknown key changes nothing; a known option flips; a failed save leaves storage and the grey flag alone; after a successful save storage is the old storage with the flipped value, then the dependent write, which a failed nested save skips; the dependent rule holds, the grey flag follows colouring, and the toggled option is stored with its value unless it is the attempt counts whose nested save failed |
| OptionsPage.SwitchAllOn | src/optionsPage.js:251-256 | after the loop over a cleared storage every option is on and exactly the options are saved, each as on |
| OptionsPage.OptionsPageManager.ResetAllOptions | src/optionsPage.js:238-267 | nothing changes unless confirmed; then every option is on and saved, and nothing is greyed out |
| OptionsPage.OptionsPageManager.ExportSettings | src/optionsPage.js:397-402 | the settings object holds every option with its current value |
| OptionsPage.ImportEntries | src/optionsPage.js:430-436 | the loop applies the entries up to the first one that names an inherited property with a boolean value, and reports whether it got through all of them; the options are `Imported` of that prefix and storage is `SavedByImport` of it |
| OptionsPage.OptionsPageManager.ImportSettings | src/optionsPage.js:425-441 | an unreadable file changes nothing; an entry naming an inherited property with a boolean value aborts the import, leaving the earlier entries applied and saved and the dependent rule not run; otherwise all known boolean entries are applied and saved in order, then the dependent rule, which then holds, its nested save as `DependentSaved` gives it, with the grey flag following colouring |
| ErrorHandler.ErrorInfoOf | src/utils/errorHandler.js:8-16 | the record holds the message, or the thrown value itself when the message is empty, with its component, stack and context |
| ErrorHandler.LastTen | src/utils/errorHandler.js:30 | `slice(-10)` keeps the last min(10, n) entries, a suffix of the list |
| ErrorHandler.LastTenAppend | src/utils/errorHandler.js:26-32 | storing one more error keeps the same ten as a full log would end with; the newest is last; nothing is dropped while fewer than ten were stored |
| ErrorHandler.ErrorLog.GetStoredErrors | src/utils/errorHandler.js:39-45 | returns the stored list; gives [] when the read fails, and when nothing was stored gives [] and stores [] unless that default write fails |
| ErrorHandler.ErrorLog.StoreError | src/utils/errorHandler.js:24-37 | the log becomes the last ten entries of the stored list plus the new record; a failed write leaves what the read left, which is [] only when the read found nothing and its default write succeeded |
| ErrorHandler.ErrorLog.ClearStoredErrors | src/utils/errorHandler.js:47-54 | the log becomes empty, unless the write fails |
| ErrorHandler.ErrorLog.LogError | src/utils/errorHandler.js:7-22 | the record built from the error is stored in the bounded log |
| ErrorHandler.ErrorLog.CallWrapped | src/utils/errorHandler.js:56-82 | the wrapped call's outcome is passed on unchanged; a returned value leaves the log alone; a thrown error is logged with the function's name and argument count, and when the write fails the log is left as read, created empty only when it was readable, absent and the default write succeeded |

## Left out

- Floating point: the `Math.pow` win-probability table, `Math.sqrt` in `calcDelta` and `Math.log` in the recommendation score are parameters (`winProb`, `sqrt`, `popularity`). The concrete seed values are not computed.
- JavaScript numbers are modelled as unbounded integers and exact reals. The inputs involved (ratings, points, times in milliseconds) stay far below 2^53.
- `null` fields: a rank or delta that is still `null` before its pass is 0. A performance is `Unset`, `Infinite` or `Rated`.
- RatingDeltas.Adjustment: for an empty contest the source divides by zero and stores `NaN`. The model stores 0, which nothing reads.
- RatingSeed.Convolution: the contract states only the length. The entries are the sums in `ConvPartial`, and `ConvolutionIsWinSum` proves what they mean.
- RatingSeed.SeedTable: the contract states only the length. `SeedIsExpectedRank` and `GetSeedExcludesSelf` state its entries.
- RatingCalculator.Outcome: the contract states only the length. The `Outcome…` lemmas state its order, ranks, deltas and performances.
- RatingPredictor.RankOrderAsWritten: the contract gives only the range. `AsWrittenShowsPromotionAsDowngrade` exhibits its effect.
- Page reading is abstracted:
  - The standings rows arrive as cell texts.
  - Each participant's row arrives as its element texts and rating titles (`RowTexts`).
  - The DOM search for a handle's row is not modelled.
- `checkIfContestFinalized` and `checkIfLiveContest` are DOM heuristics. Finalisation is a parameter.
- `estimateRatingFromColor` and `fetchParticipantRatings` guess ratings from page colours. The ratings map is a parameter.
- `extractLanguageFromTitle` is an ordered regular-expression table, modelled as the parameter `extract`. `matchesLanguage` is not modelled.
- ColorizeStandings.AlnumLower lowercases ASCII letters only. A non-ASCII character whose lower case is an ASCII letter (the Kelvin sign, for example) is dropped instead of kept.
- The fallback language tally reuses the primary tally, so its palette slot is computed but unused, as the fallback uses one neutral style.
- `getCookie`: the `Codeforces.getCookie` path calls page code that is not part of this model. `setCookie` and the highlight click handlers are left out, because they are DOM and cookie writes with dates.
- The random index of `shuffleArray` is an arbitrary choice in 0 .. i.
- Network I/O:
  - the `user.status` and `problemset.problems` requests are parameters (`reply`, `fetched`), with `None` for a failed request;
  - `fetchWithTimeout`, `getUserInfo` and the multi-account fetches are left out.
- Date parsing in `updateFilters` is left out: the custom dates are given as the start of their day in milliseconds, `None` when empty. The clock (`Date.now()`) is the parameter `now`.
- Rendering is left out: the canvas graph, legends, panels, dialogs, themes, the dark-mode and hide-solved features, and all CSS and hover effects.
- Storage:
  - chrome.storage is a map field;
  - read and write failures are boolean parameters where the source handles them;
  - a failing save in `resetAllOptions` and `importSettings` is not modelled;
  - the popup and the storage wrapper module are not part of this model.
- `storeError` runs asynchronously. Two overlapping calls could lose an entry; the model runs each call to completion. Console output is left out.
- Strings are sequences of Unicode scalar values, while JavaScript strings are UTF-16 code units. A character outside the Basic Multilingual Plane has length 1 here and 2 in JavaScript. So ColorizeStandings.FallbackLanguage drops a name that is one such character, where the source's `language.length > 1` keeps it.
- OptionsPage.OptionsPageManager.ImportSettings: an entry that names an inherited property aborts the import, as in the source. Before it throws, the source writes the property's `value` onto that inherited object (for example `Object.prototype` for `__proto__`). That write is not modelled.
- The missing-standings-table early return of `extractActualRatingChanges` is not modelled: the rows are given.
- The superseded heuristic predictor in dist/features/ratingPredictor.js and the build scripts are not part of this model.

## Findings

| source | as written | input that shows it | evidently intended | confidence | as-written member | corrected member |
|---|---|---|---|---|---|---|
| dist/features/accurateRatingCalculator.js:241-250 | the performance search moves `left = mid` when `calcDelta(c, mid) + adjustment <= 0`, a search for the last value of a downward-closed condition | the delta does not grow with the assumed rating, so the condition is upward closed; with a threshold at 3000 the search answers -500 (and in general only -500 or 6000) | the smallest rating at which the adjusted delta is not positive | high that the search runs the wrong way; not executed | RatingDeltas.PerformanceAsWrittenAtEnds | RatingDeltas.PerformanceIsThreshold |
| src/features/ratingPredictor.js:588-590 | result `index` is paired with `participants[index]`, but the calculator returns results in effective-rating order | two participants where the second row is rated higher: the first prediction carries the first row's index and rank with the second participant's handle | pair each result with the participant of the same handle | high; not executed | RatingPredictor.AsWrittenPairsWrongRow | RatingPredictor.PredictionsByHandleComplete |
| src/features/ratingPredictor.js:772-775 | the rank-order table has no "CM" or "LGM", so both fall back to 1 | an Expert at 1850 who gains 60 becomes a Candidate Master, and the cell is coloured as a downgrade | order every title `getRankAbbreviation` can return, lowest first | high; not executed | RatingPredictor.AsWrittenShowsPromotionAsDowngrade | RatingPredictor.StyleFollowsRating |
