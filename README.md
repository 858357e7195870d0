# Dice Monte Carlo toolkit, modelled in Dafny

The toolkit simulates rolls of weighted, labelled dice and summarises the
outcomes. It comes in two variants, which differ in behaviour and are
modelled as two separate modules:

- `Notebook` models the notebook `montecarlo.py`. Its `Die` keeps a weight
  per face and rolls one face per call of the sampler. Its `Game` plays
  `rolls` rounds. In each round every die is rolled once, and the game keeps
  one record per round. Its `Analyzer` derives three things from the records
  of one game: per-die face counts, a jackpot indicator per roll, and a
  table of combination counts.
- `Package` models the package `montecarlo/montecarlo.py`. Its `Die` keeps a
  (face, weight) table. Its `Game` rolls each die `times` times in turn and
  lays the outcomes out die-major in one list. It then pivots that list
  into a roll × die table. Its `Analyzer` replays a list of games to count
  the combinations of each game and to list jackpots.

Shared pieces sit in helper modules:

- `Common`: results, errors and weight sums.
- `Counting`: `value_counts`, `drop_duplicates`, `nunique` and `set`, written out.
- `Sorting`: `sorted` and tuple comparison.
- `Weights`: weight updates and the sampler oracle.
- `Layout`: block-offset index arithmetic for die-major and roll-major lists.

The sampler is not modelled as a probability distribution. Every roll
receives its draws from the caller. A draw is the position of the chosen
face, and the only constraint on it is that the face it names has a
positive weight. `DataFrame.sample` guarantees that much. `random.choices`
guarantees it from Python 3.9 on, when its weights are not negative. The
refusals of the samplers are modelled:

- `random.choices` refuses a die without faces and weights whose sum is not
  positive. This is its behaviour from Python 3.9 on; see
  `Notebook.Die.SamplerError` under "Left out".
- `DataFrame.sample` refuses a negative count, a negative weight and weights that sum to zero.

Faces are a generic type with equality. The notebook's combination table
sorts faces, so it also takes a comparison that is a total order.

The state that the source changes in place is modelled as fields of classes:

- the weight column of a die;
- the records of a notebook game;
- `_dice_play` of a package game;
- `combo_df` of a package analyzer.

The loops of `roll`, `play` and the analyzer methods are methods with
loop invariants. Each is proved against a function that states the
result it must produce.

The notebook analyzer calls `.apply` without `axis=1` for the jackpot and
the combination table (montecarlo.py:296, montecarlo.py:305), so the code
as written applies the lambda to each die column. The docstrings, and the
package's `axis=1`, describe a per-roll computation. The model follows the
per-roll reading; a comment in `notebook.dfy` records the divergence.

The notebook's combination counts add up to the number of distinct rolls,
not the number of rolls. `drop_duplicates` runs before the rows are sorted
and counted (montecarlo.py:305). A description of the toolkit as counting
every roll would disagree with this. The model follows the code, and
`Notebook.CombosTotal` states the sum.

## Model

| member | source | states |
|---|---|---|
| Notebook.Die.constructor | montecarlo.py:36-39 | the die has exactly the given faces, each with weight 1.0 |
| Notebook.Die.ValidateFace | montecarlo.py:41-48 | passes exactly when the face is in the index, else fails with `ValueError` |
| Notebook.Die.ValidateWeight | montecarlo.py:50-60 | a numeric weight is returned unchanged; a string `float` cannot parse fails with `ValueError`; a value of a type `float` does not take (such as `None`) fails with the `TypeError` that escapes the `except ValueError` |
| Notebook.Die.ChangeWeight | montecarlo.py:62-70 | an unknown face (`ValueError`), then an unparsable weight (`ValueError`) or one of the wrong type (`TypeError`), fails and leaves every weight as it was; otherwise the face's weight becomes the new one and no other weight changes |
| Notebook.Die.SamplerError | montecarlo.py:83 | the sampler can draw exactly when the die has faces and its weights sum to a positive number |
| Notebook.Die.Choose | montecarlo.py:83 | one draw: the sampler's refusal, or the face at the drawn position, whose weight is positive |
| Notebook.Die.Roll | montecarlo.py:72-86 | fewer than one roll fails; otherwise the sampler's refusal, or exactly `rolls` faces, the faces at the drawn positions in order |
| Notebook.Die.ShowFacesAndWeights | montecarlo.py:88-94 | the (face, weight) table row for row with the die's index |
| Notebook.Game.constructor | montecarlo.py:162-169 | a game holds the given dice and no results |
| Notebook.Game.Table | montecarlo.py:177-185 | one record per roll, roll numbers 1, 2, ... in order, and entry `d` of each record is the face die `d` drew for that roll |
| Notebook.Game.RollEach | montecarlo.py:180-183 | one round fails exactly when some die cannot be rolled, with the failure of the first such die; otherwise one face per die, in die order |
| Notebook.Game.RollAll | montecarlo.py:177-184 | the rounds fail exactly when there is at least one roll and some die cannot be rolled, with the first such die's failure; otherwise the records are `Table(draws)` |
| Notebook.Game.Play | montecarlo.py:171-185 | a successful play replaces the stored records with `Table(draws)`; a failed one keeps the old records; the records stay well formed with every entry a face of its die |
| Notebook.Game.ShowResults | montecarlo.py:187-198 | any form other than "wide" and "narrow" fails; an unplayed game and one played for no rolls fail; "wide" gives the records and "narrow" their melted form |
| Notebook.DieColumns | montecarlo.py:196 | one column per die, each with one narrow row per roll carrying that roll's number, the die number and the face |
| Notebook.Melt | montecarlo.py:196 | `melt` of the records has one narrow row per (roll, die) pair: rolls × dice rows |
| Notebook.MeltBlocks | montecarlo.py:196 | roll `r` of die `d` sits at `Offset(rolls, d, r)` of the narrow form, which has rolls × dice rows |
| Notebook.MeltAt | montecarlo.py:193-198 | the narrow form has rolls × dice rows, die-major: position `k` holds die `k / rolls + 1` with the face of roll `k % rolls` |
| Notebook.RollData | montecarlo.py:274 | the records without their roll numbers, row for row |
| Notebook.FaceCountsFor | montecarlo.py:287 | per key, one count per die column: the number of rolls in which that die shows the key |
| Notebook.FaceCounts | montecarlo.py:287-288 | each row's entry in column `c` counts the face in die column `c` |
| Notebook.FaceCountsListsSeenFaces | montecarlo.py:287-288 | every face rolled anywhere has exactly one row of the face-count table |
| Notebook.FaceCountsOnlySeenFaces | montecarlo.py:287-288 | every row of the face-count table is a face rolled somewhere |
| Notebook.FaceCountsTotals | montecarlo.py:287-288 | a face absent from a column counts 0 there and a present one at least 1, and each column's counts sum to the number of rolls |
| Notebook.ColumnTotalIsTotalCount | montecarlo.py:287-288 | a column of the face-count table sums to the total of that column's value counts |
| Notebook.JackpotOf | montecarlo.py:296 | `nunique() == 1` of a roll is 1 exactly when all its dice show the same face, else 0 |
| Notebook.Jackpots | montecarlo.py:290-297 | one indicator per roll, 1 exactly when every die of that roll shows the same face and 0 otherwise |
| Notebook.PairJackpot | montecarlo.py:296 | a roll of two dice is a jackpot exactly when both faces are equal |
| Notebook.JackpotsExample | montecarlo.py:290-297 | rolls (A, A), (B, C), (A, A), (D, E), (F, G) give indicators 1, 0, 1, 0, 0 |
| Notebook.ComboKey | montecarlo.py:305 | `tuple(sorted(row))` is a sorted rearrangement of the roll |
| Notebook.ComboKeyIgnoresDieOrder | montecarlo.py:305 | two rolls share a combination exactly when they show the same faces, whatever die showed which |
| Notebook.ComboKeys | montecarlo.py:305 | the combination of every row, row for row |
| Notebook.ComboOrder | montecarlo.py:305-306 | the combinations of the distinct rolls, each once, in increasing tuple order |
| Notebook.Combos | montecarlo.py:305-309 | the table is strictly increasing in tuple order and counts, per combination, the distinct rolls that have it |
| Notebook.ComboRow | montecarlo.py:305-306 | the row of the combination table that holds the combination of a given roll |
| Notebook.CombosListRolledCombos | montecarlo.py:305-306 | the combination of every roll has a row in the table |
| Notebook.ComboOfSomeRoll | montecarlo.py:305 | every row `drop_duplicates` keeps is one of the rolls |
| Notebook.CombosOnlyRolledCombos | montecarlo.py:305-306 | every combination of the table is the combination of some roll |
| Notebook.CombosCountsPositive | montecarlo.py:305-306 | every count of the table is at least 1 |
| Notebook.CombosTotal | montecarlo.py:305-306 | the counts sum to the number of distinct rolls, because `drop_duplicates` runs first |
| Notebook.NewAnalyzer | montecarlo.py:262-279 | an unplayed game (`AttributeError`), one played for no rolls (`KeyError`) and one without dice (`IndexError`) fail; otherwise the analyzer holds the records without roll numbers and the three statistics computed from them |
| Package.Die.constructor | montecarlo/montecarlo.py:23-34 | the die keeps its faces in the given order, with weight `DEFAULT_WEIGHT` = 1.0 for each |
| Package.Die.ChangeWeight | montecarlo/montecarlo.py:36-52 | an unknown face fails with `KeyError`, then an unparsable weight with `ValueError` and a weight of the wrong type (such as `None`) with `TypeError`, all before any write; otherwise every row showing the face gets the new weight and no other row changes |
| Package.Die.SampleErrorCases | montecarlo/montecarlo.py:60 | the sampler refuses a negative count, then a negative weight, then weights that are all zero; it draws exactly when the count is not negative, no weight is negative and some weight is positive |
| Package.Die.RollDie | montecarlo/montecarlo.py:54-61 | fails exactly when the sampler refuses; otherwise exactly `n` faces of the die, each at a drawn position of positive weight |
| Package.Die.Show | montecarlo/montecarlo.py:63-69 | the (face, weight) table row for row |
| Package.Range | montecarlo/montecarlo.py:99 | `range(lo, hi)` has `hi - lo` entries (none when `lo >= hi`), entry `i` being `lo + i` |
| Package.RollBlocks | montecarlo/montecarlo.py:99 | one block per die holding the roll numbers 1..times in order |
| Package.DieBlocks | montecarlo/montecarlo.py:100 | block `d` holds die number `d` once per roll |
| Package.RollNumbers | montecarlo/montecarlo.py:99 | the roll-number column has times × dice entries |
| Package.DieNumbers | montecarlo/montecarlo.py:100 | the die-number column has times × dice entries |
| Package.LayoutBlocks | montecarlo/montecarlo.py:99-100 | at `Offset(times, d, r)` both columns give roll `r + 1` of die `d` |
| Package.LayoutAt | montecarlo/montecarlo.py:98-100 | position `k` of the long table has roll number `k % times + 1` and die number `k / times` |
| Package.LayoutKeysUnique | montecarlo/montecarlo.py:99-106 | no two positions share a (roll number, die number) pair, so the pivot is well defined |
| Package.Pivot | montecarlo/montecarlo.py:102-106 | the pivoted table is times × dice, with no rows when there are no dice |
| Package.PivotCell | montecarlo/montecarlo.py:102-106 | cell (r, d) holds the face at the position whose roll number is `r + 1` and whose die number is `d` |
| Package.RollBlocksOf | montecarlo/montecarlo.py:119 | one block per roll, holding one narrow row per die with the cell's face |
| Package.Stack | montecarlo/montecarlo.py:119 | `stack` of the wide table has one narrow row per (roll, die) cell: times × dice rows |
| Package.StackBlocks | montecarlo/montecarlo.py:119 | die `d` of roll `r` sits at `Offset(dice, r, d)` of the narrow form |
| Package.StackAt | montecarlo/montecarlo.py:119 | the narrow form has times × dice rows, roll-major: position `k` holds roll `k / dice + 1` and die `k % dice` with the cell's face |
| Package.Game.constructor | montecarlo/montecarlo.py:80-86 | a game holds the given dice |
| Package.Game.FailureFrom | montecarlo/montecarlo.py:95-96 | there is no failure from die `d` on exactly when every die from `d` on can be rolled |
| Package.Game.Failure | montecarlo/montecarlo.py:95-96 | there is no failure exactly when every die can be rolled `times` times |
| Package.Game.KeptDice | montecarlo/montecarlo.py:88-108 | whether a play succeeds, and how it fails, depends on the dice alone, not on the stored table |
| Package.Game.FailureSkips | montecarlo/montecarlo.py:95-96 | dice that can be rolled are passed over in the search for the first failure |
| Package.Game.FirstFailing | montecarlo/montecarlo.py:95-96 | a failure is that of the first die that cannot be rolled |
| Package.Game.RolledBy | montecarlo/montecarlo.py:95-96 | the rolls of the first `k` dice, `times` faces per die, the faces at that die's draws |
| Package.Game.IsPlayUnique | montecarlo/montecarlo.py:94-106 | the draws determine the table of a play |
| Package.Game.PlayTable | montecarlo/montecarlo.py:94-106 | the pivot of the die-major outcomes is the table of the play: a row per roll, a column per die, cell (r, d) the face at die d's r-th draw |
| Package.Game.RollAll | montecarlo/montecarlo.py:94-96 | the loop fails exactly when some die cannot be rolled, with the first such die's failure; otherwise it yields every die's rolls appended die after die |
| Package.Game.Play | montecarlo/montecarlo.py:88-108 | a successful play returns and stores the table of the play; a failed one fails with the first failing die's error and keeps the stored table |
| Package.Game.Show | montecarlo/montecarlo.py:110-123 | plays first; then, with case ignored, "narrow" gives the stacked table, "wide" the table itself, and anything else fails with `ValueError` |
| Package.Game.ShowShapes | montecarlo_tests.py:62-74 | five dice played five times give a 5 × 5 wide form and 25 narrow rows |
| Package.JackpotOf | montecarlo/montecarlo.py:174 | `len(set(row)) == 1` is 1 exactly when all dice of the roll show the same face, else 0 |
| Package.Jackpots | montecarlo/montecarlo.py:174-175 | one indicator per roll, 1 exactly when the roll is a jackpot |
| Package.AllJackpots | montecarlo/montecarlo.py:170-175 | the indicators of every game, game after game, each one 0 or 1 |
| Package.JackpotsAt | montecarlo/montecarlo.py:170-175 | with `times` rolls per game there are `times` indicators per game, game after game, indicator `r` of game `g` being 1 exactly for a jackpot |
| Package.Analyzer.constructor | montecarlo/montecarlo.py:136-145 | the analyzer holds the given games and no combination table |
| Package.Analyzer.PlayOne | montecarlo/montecarlo.py:154-155 | one game of the round played: it fails exactly when its dice cannot be rolled; the games played earlier keep their tables, and the game played now stores its table on success |
| Package.Analyzer.PlayAll | montecarlo/montecarlo.py:154-155 | every game played in order; succeeds exactly when every game can be played, otherwise fails with the failure of the first game that cannot; each table is the table of its game's play; afterwards each game played holds the table of its last play, and each game not reached keeps its old table |
| Package.Analyzer.ComputeCombo | montecarlo/montecarlo.py:147-161 | no games fails with the `ValueError` of `pd.concat([])`; otherwise it succeeds exactly when every game can be played, giving per game, in game order, each distinct ordered roll once with its count, the counts of a game with dice summing to `times`; a failure keeps the old `combo_df`; each game holds the table of its last play, and games not reached keep theirs |
| Package.Analyzer.ComputeJackpot | montecarlo/montecarlo.py:163-176 | succeeds exactly when every game can be played, giving the jackpot indicators of every game's play, game after game, one per roll; each game holds the table of its last play, and games not reached keep theirs |
| Counting.Tally | montecarlo/montecarlo.py:156 | `value_counts`: each distinct value once, each with its number of occurrences (at least 1), the counts summing to the length |
| Counting.Dedup | montecarlo.py:305 | `drop_duplicates`: no repetitions, and exactly the values of the input |
| Counting.DistinctCount | montecarlo.py:296 | `nunique`: a row's number of distinct values is at least 1 when the row is not empty and at most its length |
| Counting.DistinctCountIsSetSize | montecarlo/montecarlo.py:174 | `nunique` and `len(set(...))` agree |
| Counting.SingleDistinctIffConstant | montecarlo.py:296 | a non-empty row has one distinct value exactly when all its entries are equal |
| Counting.TotalCountCovers | montecarlo.py:287-288 | counting a list against keys that hold each of its values once accounts for every element |
| Sorting.SortBy | montecarlo.py:305 | `sorted`: a rearrangement of the input, in order under a total preorder |
| Sorting.InsertSorted | montecarlo.py:305 | inserting into a sorted list keeps it sorted |
| Sorting.SortedUnique | montecarlo.py:305 | under a total order a multiset has exactly one sorted arrangement |
| Sorting.LexTotalOrder | montecarlo.py:306 | tuple comparison is a total order when faces are totally ordered |
| Weights.Reweighted | montecarlo/montecarlo.py:52 | every row showing the face gets the new weight, every other row keeps its weight |
| Weights.ReweightedUnchanged | montecarlo_tests.py:14-23 | setting a face to the weight it already has (face 4 to 1) changes nothing |
| Weights.ReweightedLastWins | montecarlo.py:70 | of two weight changes to one face the later wins |
| Weights.ReweightedCommute | montecarlo.py:70 | weight changes to different faces do not interfere |
| Weights.PositiveTotalHasValidDraw | montecarlo.py:83 | weights with a positive sum leave the sampler a face to draw |
| Weights.Drawn | montecarlo/montecarlo.py:60 | the faces at the drawn positions, one per draw, in order |
| Weights.DrawnFaces | montecarlo.py:83-84 | every rolled face is a face of the die, and a face of zero weight is never rolled |
| Layout.OffsetOfPosition | montecarlo/montecarlo.py:99-100 | position `k` of blocks of `n` entries is entry `k % n` of block `k / n` |
| Layout.ConcatFrom | montecarlo/montecarlo.py:175 | every entry of blocks appended one after the other comes from some entry of some block |
| Common.Lower | montecarlo/montecarlo.py:118 | `str.lower`: same length, each capital letter replaced by its lower-case letter and every other character kept |
| Layout.ConcatAt | montecarlo/montecarlo.py:95-96 | blocks of `n` entries appended one after the other put entry `r` of block `q` at `Offset(n, q, r)` |

## Left out

- The sampling distribution of `random.choices` (montecarlo.py:83) and of `DataFrame.sample` (montecarlo/montecarlo.py:60). Probabilities cannot be stated here. Draws are positions supplied by the caller, each naming a face of positive weight.
- Parsing a weight with `float(...)`. A weight argument is either a number or not numeric. NaN and infinities are not modelled; weights are reals.
- pandas presentation: index and column names, the MultiIndex of `combo_df`, the `Die k` column labels (kept as numbers), dtype inference at montecarlo.py:275, and `fillna`/`astype`.
- The order of `value_counts` (by decreasing count, ties in an order pandas does not fix). `Counting.Tally` lists values in order of first occurrence, and its contract does not depend on the order. Likewise Notebook.FaceCounts lists faces in order of first appearance in the records, while pandas builds the face-count table on the union of the per-column indexes, sorted when they differ; its contract leaves the row order open.
- The notebook's usage cells and printed outputs.
- Package `compute_face_counts_per_roll` (montecarlo/montecarlo.py:182-193). It calls `game.play()` without its required argument, so it always raises `TypeError`.
- Package `compute_jackpot`'s final frame (montecarlo/montecarlo.py:177-179). Its index `range(1, times + 1)` has `times` entries, while the list holds `times` indicators for each game that has dice. The two differ, and pandas raises, whenever `times >= 1` and the number of games with dice is not exactly one: more than one game, no games, or only games without dice. `Package.Analyzer.ComputeJackpot` returns the list of indicators built at lines 170-175 in every case.
- Package.Analyzer.ComputeCombo: the model tallies each game's rolls after every game has been played, whereas the source tallies each game right after playing it. The results and the final state are the same, since tallying neither reads nor changes a game.
- Notebook.Jackpots and Notebook.Combos: per-roll reading of the notebook's `.apply` calls, as described above, not the per-column one of the code as written.
- Notebook.Die.SamplerError: assumes Python 3.9 or later, where `random.choices` raises `ValueError` for weights summing to zero or less. The notebook records a Python 3.8.8 kernel (montecarlo.py:406). Python 3.8 has no such check: a zero total draws the last face, and a negative total still draws. Weights that include a negative one but sum to a positive number are refused by no version, and the draw then need not name a face of positive weight; the model supplies only draws of positive weight.
- Notebook.Combos and Notebook.NewAnalyzer: `sorted(row)` (montecarlo.py:305) raises `TypeError` for faces that cannot be compared. The model takes a comparison of faces that is a total order and does not model that error.
- Notebook.Die.ShowFacesAndWeights and Package.Die.Show: the source returns the die's own DataFrame (montecarlo.py:94, montecarlo/montecarlo.py:69), so a caller that changes it changes the die. The model returns a copy of the table; that aliasing is not captured.
- Default arguments: `rolls=1` (montecarlo.py:72), `form="wide"` (montecarlo.py:187), `n_rolls=1` (montecarlo/montecarlo.py:54) and `display='wide'` (montecarlo/montecarlo.py:110). Every modelled call passes the argument explicitly.
- Common.Lower: `str.lower` is modelled on ASCII capitals only; other Unicode case mappings are not.
- An empty table in the package analyzer: `apply(..., axis=1)` on a table with no rows is modelled as giving no indicators and no combinations. pandas returns an empty Series there, so no combinations are counted and no indicators are appended.
- Tests in montecarlo_tests.py that contradict the code (a (5, 2) shape for a one-column jackpot frame at line 93) are not modelled.
