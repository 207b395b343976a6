# Skater xG view: a Dafny model of its statistics

The skater page of the hockey analytics dashboard reads one wide table
(one row per skater; one column per statistic, season, game type and
category such as `iGFper60_20242025_2`) and, for the selected player, shows
counting metrics, a shot funnel and a bar chart of z-scores against the
league. This project models the computational part of that page,
`views/skaters_xg.py`, and proves what it computes:

- **Seasons** (`Seasons`, `StringOrder`): the season ids found in the
  column names by the pattern `_(\d{8})_(?:2|3)\b` over the space-joined
  column list, deduplicated and sorted, and the `2024-25` display label.
- **Suffixes** (`Suffixes`): the game-type code (2 for "Regular Season",
  3 otherwise), the category token (`""`, `per82`, `per60`) and the column
  suffixes `suffix_1` (with the category token) and `suffix_2` (without).
- **Row access** (`Frame`): the table, a row's cells with NaN as
  `Missing`, `row.get` with defaults, the first-row lookup by player id,
  games played (truncated toward zero) and time on ice, both 0 when absent
  or missing, and iGF / iGFaX as "no data" when absent or missing.
- **Shot funnel** (`ShotFunnel`): the four raw values with default 0 and
  the sequential clamp `fenwick <= corsi`, `shots <= fenwick`,
  `goals <= shots`.
- **League population** (`Population`): the rows whose games played and
  time on ice, a missing value counting as 0, are both positive.
- **Z-scores** (`Stats`, `ZScores`): per tracked statistic whose
  `suffix_1` column exists, the population mean, population standard
  deviation (ddof 0) over non-missing values, and `(val - mu) / sd`, or 0.0
  when the value is missing or the deviation is 0 or undefined.

Modelling choices:

- A cell is `Num(real)` or `Missing` (pandas' NaN); a row maps the column
  names it has to cells. Arithmetic is exact over `real`.
- The square root is a parameter `root` of which the model only assumes
  `root(0) == 0` and `root(v) > 0` for `v > 0` (`Stats.IsRoot`).
- Where the code raises, the model returns an error value: `FetchRow`
  gives `None` where `iloc[0]` raises IndexError for an unknown player;
  `StatSuffix` gives `None` where `cat_to_suffix[category]` raises KeyError
  for a category outside the three (for instance, the deselected segmented
  control); `LeaguePopulation` gives `Err(KeyError(col))` when the
  games-played or time-on-ice column is absent from the table, because
  `pop[gp_col]` raises KeyError there; an absent column is not counted
  as 0.
- The code does not check the game-type label: every label other than
  "Regular Season" maps to 3, and so does the model.
- `z_labels`/`z_vals` are built by a loop with `continue`, so
  `ZScores.ZScoreVector` is a method with a `for` loop proved against the
  functions `Present` and `ZScore`. The `columns` it receives is the
  table's column list: filtering rows keeps every column.

## Model

| member | source | states |
|---|---|---|
| Seasons.SeasonLabel | views/skaters_xg.py:23-24 | for an 8-character id the label has 7 characters: the first four, a dash, then the last two; in general its length is the first min(4,n) plus 1 plus the characters from index 6 on |
| Seasons.SeasonLabelExample | views/skaters_xg.py:23-24 | "20242025" is labelled "2024-25" |
| Seasons.SeasonLabelRecovers | views/skaters_xg.py:23-24 | two 8-character ids with the same label agree on their first four and last two characters, so the label determines the starting year and the ending year's last two digits |
| Seasons.MatchAt | views/skaters_xg.py:25 | definition of a match of the season pattern at a position: underscore, eight ASCII digits, underscore, 2 or 3, then the end of the text or a non-word character; characterised by CapturedIsSeasonId and MatchesDoNotOverlap |
| Seasons.CapturedIsSeasonId | views/skaters_xg.py:25 | the text captured at a pattern match is eight digits |
| Seasons.MatchesDoNotOverlap | views/skaters_xg.py:25 | two pattern matches start at least 11 characters apart, so a left-to-right scan misses none |
| Seasons.FindAll | views/skaters_xg.py:25 | `re.findall` from position i: every result is captured at some match at or after i, and every match at or after i contributes its season |
| Seasons.Join | views/skaters_xg.py:25 | definition of `' '.join(columns)`; characterised by MatchBeforeSpace, MatchAfterSpace, MatchAroundSpace and OccursInJoin |
| Seasons.MatchBeforeSpace | views/skaters_xg.py:25 | a match inside one column name is still a match in that name followed by a space and more text |
| Seasons.MatchAfterSpace | views/skaters_xg.py:25 | a match inside a column name is still a match when the name is preceded by other text and a space |
| Seasons.MatchAroundSpace | views/skaters_xg.py:25 | a match in the joined text lies entirely within one column name, because the space cannot be part of a match |
| Seasons.OccursInJoin | views/skaters_xg.py:25 | a season occurs in the space-joined column names exactly when it occurs in one of the column names |
| Seasons.SeasonOptions | views/skaters_xg.py:25-26 | definition of `sorted(set(re.findall(...)))` over the joined column names; characterised by SeasonOptionsSpec |
| Seasons.SeasonOptionsSpec | views/skaters_xg.py:25-26 | the season options are strictly increasing, hence free of duplicates, each is eight digits, a season is offered exactly when some column name carries it, and they are the only such list |
| StringOrder.BelowIrreflexive | views/skaters_xg.py:26 | Python's string order: no string is below itself |
| StringOrder.BelowTransitive | views/skaters_xg.py:26 | the string order is transitive |
| StringOrder.BelowTotal | views/skaters_xg.py:26 | of two different strings one is below the other |
| StringOrder.BelowAsymmetric | views/skaters_xg.py:26 | two strings are never below each other |
| StringOrder.Insert | views/skaters_xg.py:26 | inserting into a strictly increasing list keeps it strictly increasing and adds exactly the new element |
| StringOrder.SortedSet | views/skaters_xg.py:26 | `sorted(set(xs))` is strictly increasing and has exactly the elements of xs |
| StringOrder.StrictlyIncreasingUnique | views/skaters_xg.py:26 | two strictly increasing lists with the same elements are equal |
| Suffixes.GameType | views/skaters_xg.py:50 | the game type is 2 or 3, and 2 exactly for "Regular Season" |
| Suffixes.BaseSuffix | views/skaters_xg.py:63 | `suffix_2` is an underscore, the season, an underscore and the game-type digit |
| Suffixes.StatSuffix | views/skaters_xg.py:61-62 | `suffix_1` exists exactly for "Actual", "Per 82" and "Per 60" (KeyError otherwise) and is the category token followed by `suffix_2` |
| Suffixes.ActualSuffixesCoincide | views/skaters_xg.py:61-63 | `suffix_1` equals `suffix_2` exactly when the category is "Actual" |
| Suffixes.StatSuffixInjective | views/skaters_xg.py:61-63 | `suffix_1` determines the selection: equal suffixes for two valid categories and game types 2 or 3 mean the same category, season and game type |
| Suffixes.SuffixExamples | views/skaters_xg.py:50-63 | "Per 60", 20242025, regular season gives `per60_20242025_2` with `suffix_2` `_20242025_2`; "Actual", 20242025 gives `_20242025_2` in the regular season and `_20242025_3` in the playoffs |
| Frame.Get | views/skaters_xg.py:71-72 | definition of `row.get(col, default)`, also used at lines 86-87, 128-131 and 207: the cell when the row has the column, else the default; characterised through Scalar, GamesPlayed, TimeOnIce and FunnelInput |
| Frame.FillNa | views/skaters_xg.py:197 | definition of `fillna(0)` on one cell: a missing cell reads 0; used by the population mask |
| Frame.Scalar | views/skaters_xg.py:86-90 | the displayed value is "no data" exactly when the column is absent or its cell missing, and otherwise the cell's number |
| Frame.Trunc | views/skaters_xg.py:74 | `int(x)` truncates toward zero: it is the largest integer at most x for x >= 0 and the smallest at least x for x < 0 |
| Frame.FirstIndex | views/skaters_xg.py:65 | the position of the first row with the player id, or none exactly when no row has it |
| Frame.FetchRow | views/skaters_xg.py:65 | the selected row is the first row of the table with that id (no earlier row has it); none exactly when the id is not in the table (IndexError) |
| Frame.MissingPlayerExample | views/skaters_xg.py:65 | looking up player 99 among players 1, 2, 3 finds no row |
| Frame.GamesPlayed | views/skaters_xg.py:71-74 | games played is 0 when the column is absent or missing, and the truncated cell value otherwise |
| Frame.TimeOnIce | views/skaters_xg.py:72-75 | time on ice is 0.0 when the column is absent or missing, and the cell value otherwise |
| ShotFunnel.FunnelInput | views/skaters_xg.py:128-131 | a funnel input reads as 0 when its column is absent and as the cell's value otherwise |
| ShotFunnel.RawFunnel | views/skaters_xg.py:128-131 | the raw funnel exists exactly when all four inputs are numbers, and then Corsi, Fenwick, shots and goals are the inputs read from the `iCorsiF`, `iFenwickF`, `iSOGF` and `iGF` columns |
| ShotFunnel.GoalsDefaultDiffers | views/skaters_xg.py:86-131 | when the iGF column is absent, the funnel counts 0 goals while the iGF metric shows no data |
| ShotFunnel.Min | views/skaters_xg.py:133-135 | Python's `min(a, b)`: at most both arguments, equal to one of them, and the first one on a tie |
| ShotFunnel.Clamp | views/skaters_xg.py:133-135 | the clamp keeps Corsi, makes each stage the least of its raw value and every earlier stage, yields a nested funnel, and leaves an already nested funnel unchanged |
| ShotFunnel.ClampUnique | views/skaters_xg.py:133-135 | the clamped funnel is determined by the raw values |
| ShotFunnel.ClampExamples | views/skaters_xg.py:133-135 | (40, 50, 45, 8) clamps to (40, 40, 40, 8) and (120, 95, 110, 8) to (120, 95, 95, 8) |
| ShotFunnel.ExampleRowFunnel | views/skaters_xg.py:128-131 | a row with iCorsiF 120, iFenwickF 95, iSOGF 110 and iGF 8 under `_20242025_2` gives the raw funnel (120, 95, 110, 8) |
| ShotFunnel.SingleRowExample | views/skaters_xg.py:50-135 | for player 8478402 and the selection Actual, 20242025, Regular Season, the suffix is `_20242025_2`, the row is found, the raw funnel is (120, 95, 110, 8) and it clamps to (120, 95, 95, 8) |
| Population.Active | views/skaters_xg.py:197 | definition of the mask: games played and time on ice, missing as 0, both positive; characterised by Keep, LeaguePopulation and InactiveRowIgnored |
| Population.Keep | views/skaters_xg.py:197 | a row is in the population exactly when it is in the table and its games played and time on ice (missing as 0) are both positive |
| Population.LeaguePopulation | views/skaters_xg.py:196-197 | KeyError exactly when the games-played or time-on-ice column is absent, naming the games-played column first; otherwise the active rows |
| Population.KeepIsSubsequence | views/skaters_xg.py:197 | the population keeps the table's row order |
| Population.KeepAppend | views/skaters_xg.py:197 | filtering a concatenation is the concatenation of the filtered parts |
| Population.KeepIdempotent | views/skaters_xg.py:197 | filtering the population again changes nothing |
| Population.InactiveRowIgnored | views/skaters_xg.py:196-197 | inserting a row that has not played anywhere in the table leaves the population unchanged |
| Stats.Values | views/skaters_xg.py:205-206 | definition of the non-NaN entries of `pop[col]` in row order; characterised by ValuesSpec, ValuesAppend and ValuesOfOneRow |
| Stats.ValuesSpec | views/skaters_xg.py:205-206 | a value is among those a column contributes to mean and deviation exactly when some population row has it as a non-missing cell; there are at most as many as rows |
| Stats.ValuesAppend | views/skaters_xg.py:205-206 | the values of a concatenation of row lists are the values of the parts in order, so each row counts once, repeated values included |
| Stats.ValuesOfOneRow | views/skaters_xg.py:205-206 | one row contributes its cell when it is a number, and nothing when the cell is missing or the column absent |
| Stats.Mean | views/skaters_xg.py:205 | the mean of a non-empty series times its length is its sum |
| Stats.SeriesMean | views/skaters_xg.py:205 | the mean is defined exactly when some value is non-missing |
| Stats.SeriesStd | views/skaters_xg.py:206 | the deviation is defined exactly when some value is non-missing; it is not negative, and it is 0 exactly when all values are equal |
| Stats.SumSq | views/skaters_xg.py:206 | a sum of squared deviations is not negative |
| Stats.Variance | views/skaters_xg.py:206 | the population variance is not negative |
| Stats.SumSqZero | views/skaters_xg.py:206 | the sum of squared deviations from m is 0 exactly when every value equals m |
| Stats.VarianceZeroIff | views/skaters_xg.py:206-209 | the variance is 0 exactly when all values are equal |
| ZScores.ZScore | views/skaters_xg.py:207-212 | definition of one z-score: 0.0 for a NaN value or a zero or undefined deviation, else `(val - mu) / sd`; characterised by ZScoreNeutral and ZScoreStandardizes |
| ZScores.Tracked | views/skaters_xg.py:185-192 | the six statistics of the `stats` dict in insertion order: iCorsiF, iFenwickF, iSOGF, iGF, ixGF, iGFaX |
| ZScores.ZScoreNeutral | views/skaters_xg.py:205-210 | a missing player value, an empty population or an all-equal population gives z = 0.0 |
| ZScores.ZScoreStandardizes | views/skaters_xg.py:205-212 | otherwise sd > 0, z times sd is the value minus the mean, and z is positive (negative) exactly when the value is above (below) the mean |
| ZScores.Present | views/skaters_xg.py:201-203 | definition of the statistics the loop keeps after the `continue` test; characterised by PresentSpec |
| ZScores.PresentSpec | views/skaters_xg.py:185-203 | a statistic is listed exactly when its `suffix_1` column exists, in the fixed order of the six statistics |
| ZScores.ZScoreVector | views/skaters_xg.py:199-215 | the loop yields the listed statistics and, at each position, that statistic's z-score against the population |

## Left out

- The Streamlit page itself (selection widgets, metric cards, Plotly
  figures, headshot lookup, number formatting) is presentation and is not
  modelled; the selections enter the model as parameters.
- The player-id option list (sorting `playerId` values) is not modelled;
  the model takes the selected id as a parameter.
- The player name default (`playerFullName` or `Player <id>`) is not
  modelled: cells are numeric only, so text columns are outside the model.
- The iGFaX delta text is not modelled. For a player whose iGFaX is
  absent or NaN, `f'{igfax:+.2f}'` at views/skaters_xg.py:125 raises
  TypeError on `None`, so the program stops there and never computes the
  funnel or the z-scores; the model still computes both for such a player.
- Data loading from disk and the application shell are not part of this
  model.
- `playerId` is already an integer in the model; the `astype(int)`
  coercion of a float or textual id column is not modelled.
- FunnelInput: a present but missing (NaN) funnel cell gives `None`; how
  NaN would then flow through Python's `min` is not modelled.
- RawFunnel: is `None` whenever a funnel cell is NaN, for the same reason.
- Stats.SeriesStd: floating-point rounding and the square root itself are
  not modelled; the root is a parameter known only to map 0 to 0 and
  positives to positives, and the arithmetic is exact, so a population of
  equal values gives a deviation of exactly 0.
- Seasons.FindAll: `\d` and `\w` are taken as ASCII digits and ASCII
  word characters; the Unicode digits and letters Python also accepts are
  not modelled.
- Non-numeric cells other than NaN are not modelled.
