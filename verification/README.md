# Golf score pipeline, in Dafny

A model of the data-derivation core of a golf-score dashboard (`utils.py`).
The dashboard reads a workbook with two sheets. *Scores* has one row per hole
played: golfer, date, course, tee, hole, strokes, putts and accuracy codes.
*Courses* gives the par of every (course, tee, hole). The core turns these
into the tables the charts draw, in four pure steps.

- **Enrichment** (`parse_data_file` after the sheets are read). The Scores
  sheet is left-joined to the Courses sheet on (Course, Tee, Hole). Then
  `ScoreToPar`, `PuttsToPar`, `GIR` (green in regulation) and the
  three-valued `FIR` (fairway in regulation: hit, missed, or not applicable)
  are derived. A missing par is pandas' NaN, modelled as `Option<int>`:
  arithmetic with it is NaN and comparisons with it are false. So a hole
  without a par has no `ScoreToPar`, `GIR = false` and `FIR = None`.
- **Filtering** (`filter_df`). Rows are selected by an inclusive date range,
  golfer list and course list. A missing or empty list selects everything.
  The named window `"Last 20 rounds"` replaces the range with
  [min, max] of the 20 most recent distinct play dates.
- **Aggregation** (`get_scores`). Rows are grouped by
  (Golfer, Date, Course, Tee) and each group is folded into one round:
  sums of strokes, strokes to par, putts and putts to par; the number of
  holes, greens hit, fairways tracked and fairways hit. The rounds come out
  in ascending key order, as `groupby` sorts them. The `GIR` and `FIR` means
  are kept as their (hit, total) pairs.
- **Date conversion** (`convert_date`). A string with no explicit format is
  parsed by its length: `YYYYMMDD`, `YYYY-MM-DD` or `YYYY-MM-DDTHH:MM:SS`.
  Parsing follows the rules of `datetime.strptime` for those formats.
  A date is rendered as `date`, `str8`, `str10`, `sql8` or `sql10`.

Modules, one file each:

- `Wrappers`: `Option` and `Result`.
- `Sequences`: order-preserving selection, sums and counts.
- `Ordering`: strict total orders, sorted distinct values, `min`/`max`,
  Python string order, the top-k window.
- `Dates`: the calendar and `convert_date`.
- `Records`: the sheets' rows.
- `Enrichment`, `Filtering`, `Aggregation`: the three table steps.
- `Pipeline`: the steps chained as the dashboard calls them, and a worked
  example.

## Model

| member | source | states |
|---|---|---|
| `Dates.ParseDate` | utils.py:45-52 | a string is refused as of unsupported length exactly when its length is not 8, 10 or 19; the three shapes are parsed by `Dates.ParseCompact`, `Dates.ParseIso` and `Dates.ParseIsoDateTime`, which have no contract of their own; for zero-padded strings the round-trip lemmas below pin their results down, and `Dates.DateTimeParsesItsDate` covers any accepted 19-character string |
| `Dates.ConvertDate` | utils.py:36-67 | `None` converts to `None`; a string fails exactly when its length-selected parse fails, and with `UnsupportedLength` for any other length; a date always converts; `date` output is a date and the other named outputs (rendered by `Dates.Render`) are text |
| `Dates.FormatStr8` | utils.py:60-61 | `str8` output is eight digits |
| `Dates.FormatStr10` | utils.py:62-63 | `str10` output is ten characters with dashes at positions 4 and 7 |
| `Dates.ParseFormatStr8` | utils.py:45-61 | parsing the `str8` rendering of any valid date gives that date back |
| `Dates.ParseFormatStr10` | utils.py:47-63 | parsing the `str10` rendering of any valid date gives that date back |
| `Dates.ParseDropsTime` | utils.py:49-54 | a `str10` date followed by any valid `THH:MM:SS` parses to that date, with the time dropped |
| `Dates.DateTimeParsesItsDate` | utils.py:49-50 | an accepted 19-character string, zero-padded or not, parses to the same date as its first ten characters alone |
| `Dates.CompactIsCanonical` | utils.py:45-61 | a zero-padded 8-character string that parses is exactly the `str8` rendering of its date |
| `Dates.IsoIsCanonical` | utils.py:47-63 | a zero-padded 10-character string that parses is exactly the `str10` rendering of its date |
| `Dates.ConvertRoundTrips` | utils.py:42-63 | `convert_date` from a date to `str10` and back, and from a `str8` string to a date or to `str10`, loses nothing |
| `Dates.SlashSeparatedRejected` | utils.py:47-48 | `convert_date` refuses a 10-character date with `/` separators |
| `Enrichment.ParsFor` | utils.py:78 | as a set, the pars collected for a key are exactly those of the Courses rows with that key |
| `Enrichment.ParsForCount` | utils.py:78 | one par is collected per Courses row with the key |
| `Enrichment.ParsForAppend` | utils.py:78 | pars are collected in Courses sheet order: an earlier stretch of the sheet contributes its pars before a later one |
| `Enrichment.LookupPar` | utils.py:78 | no par is found exactly when no Courses row has the key; a par found belongs to a Courses row with the key |
| `Enrichment.LeftJoin` | utils.py:78 | the join has at least as many rows as the Scores sheet; every joined row comes from the Scores sheet; a missing par means no Courses row matches, and a present par is that of a matching Courses row |
| `Enrichment.LeftJoinCoversScores` | utils.py:78 | no Scores row is dropped: each appears in some joined row |
| `Enrichment.LeftJoinAppend` | utils.py:78 | the join of two stretches of the Scores sheet is the join of the first followed by the join of the second, so each Scores row's joined rows form one block, in sheet order |
| `Enrichment.LeftJoinRow` | utils.py:78 | one Scores row joins to one row per matching Courses row, in Courses order, or to a single row with a missing par when none matches |
| `Enrichment.UniqueParsFor` | utils.py:78 | with unique course keys at most one Courses row matches, and it is the one looked up |
| `Enrichment.LeftJoinKeepsRows` | utils.py:78 | with unique course keys the join keeps every Scores row once, in order, paired with its looked-up par |
| `Enrichment.UniqueLookup` | utils.py:78 | with unique course keys, the par looked up for a Courses row's key is that row's par |
| `Enrichment.Fir` | utils.py:86-94 | `fir_func`: no classification exactly when par is missing (NaN compares False) or at most 3; otherwise hit exactly when the tee accuracy code is `"H"` |
| `Enrichment.Derive` | utils.py:80-94 | `ScoreToPar = Score - Par` when there is a par and NaN otherwise; `PuttsToPar = Putts - 2`; `GIR` iff there is a par and `Score - Putts <= Par - 2`; `FIR` is none iff par is missing or at most 3, and otherwise hit iff the tee accuracy code is `"H"` |
| `Enrichment.ParseDataFile` | utils.py:78-96 | its own contract says only that no Scores row is lost in count (at least one enriched row per Scores row); `Enrichment.EnrichedRowAt`, `Enrichment.EnrichedRows` and `Enrichment.EnrichKeepsRows` state what it computes |
| `Enrichment.EnrichedRowAt` | utils.py:78-94 | the row at any position of the enriched table satisfies every derivation rule and comes from the sheets |
| `Enrichment.EnrichedRows` | utils.py:78-94 | every enriched row, with or without unique course keys, carries a Scores row and a par consistent with the Courses sheet and satisfies every derivation rule |
| `Enrichment.EnrichKeepsRows` | utils.py:78 | with unique course keys the enriched table has one row per Scores row, in order, with the par looked up by (Course, Tee, Hole) |
| `Sequences.Select` | utils.py:118-124 | a boolean-mask selection holds exactly the rows satisfying the mask and is no longer than its input |
| `Sequences.SelectIsSubsequence` | utils.py:118-124 | a selection keeps rows in their original order |
| `Ordering.SortedDistinct` | utils.py:109-110 | `unique()` then `sort()` yields a strictly increasing sequence with exactly the input's values |
| `Ordering.Minimum` | utils.py:113 | `min` returns an element with no element below it |
| `Ordering.Maximum` | utils.py:114 | `max` returns an element with no element above it |
| `Ordering.StrLtIsStrictTotalOrder` | utils.py:132 | Python's string order is a strict total order |
| `Ordering.TopWindow` | utils.py:109-115 | the last `min(n, w)` elements of a sorted sequence are the window, whose `min` is its first element and whose `max` is the last |
| `Ordering.TopWindowElement` | utils.py:111-115 | an element lies in the window exactly when it lies between the window's min and max, exactly when fewer than `w` elements are above it |
| `Filtering.PlayDates` | utils.py:109-110 | the sorted unique dates are strictly increasing, are exactly the dates played, and are empty only for an empty table |
| `Filtering.RecentDates` | utils.py:111 | the window holds at most 20 dates |
| `Filtering.ResolveRange` | utils.py:106-118 | the named window fails exactly on an empty table; any other `dates` value leaves the given range in force; the window yields a range when it succeeds |
| `Filtering.FilterDf` | utils.py:99-126 | `filter_df` fails exactly when the named window meets an empty table, and never adds rows |
| `Filtering.FilterIsConjunctive` | utils.py:117-124 | the three filters in a row equal one selection by their conjunction |
| `Filtering.FilterSelectsAdmitted` | utils.py:117-126 | the result is a subsequence of the input holding exactly the rows that pass every active filter |
| `Filtering.ExplicitRangeIsInclusive` | utils.py:117-118 | with an explicit range a row survives iff `first <= date <= last` and it passes the golfer and course filters |
| `Filtering.EmptyListIsNoFilter` | utils.py:120-124 | an empty golfer or course list gives the same result as a missing one |
| `Filtering.WindowRange` | utils.py:108-115 | the named window resolves to [the k-th latest play date, the latest play date] with `k = min(20, distinct dates)` |
| `Filtering.RecentWindowRow` | utils.py:108-118 | under the named window a date is kept iff it is among the 20 most recent, iff fewer than 20 distinct play dates are later |
| `Filtering.RecentWindowKeeps` | utils.py:108-118 | under the named window every row is kept iff fewer than 20 distinct play dates are later than its date, so rows sharing a date are kept or dropped together |
| `Filtering.DateSetIsPlayDates` | utils.py:109-110 | there are as many sorted unique dates as distinct dates |
| `Filtering.FewDatesKeepEveryRow` | utils.py:108-118 | with at most 20 distinct dates the named window filters exactly as no date filter |
| `Filtering.WindowKeepsRecentRows` | utils.py:108-118 | a non-empty table whose dates are all among another table's 20 most recent dates is kept whole by its own window |
| `Filtering.FilterIdempotent` | utils.py:106-126 | filtering the output again with the same arguments returns it unchanged, unless the named window meets an empty output |
| `Filtering.SecondWindowPassRaises` | utils.py:108-113 | under the named window, a golfer with no rows empties the first pass, and the second pass over that empty table raises |
| `Aggregation.KeyLtIsStrictTotalOrder` | utils.py:132 | the (Golfer, Date, Course, Tee) order `groupby` sorts by is a strict total order |
| `Aggregation.Summarize` | utils.py:133-144 | a group's round holds the group's sums of strokes, strokes to par (NaN skipped), putts and putts to par, its row count, and the counts of greens hit, fairways tracked and fairways hit; greens hit are at most the holes, fairways hit at most fairways tracked and those at most the holes |
| `Aggregation.GroupOf` | utils.py:132 | a group holds exactly the table's rows with its key |
| `Aggregation.SortedKeys` | utils.py:132 | the group keys are strictly increasing and are exactly the keys in the table |
| `Aggregation.Rounds` | utils.py:131-146 | one round per key, in the keys' order, each aggregating a non-empty group |
| `Aggregation.GetScores` | utils.py:130-147 | the rounds come in strictly increasing key order; a key appears iff some row has it; each round aggregates its key's group, has at least one hole, and its greens hit and fairways hit are bounded by its holes and fairways tracked |
| `Aggregation.OneRoundPerKey` | utils.py:132 | there is exactly one round per distinct (Golfer, Date, Course, Tee) |
| `Aggregation.SingleRound` | utils.py:131-146 | a table holding one round aggregates to that round alone, with one hole per row |
| `Aggregation.GroupTotalPartition` | utils.py:132 | grouping by distinct keys that cover every row partitions the table: the group totals add up to the table total |
| `Aggregation.ColumnConserved` | utils.py:131-146 | a round column that sums a hole column adds up, over all rounds, to that column's table total |
| `Aggregation.TotalsConserved` | utils.py:131-146 | grouping loses and duplicates nothing: the rounds' holes, strokes, strokes to par and putts add up to the table's |
| `Pipeline.RoundsRespectFilters` | utils.py:117-146 | every round summarised after filtering lies in the resolved date range, belongs to a selected golfer and course, and was played according to the Scores sheet |
| `Pipeline.WorkedExampleHoles` | utils.py:78-94 | a two-hole example (a par 4 with the fairway hit, a par 3) enriches to the expected `ScoreToPar`, `PuttsToPar`, `GIR` and `FIR` |
| `Pipeline.WorkedExampleRound` | utils.py:78-146 | the same example summarises to one round of 9 strokes (+2), 3 putts (-1), 2 holes, no green hit and 1 of 1 fairways hit |

## Left out

- Reading the workbook (utils.py:74-77): file I/O through a foreign library. The model starts from the two sheets as sequences of rows.
- The 60-second cache on `get_scores` (utils.py:129): not modelled. It is keyed on the printed form of its argument, and pandas prints only some rows of a long table, so two different tables can share a key and a second call within the minute can return the first table's rounds. The model assumes every call computes afresh.
- The `GIR` and `FIR` means (utils.py:140, 143): floating point. Each round keeps the pair (greens hit, holes) and (fairways hit, fairways tracked) instead.
- `convert_date` with `in_fmt`, with an arbitrary `strftime` format as `out_type`, the `datetime` output and the `datetime`/`np.datetime64` inputs (utils.py:40-44, 58-59, 68-70): thin wrappers over library formatting. A `datetime` input is modelled as its date.
- `Dates.ParseDate`: digits are ASCII only. `strptime` also accepts other Unicode decimal digits.
- `Dates.FormatStr8`, `Dates.FormatStr10`: years are always four digits. For years below 1000 the width `strftime` gives depends on the platform.
- `Filtering.FilterParams`: `date_range` is given as two calendar dates. The source does not validate explicit bounds: pandas compares the `Date` column with whatever two values it is given, converting strings such as `"2023/01/01"` to timestamps. It raises (a `TypeError` at utils.py:118) only when pandas cannot read a bound as a timestamp, as for `"foo"`; the model's bounds are dates, so that error has no counterpart. A `dates` value other than the window name, including a non-string, has no effect, as in the code.
- `Filtering.FilterDf`: dates are calendar days, which assumes the `Date` column holds midnight timestamps, as date cells read from the workbook do. The source compares the raw column with midnight bounds (the window's bounds are `str10` strings). A row whose timestamp has a later time of day is therefore dropped when its date is the upper bound, so the named window drops such rows on its latest date. A column of ISO strings is compared as text, and `"2023-03-05T00:00:00" <= "2023-03-05"` is false. `Filtering.RecentWindowKeeps`, `Filtering.FewDatesKeepEveryRow` and `Filtering.FilterIdempotent` hold only for midnight timestamps. `Aggregation.GetScores` relies on the same assumption: it groups by calendar day, while the source groups by the raw `Date` value (utils.py:132), so holes of one day stamped at different times would form several rounds there and one round here.
- `Filtering.FilterIdempotent`: requires a non-empty first result under the named window, because a second pass over an empty table raises. `Filtering.SecondWindowPassRaises` shows that case occurs.
- `Filtering.RecentDates`: its own contract states only the size bound. `Filtering.WindowRange` and `Filtering.RecentWindowRow` state its contents.
- An empty Scores sheet is modelled as an empty table. The row-wise `apply` that fills `FIR` may behave differently on an empty frame in pandas.
- `Aggregation.GetScores`: group keys are never missing in the model. pandas drops rows whose key columns hold NaN.
- `Records.ScoreRow`: the `Hole`, `Score`, `Putts` and `Date` cells are assumed present. pandas reads a blank cell as NaN or NaT: a blank `Putts` would make `GIR` false and be skipped by `sum`, and a NaT date would enter `unique()` and `min()` in the named window. Only the par (through the join) and the accuracy codes may be missing in the model.
- Rows without a par are not excluded from the summaries, because the code does not exclude them. They add to `Score`, `Putts`, `PuttsToPar` and `NumHoles`, and nothing to `ScoreToPar`, `GreensHit` or the fairway counts.
- The Dash and Streamlit front ends and the figures: layout and callbacks, outside this model.
