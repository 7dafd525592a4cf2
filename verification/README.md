# Garage Gym Competition dashboards, modelled in Dafny

The repository has two Streamlit pages over a table of competition entries.
Each entry has a name, a first name, a gender, an Instagram handle, a
`GGC Unique_ID`, a competition label, a year, a season order and four lifts
in pounds. This project models the logic of both pages and proves what each
page promises.

- `ggc_dashboard2_v2.py` is the individual progress page.
  - A competitor picks their handle among those of the "2024 Fall" edition.
  - If that handle has more than one first name, the competitor also picks a first name.
  - The first matching row gives the competitor's unique id.
  - Every row with that id, a competition and the chosen lift forms the history.
  - The history is converted to lbs or kg and sorted by (year, season_order).
  - Each entry is ranked by an edition-scoped percentile: 100 × the share of its edition's rows whose lift is strictly below a compared value. In lbs the compared value is the entry's own lift. In kg the entry's stored pound value is compared against the edition's kilogram values, so the two sides are in different units.
  - The page also defines a competition-label parser, `extract_year_season`. It never calls it.
- `ggc_dashboard.py` is the lift page.
  - It filters the data by gender and projects it to one lift column.
  - It turns an entered weight into pounds.
  - It reports how many of the 101 `np.percentile` cut points lie strictly below that weight.

Files and modules:

- `wrappers.dfy` (`Wrappers`): `Option`; `None` stands for an empty cell (NaN).
- `frames.dfy` (`Frames`):
  - the entry `Row` and the lifts;
  - boolean-mask selection `Filter` and its laws;
  - `Present` (`dropna`);
  - the constant 2.20462 lb/kg.
- `strings.dfy` (`Strings`):
  - Python's string order;
  - `sorted(series.unique())` as `SortedUnique`;
  - the proof that a sorted duplicate-free list is determined by its elements.
- `label.dfy` (`CompetitionLabel`):
  - the search for `(Spring|Fall)?\s*(\d{4})`, ignoring case;
  - a declarative reading of the pattern (`Matches`), against which the search engine is proved.
- `progress.dfy` (`ProgressDashboard`): the progress page.
  - The history frame is the class `UserData`. The page adds columns to it in place, so `SetColumn` updates its `records`.
  - The page is the method `ProgressTable`. It is proved to yield, line by line, the specification function `History` with the converted value and the percentile of each entry.
- `dashboard.dfy` (`LiftDashboard`): the lift page, as the function `Dashboard` over a `Table` (column labels and rows).

## Model

| member | source | states |
|---|---|---|
| CompetitionLabel.SkipSpaces | ggc_dashboard2_v2.py:12 | greedy `\s*`: every character up to the result is whitespace, and the next one is not |
| CompetitionLabel.YearAt | ggc_dashboard2_v2.py:15 | `int` of the four digit group lies in 0..9999 |
| CompetitionLabel.MatchAt | ggc_dashboard2_v2.py:12 | an attempt anchored at `i` starts at `i` and its digit group is four digits |
| CompetitionLabel.FirstSome | ggc_dashboard2_v2.py:12 | the scan stops at the first successful attempt at or after the start: every earlier attempt failed, and if it finds none every attempt failed |
| CompetitionLabel.Attempts | ggc_dashboard2_v2.py:12 | there is one attempt per position of the label, the end included, and each is the anchored attempt at that position |
| CompetitionLabel.Search | ggc_dashboard2_v2.py:12 | `re.search` returns the attempt at the leftmost position that succeeds; every earlier position fails, and if nothing is found every position fails |
| CompetitionLabel.ExtractYearSeason | ggc_dashboard2_v2.py:11-18 | the year is in 0..9999; with no year there is no season either |
| CompetitionLabel.MatchAtIff | ggc_dashboard2_v2.py:12 | the engine's attempt at a position equals a match exactly when the pattern matches there with that season group and digits (both directions), so the match at a position is unique |
| CompetitionLabel.ExtractIsLeftmostMatch | ggc_dashboard2_v2.py:12-17 | for the leftmost position where the pattern matches, the result is the year of that match's digits and that match's season |
| CompetitionLabel.NoMatchNoYear | ggc_dashboard2_v2.py:12-18 | the year is missing exactly when the pattern matches nowhere, and then the result is (None, None) |
| CompetitionLabel.NoFourDigitsNoYear | ggc_dashboard2_v2.py:12-18 | a label has a year exactly when it contains four consecutive digits |
| CompetitionLabel.YearIsFirstDigits | ggc_dashboard2_v2.py:12-15 | the year is the value of the first four consecutive digits of the label |
| CompetitionLabel.NoDigitBeforeDigits | ggc_dashboard2_v2.py:12 | between a match's start and its digit group there is no digit |
| CompetitionLabel.SeasonBeforeYear | ggc_dashboard2_v2.py:12-16 | a season word in any case, optional whitespace, then four digits gives that year and that season |
| CompetitionLabel.YearFirstHasNoSeason | ggc_dashboard2_v2.py:12-16 | optional whitespace, then four digits gives no season, whatever follows |
| CompetitionLabel.YearFallExample | ggc_dashboard2_v2.py:11-18 | "2024 Fall" gives (2024, None) |
| CompetitionLabel.FallYearExample | ggc_dashboard2_v2.py:11-18 | "Fall 2024" gives (2024, Fall) |
| CompetitionLabel.UpperCaseExample | ggc_dashboard2_v2.py:11-18 | "FALL 2024" gives (2024, Fall) |
| CompetitionLabel.NoSpaceExample | ggc_dashboard2_v2.py:11-18 | "fall2024" gives (2024, Fall) |
| Frames.Filter | ggc_dashboard2_v2.py:31 | a boolean-mask selection keeps exactly the rows that satisfy the mask and is no longer than the data |
| Frames.FilterExtensional | ggc_dashboard2_v2.py:47 | masks that agree on every row select the same rows |
| Frames.FilterAppend | ggc_dashboard2_v2.py:31 | selection keeps the order of the data: it distributes over concatenation |
| Frames.FilterMultiset | ggc_dashboard2_v2.py:51 | selection keeps every copy of a row that satisfies the mask and no copy of any other row |
| Frames.FilterFilter | ggc_dashboard2_v2.py:38 | selecting twice equals selecting once with both masks |
| Frames.FilterHead | ggc_dashboard2_v2.py:47 | `.iloc[0]` of a selection is the first row of the data that satisfies the mask |
| Frames.FilterCountMonotone | ggc_dashboard2_v2.py:74 | a weaker mask selects at least as many rows |
| Frames.FilterMissesOne | ggc_dashboard2_v2.py:74 | a data row that the mask rejects makes the selection strictly shorter than the data |
| Frames.Present | ggc_dashboard2_v2.py:34 | `dropna` holds exactly the non-null values of the column |
| Strings.LessIrreflexive | ggc_dashboard2_v2.py:34 | no string sorts before itself |
| Strings.LessTransitive | ggc_dashboard2_v2.py:34 | the string order is transitive |
| Strings.LessTotal | ggc_dashboard2_v2.py:34 | of two distinct strings, one sorts before the other |
| Strings.InsertUnique | ggc_dashboard2_v2.py:34 | inserting into a strictly increasing list keeps it strictly increasing and adds exactly that one element |
| Strings.SortedUnique | ggc_dashboard2_v2.py:34 | `sorted(unique())` is strictly increasing, has exactly the elements of the input, and holds each once |
| Strings.IncreasingUnique | ggc_dashboard2_v2.py:34 | two strictly increasing lists with the same elements are equal, so the sorted distinct list is determined by the set of values |
| ProgressDashboard.FallHandles | ggc_dashboard2_v2.py:31-34 | the handles offered are sorted, duplicate-free, and are exactly the non-null handles of "2024 Fall" rows |
| ProgressDashboard.FirstNames | ggc_dashboard2_v2.py:38-39 | the first names offered are sorted, duplicate-free, and are exactly the non-null first names of the handle's "2024 Fall" rows |
| ProgressDashboard.NameSelection | ggc_dashboard2_v2.py:41-44 | the name is auto-selected exactly when there is one distinct name; otherwise all names are offered |
| ProgressDashboard.ChosenName | ggc_dashboard2_v2.py:41-44 | the name in use is one of the offered names |
| ProgressDashboard.UserRows | ggc_dashboard2_v2.py:38-47 | the rows step 4 reads are the data's rows with that edition, handle and name, in order, and they are non-empty for an offered name |
| ProgressDashboard.UserRow | ggc_dashboard2_v2.py:47 | the chosen row has the edition, handle and name, and it is the first such row of the data |
| ProgressDashboard.HistoryRowsMultiset | ggc_dashboard2_v2.py:51-59 | the id, competition and lift filters keep every copy of a row with that id, a competition and the lift, and nothing else |
| ProgressDashboard.KeyLeTotal | ggc_dashboard2_v2.py:66 | any two (year, season_order) keys are ordered one way or the other |
| ProgressDashboard.KeyLeTransitive | ggc_dashboard2_v2.py:66 | the key order is transitive |
| ProgressDashboard.InsertBy | ggc_dashboard2_v2.py:66 | inserting into a sorted list keeps it sorted by the key and adds exactly that element |
| ProgressDashboard.SortBy | ggc_dashboard2_v2.py:66 | `sort_values` yields a list sorted by (year, season_order), with missing values last, that is a permutation of its input |
| ProgressDashboard.History | ggc_dashboard2_v2.py:51-66 | the history is sorted by (year, season_order), holds exactly the data's rows with the id, a competition and the lift (each as often as the data does), and no other row |
| ProgressDashboard.MissingIdEmptyHistory | ggc_dashboard2_v2.py:48-51 | a missing id (NaN) equals no row, so its history is empty |
| ProgressDashboard.Converted | ggc_dashboard2_v2.py:60-63 | in kg the converted value times 2.20462 is the pound value; in lbs it is the pound value |
| ProgressDashboard.FallRows | ggc_dashboard2_v2.py:31 | a row is kept exactly when it is in the frame and its competition is the reference edition |
| ProgressDashboard.HandleRows | ggc_dashboard2_v2.py:38 | a row is kept exactly when it is of the reference edition and carries the chosen handle |
| ProgressDashboard.UserId | ggc_dashboard2_v2.py:47-48 | the id is that of the first row matching the handle and first name: some row matches with this id and no earlier row matches |
| ProgressDashboard.HistoryRows | ggc_dashboard2_v2.py:51-59 | a row is kept exactly when it is in the frame, has the user's id, a competition and a value for the lift |
| ProgressDashboard.IsBelow | ggc_dashboard2_v2.py:72-74 | a row with a null lift is never below; in lbs a row is below when its lift is under the value; in kg when its lift is under the value times 2.20462, so a pound value is compared with kilogram values |
| ProgressDashboard.Line | ggc_dashboard2_v2.py:79 | a table line carries the row's competition, its value in the chosen unit, and a percentile in [0, 100], below 100 in lbs |
| ProgressDashboard.PercentDiluted | ggc_dashboard2_v2.py:74 | the same count out of a total one larger gives a percentage no larger |
| ProgressDashboard.NullLiftDilutes | ggc_dashboard2_v2.py:73-74 | adding a row of the edition with a null lift leaves the below-count unchanged, grows the edition by one, and never raises the percentile |
| ProgressDashboard.EditionPercentile | ggc_dashboard2_v2.py:69-74 | the percentile is undefined exactly when the edition has no row; otherwise it lies in [0, 100] |
| ProgressDashboard.PercentBounds | ggc_dashboard2_v2.py:74 | a share of a count out of a larger total lies in [0, 100]; it is below 100 when the count is smaller, and above 0 when the count is positive |
| ProgressDashboard.PercentMonotone | ggc_dashboard2_v2.py:74 | a larger count gives a percentage no smaller |
| ProgressDashboard.EditionPercentileMonotone | ggc_dashboard2_v2.py:71-74 | for a fixed edition, a larger compared value never gets a smaller percentile |
| ProgressDashboard.OwnPercentileBelowHundred | ggc_dashboard2_v2.py:59-74 | in lbs, an entry's percentile in its own edition is defined and below 100 |
| ProgressDashboard.KgComparesPoundsWithKilograms | ggc_dashboard2_v2.py:72-73 | in kg the stored pound value is compared with kilogram values, so an entry with a positive lift is counted below itself and its percentile is above 0 |
| ProgressDashboard.EntryPercentile | ggc_dashboard2_v2.py:69-76 | `get_percentile` of a history row lies in [0, 100], and below 100 in lbs |
| ProgressDashboard.RowsOf | ggc_dashboard2_v2.py:79 | the frame's rows, position by position |
| ProgressDashboard.InsertKeepsRows | ggc_dashboard2_v2.py:66 | inserting a record into the sorted frame moves its row as inserting the row alone would |
| ProgressDashboard.SortKeepsRows | ggc_dashboard2_v2.py:66 | sorting the frame orders its rows as sorting the rows alone would |
| ProgressDashboard.UserData.constructor | ggc_dashboard2_v2.py:51-59 | the frame holds the given rows and no added column |
| ProgressDashboard.UserData.SetColumn | ggc_dashboard2_v2.py:61-76 | assigning a column sets it in every row, position by position, and changes nothing else |
| ProgressDashboard.UserData.SortValues | ggc_dashboard2_v2.py:66 | `sort_values` returns a new frame whose records are the old ones sorted by (year, season_order) |
| ProgressDashboard.ConvertedColumn | ggc_dashboard2_v2.py:60-63 | the converted column has one value per history row |
| ProgressDashboard.PercentileColumn | ggc_dashboard2_v2.py:76 | the `Percentile` column has one value per history row |
| ProgressDashboard.ConvertedName | ggc_dashboard2_v2.py:61 | the converted column's name never clashes with `Percentile` |
| ProgressDashboard.ConvertedFrame | ggc_dashboard2_v2.py:59-63 | after the converted column is set, the frame keeps its rows and each record holds its own lift in the chosen unit |
| ProgressDashboard.SortedFrame | ggc_dashboard2_v2.py:66 | sorting the frame sorts its rows and keeps each row's converted value with it |
| ProgressDashboard.TableOf | ggc_dashboard2_v2.py:79-81 | the table has one line per frame row |
| ProgressDashboard.TableLines | ggc_dashboard2_v2.py:76-81 | once the percentile column is set, table line i is the history line of history entry i, and its percentile lies in [0, 100] (below 100 in lbs) |
| ProgressDashboard.SelectUser | ggc_dashboard2_v2.py:31-59 | the steps from handle to `user_data` give the resolved competitor's id and exactly their history rows |
| ProgressDashboard.ConvertAndSort | ggc_dashboard2_v2.py:61-66 | the frame built from `user_data`, with the converted column set and then sorted, holds the rows sorted by (year, season_order), each record carrying its own lift in the chosen unit |
| ProgressDashboard.HistoryTable | ggc_dashboard2_v2.py:59-81 | from `user_data`, the steps that add the converted column, sort the frame, add the percentile and pick three columns give the history: one line per entry, in order, with the converted lift and the edition percentile in [0, 100] (below 100 in lbs) |
| ProgressDashboard.ProgressTable | ggc_dashboard2_v2.py:31-81 | the table shown is the competitor's sorted history, one line per entry: its competition, its lift in the chosen unit, and its edition percentile in [0, 100] (below 100 in lbs) |
| LiftDashboard.FilterGender | ggc_dashboard.py:34-35 | "All" leaves the frame unchanged; any other gender keeps exactly that gender's rows (every copy of them) and all the columns |
| LiftDashboard.FilterGenderInOrder | ggc_dashboard.py:35 | the gender filter keeps the rows in the order of the data |
| LiftDashboard.Project | ggc_dashboard.py:37-38 | the columns narrow to Name, Gender and the category exactly when the category is a data column; the rows are unchanged |
| LiftDashboard.ImprovementIsNoColumn | ggc_dashboard.py:19-37 | "Improvement" is no column of the data |
| LiftDashboard.ToPounds | ggc_dashboard.py:45-46 | kilograms are multiplied by 2.20462, which raises a positive value; "Pounds" and "" leave the value unchanged |
| LiftDashboard.CountBelow | ggc_dashboard.py:51 | the number of cut points strictly below the value is at most the number of cut points |
| LiftDashboard.CountBelowAll | ggc_dashboard.py:51 | a value above every cut point counts all of them |
| LiftDashboard.CountBelowNone | ggc_dashboard.py:51 | a value at or below every cut point counts none |
| LiftDashboard.CountBelowMonotone | ggc_dashboard.py:51 | a larger value counts at least as many cut points |
| LiftDashboard.CountBelowIsPrefix | ggc_dashboard.py:49-51 | on non-decreasing cut points, cut point i is below the value exactly when i is less than the count |
| LiftDashboard.Min | ggc_dashboard.py:49 | the minimum of a non-empty column is one of its values and no larger than any of them |
| LiftDashboard.Max | ggc_dashboard.py:49 | the maximum of a non-empty column is one of its values and no smaller than any of them |
| LiftDashboard.Distribution | ggc_dashboard.py:49 | for a lift, the distribution holds exactly the non-null values of that lift in the filtered rows, no more of them than rows; for Improvement it is empty |
| LiftDashboard.GridPercentile | ggc_dashboard.py:50-52 | `/ 100 * 100` is the identity: the percentile is the count of cut points below, between 0 and the number of cuts |
| LiftDashboard.AboveMaxIs101 | ggc_dashboard.py:49-52 | a value above the column's maximum gives 101 |
| LiftDashboard.AtMostMinIsZero | ggc_dashboard.py:49-52 | a value at or below the column's minimum gives 0 |
| LiftDashboard.GridPercentileMonotone | ggc_dashboard.py:49-52 | the grid percentile never decreases as the entered value grows, and stays within 0..101 |
| LiftDashboard.Filtered | ggc_dashboard.py:32-38 | the filtered frame has the category column exactly when the data does |
| LiftDashboard.Dashboard | ggc_dashboard.py:32-63 | the page shows the filtered frame. The prompt appears exactly when the input is empty or the category is not a column. The error appears exactly when the input is non-empty, the column exists and the text is not a number. Otherwise the percentile is the count of cut points below the value in pounds, between 0 and 101 |
| LiftDashboard.ImprovementPrompts | ggc_dashboard.py:37-63 | choosing "Improvement" always shows the prompt and computes no percentile |
| LiftDashboard.KilogramsRankHigher | ggc_dashboard.py:45-52 | the same non-negative number entered in kilograms never gets a lower percentile than in pounds |

## Left out

- Streamlit widgets, the page title, `st.write`, `st.dataframe`, `st.error` and the text formatting are left out: they are UI only. The sidebar and select-box choices become parameters.
- `load_data` in both files is left out: it is I/O and caching (a CSV file, a base64 secret, `st.cache_data`). The data is a parameter.
- The matplotlib plot (ggc_dashboard2_v2.py:86-94) is left out: it is display only.
- Floating point is left out. Values are exact `real`s.
  - `round(..., 2)` in `get_percentile` is not modelled.
  - The IEEE rounding of ×2.20462, ÷2.20462 and `/ 100 * 100` is not modelled. In floats, `29 / 100 * 100` is not exactly 29.
- `float()` on the entered text is a `parse` parameter. It returns `None` where Python raises `ValueError`.
- numpy's interpolation in `np.percentile` is not modelled. The cut points are a parameter `cuts`, constrained by `QuantileGrid`: 101 non-decreasing values, the first the column minimum and the last the maximum.
- Crash paths are preconditions rather than modelled exceptions:
  - `first_names[0]` on an empty list;
  - a missing `Name` or `Gender` column;
  - `np.percentile` of an empty column, which raises an `IndexError` that the page does not catch.
- Regular expressions in general are not modelled, and neither are Unicode `\d`, `\s` and case folding. The one pattern is modelled over ASCII: `\d` is 0-9 and `\s` is Python's ASCII whitespace.
- `extract_year_season` is modelled, but the page never calls it. The page reads the `year` and `season_order` columns as given.
- ProgressDashboard.SortBy: the sort that `sort_values` performs is stable, but the model does not prove stability. It proves the order by (year, season_order) and that the result is a permutation.
- LiftDashboard.Dashboard: a frame is assumed to have only the columns `Row` carries (`WellFormed`), so "Improvement" is never a column. The script's own CSV is not part of this model.
- Competitions are not disambiguated by season: the page groups rows by the `competition` string alone.
- No error is raised when a handle and first name match several unique ids; the id of the first matching row is taken.
- No minimum amount of data is required before a percentile is computed; an edition with a single row already yields one.
