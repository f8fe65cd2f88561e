# Competition-series scoreboard and missing-ranges presenter, in Dafny

This project models two parts of a skydiving results application.

**The scoreboard of a competition series** (`CompetitionSeries::Scoreboard`).
A series scores several competitions (events) together. The scoreboard:

- lists the series' rounds, one per distinct (discipline, number) pair,
  ordered by number and then by the earliest creation time of that pair's
  rows;
- marks a round excluded when its slug is one of the settings' excluded rounds;
- groups the rounds by discipline;
- counts the table's columns;
- builds one category per distinct section name, ordered by the mean
  `order` of the sections of that name. A category's competitors are those
  whose section name equals the category's name up to case. Its results
  are those competitors' results.

The database is modelled as an in-memory `Store` of rows. Each query
becomes a selection (`Filter`), a grouping (`GroupBy`) and an ordering
(`Sort`) of those rows. The memoized `@rounds`, `@categories`,
`@competitors` and `@results` are `Option` fields of the class
`Scoreboard.Scoreboard`, and its methods fill them on the first call.

**The missing-ranges presenter of a track** (`Tracks::MissingRangesPresenter`).
It takes the gaps in a track's recording and a selected window
`start_time..end_time`:

- it returns nothing for an empty window or a nil list;
- it otherwise deletes, in place, every gap lasting one second or less;
- it keeps each remaining gap that starts or ends inside the window, in
  order;
- it shifts each kept gap to the window's start, raises its start to 0 and
  lowers its end to `end_time`.

Times are integers counted in tenths of a second (`TicksPerSecond = 10`).

Files:

- `collections.dfy`: module `Collections`, with selection, `compact`,
  grouping and insertion sort, and their lemmas.
- `scoreboard.dfy`: module `Scoreboard`.
- `missing_ranges.dfy`: module `MissingRanges`.

## Model

| member | source | states |
|---|---|---|
| Collections.Filter | app/presenters/tracks/missing_ranges_presenter.rb:28 | selection never grows the list and keeps only elements of the input that satisfy the predicate |
| Collections.FilterMember | app/models/competition_series/scoreboard.rb:55 | an element is selected iff it occurs in the input and satisfies the predicate |
| Collections.FilterCount | app/presenters/tracks/missing_ranges_presenter.rb:28 | selection keeps every copy of an element that satisfies the predicate and no copy of one that does not |
| Collections.FilterIsSubsequence | app/models/competition_series/scoreboard.rb:55 | the selected elements keep their relative order (an order-preserving embedding) |
| Collections.Compact | app/presenters/tracks/missing_ranges_presenter.rb:20 | `compact` never grows the list; CompactMember states which values survive and CompactIsSubsequence that they keep their order |
| Collections.CompactIsSubsequence | app/presenters/tracks/missing_ranges_presenter.rb:20 | `compact` keeps the present values in their original order: each kept value is the value at a strictly increasing index of the input |
| Collections.CompactMember | app/presenters/tracks/missing_ranges_presenter.rb:20 | a value survives `compact` iff it was present (non-nil) in the input |
| Collections.GroupBy | app/models/competition_series/scoreboard.rb:13 | Ruby's `group_by` (and SQL's GROUP BY at lines 21 and 35): a new key opens a group at the end, a known key appends to its group; GroupByGroups states what it computes |
| Collections.GroupByGroups | app/models/competition_series/scoreboard.rb:13 | `group_by` gives distinct keys in order of first occurrence, one non-empty group per key that occurs, each holding exactly the elements with its key, in order |
| Collections.MatchingCount | app/models/competition_series/scoreboard.rb:13 | the group of a key keeps every copy of each element with that key and nothing else |
| Collections.InExactlyOneGroup | app/models/competition_series/scoreboard.rb:13 | under such a grouping, every element lies in exactly one group |
| Collections.GroupCount | app/models/competition_series/scoreboard.rb:25 | the number of groups is the number of distinct keys |
| Collections.Sort | app/models/competition_series/scoreboard.rb:36 | SQL's ORDER BY (also line 20), as an insertion sort: the result is a permutation of the input of the same length; SortSorted states that it is ordered |
| Collections.SortSorted | app/models/competition_series/scoreboard.rb:36 | ORDER BY under a total preorder yields a sorted permutation of its input |
| Collections.SortKeepsDistinct | app/models/competition_series/scoreboard.rb:33 | ordering keeps rows with distinct keys distinct |
| Scoreboard.ScopedRounds | app/models/competition_series/scoreboard.rb:34 | the round rows whose event is one of the series' competitions, in store order |
| Scoreboard.ScopedSections | app/models/competition_series/scoreboard.rb:18 | the section rows whose event is one of the series' competitions |
| Scoreboard.ScopedCompetitors | app/models/competition_series/scoreboard.rb:44 | the competitors whose event is one of the series' competitions |
| Scoreboard.ScopedResults | app/models/competition_series/scoreboard.rb:68 | the results whose round is a round of one of the series' competitions |
| Scoreboard.SeriesRoundIds | app/models/competition_series/scoreboard.rb:68 | the subquery `Event::Round.where(event: series.competitions)`: the ids of the round rows of the series' competitions |
| Scoreboard.MinCreatedAt | app/models/competition_series/scoreboard.rb:32 | `min(created_at)` is a lower bound of the rows' creation times and is attained by one of them |
| Scoreboard.RoundEntries | app/models/competition_series/scoreboard.rb:31-36 | the rounds query yields no (discipline, number) pair twice |
| Scoreboard.RoundEntriesSummarize | app/models/competition_series/scoreboard.rb:31-36 | each entry is a pair that occurs among the rows, carrying the minimum creation time of that pair's rows; every pair of the rows has an entry; entries are ordered by number, then by that minimum |
| Scoreboard.RoundsOnePerPair | app/models/competition_series/scoreboard.rb:31-35 | the series' rounds are pairwise distinct, and a pair is among them iff some round row of a competition of the series has that discipline and number |
| Scoreboard.RoundsOrdered | app/models/competition_series/scoreboard.rb:36 | a round never precedes one of smaller number; at equal number, its earliest creation time is not later |
| Scoreboard.Slug | app/models/competition_series/scoreboard.rb:50 | the slug compared with the excluded rounds begins with the round's discipline followed by a hyphen (the number follows in decimal) |
| Scoreboard.Round.MarkExcluded | app/models/competition_series/scoreboard.rb:50 | `excluded!` sets the round's excluded flag |
| Scoreboard.Round.constructor | app/models/competition_series/scoreboard.rb:49 | a new round has the record's discipline and number and is not excluded |
| Scoreboard.Scoreboard.BuildRound | app/models/competition_series/scoreboard.rb:47-51 | build_round returns a new round of the pair, excluded iff its slug is in the settings' excluded rounds |
| Scoreboard.Scoreboard.BuildRounds | app/models/competition_series/scoreboard.rb:37 | the map over the query builds one new round per pair, in the query's order, with the exclusion flag of build_round |
| Scoreboard.Scoreboard.Rounds | app/models/competition_series/scoreboard.rb:29-38 | rounds returns the rounds built from the rounds query and stores them; once stored, later calls return the stored rounds and leave the memo and the footprint `Repr` as they were |
| Scoreboard.ColumnsFor | app/models/competition_series/scoreboard.rb:25 | the column count is twice the number of rounds, plus the number of distinct disciplines, plus 4; it is 4 with no rounds |
| Scoreboard.Scoreboard.ColumnsCount | app/models/competition_series/scoreboard.rb:25 | columns_count over the memoized rounds is 2·rounds + disciplines + 4, and 4 when the series has no rounds; stored rounds, competitors and results stay as they were |
| Scoreboard.RoundsByDisciplinePartitions | app/models/competition_series/scoreboard.rb:13 | rounds_by_discipline puts every round in exactly one group; each group holds only rounds of its discipline, in scoreboard order; disciplines come in order of first occurrence |
| Scoreboard.Scoreboard.RoundsByDiscipline | app/models/competition_series/scoreboard.rb:13 | rounds_by_discipline is the grouping by discipline of the memoized rounds; stored rounds, competitors and results stay as they were |
| Scoreboard.MeanOrder | app/models/competition_series/scoreboard.rb:19 | `avg("order")`: the sum of the rows' order values divided by their count, as an exact real |
| Scoreboard.CategoryEntries | app/models/competition_series/scoreboard.rb:17-21 | the sections query yields each section name at most once, in ascending mean order |
| Scoreboard.CategoryEntriesSummarize | app/models/competition_series/scoreboard.rb:17-21 | each entry is a name that occurs among the rows, carrying the mean order of that name's rows, and every name of the rows has an entry |
| Scoreboard.CategoriesOnePerName | app/models/competition_series/scoreboard.rb:17-21 | the category names are pairwise distinct, and a name is among them iff some section of a competition of the series has exactly that name |
| Scoreboard.CategoriesOrdered | app/models/competition_series/scoreboard.rb:20 | a category never precedes one whose sections have a smaller mean order |
| Scoreboard.CaseEqual | app/models/competition_series/scoreboard.rb:55 | `casecmp?` with ASCII folding: equal length and equal characters once 'A'..'Z' are lowered |
| Scoreboard.CaseEqualMeansSameUpToCase | app/models/competition_series/scoreboard.rb:55 | the model's `casecmp?` holds iff the strings have equal length and agree character by character up to the case of an ASCII letter |
| Scoreboard.SelectCompetitors | app/models/competition_series/scoreboard.rb:54-55 | the `casecmp?` select: the given competitors whose section name equals the name up to case, in their order |
| Scoreboard.SelectResults | app/models/competition_series/scoreboard.rb:56-57 | the `include?` select: the given results whose competitor is one of the given competitors, in their order |
| Scoreboard.CategoryCompetitors | app/models/competition_series/scoreboard.rb:54-55 | `category_competitors` over the series' competitors (CategoryMembers states what it holds) |
| Scoreboard.CategoryResults | app/models/competition_series/scoreboard.rb:56-57 | `category_results` over the series' results (CategoryMembers states what it holds) |
| Scoreboard.CategoryMembers | app/models/competition_series/scoreboard.rb:53-57 | a category's competitors are exactly the series' competitors whose section name equals the name up to case; its results are exactly the series' results of those competitors; both keep their order |
| Scoreboard.CaseVariantsShareCompetitors | app/models/competition_series/scoreboard.rb:55 | two names equal up to case select the same competitors and the same results |
| Scoreboard.Scoreboard.constructor | app/models/competition_series/scoreboard.rb:8-11 | a new scoreboard holds the series and settings, with nothing memoized |
| Scoreboard.Scoreboard.Competitors | app/models/competition_series/scoreboard.rb:40-45 | competitors returns the competitors of the series' competitions and memoizes them |
| Scoreboard.Scoreboard.Results | app/models/competition_series/scoreboard.rb:64-69 | results returns the results of the rounds of the series' competitions and memoizes them |
| Scoreboard.ViewsOfBuilt | app/models/competition_series/scoreboard.rb:50-59 | the rounds handed to Standings.build show their pair and, for each, the exclusion flag build_round set: excluded iff its slug is among the settings' excluded rounds |
| Scoreboard.Scoreboard.CategoryOver | app/models/competition_series/scoreboard.rb:54-61 | build_category's value: the category of the name, with the standings built from the competitors whose section name equals it up to case, the rounds, and those competitors' results |
| Scoreboard.Scoreboard.Inputs | app/models/competition_series/scoreboard.rb:55-59 | the reads build_category makes: the memoized competitors and results of the series and the memoized rounds with their exclusion flags; stored rounds stay as they were |
| Scoreboard.Scoreboard.BuildCategory | app/models/competition_series/scoreboard.rb:53-62 | build_category returns the category of that name whose standings are built from its competitors, the memoized rounds (pair and exclusion flag) and its results; it fills the competitors and results memos and leaves stored rounds in place |
| Scoreboard.Scoreboard.BuildCategories | app/models/competition_series/scoreboard.rb:17-22 | the map over the sections query builds one category per entry, in its order; with no entry it reads and changes nothing, otherwise it fills the rounds, competitors and results memos |
| Scoreboard.Scoreboard.Categories | app/models/competition_series/scoreboard.rb:15-23 | categories returns one built category per entry of the sections query, in its order, and stores them; once stored, later calls return them unchanged and change no other memo |
| MissingRanges.IsLong | app/presenters/tracks/missing_ranges_presenter.rb:28 | a gap is kept when its end minus its start exceeds one second (10 tenths) |
| MissingRanges.LongRanges | app/presenters/tracks/missing_ranges_presenter.rb:28 | the gaps `delete_if` keeps: the long ones, in order |
| MissingRanges.Covers | app/presenters/tracks/missing_ranges_presenter.rb:44-46 | `(start_time..end_time).cover?(t)`: start_time ≤ t ≤ end_time |
| MissingRanges.Intersects | app/presenters/tracks/missing_ranges_presenter.rb:33-34 | a gap intersects the window when the window covers its start or its end |
| MissingRanges.Shift | app/presenters/tracks/missing_ranges_presenter.rb:37-40 | the shown start is the shifted start or 0 when that is negative; the shown end is the shifted end or end_time when that is larger; start ≥ 0 and end ≤ end_time |
| MissingRanges.Reposition | app/presenters/tracks/missing_ranges_presenter.rb:32-41 | a gap yields a shown range iff its start or end lies in the closed window, and that range is the shifted gap |
| MissingRanges.Rearrange | app/presenters/tracks/missing_ranges_presenter.rb:31-42 | the map keeps the length and repositions each gap at its own index |
| MissingRanges.Present | app/presenters/tracks/missing_ranges_presenter.rb:13-21 | call yields [] for an empty window and for nil ranges, and never more ranges than it was given |
| MissingRanges.CompactRearrange | app/presenters/tracks/missing_ranges_presenter.rb:17-20 | compacting the rearranged gaps gives the gaps inside the window, in order, each shifted |
| MissingRanges.PresentShiftsSelected | app/presenters/tracks/missing_ranges_presenter.rb:13-21 | for a non-empty window, call gives the long gaps inside the window, in their order, each shifted and clamped |
| MissingRanges.SelectedMembers | app/presenters/tracks/missing_ranges_presenter.rb:27-35 | a gap is shown iff it lasts more than one second and starts or ends within start_time..end_time; the shown gaps keep their order |
| MissingRanges.PresentBounds | app/presenters/tracks/missing_ranges_presenter.rb:38-39 | every shown range starts at or after 0 and ends at or before end_time |
| MissingRanges.EnclosingGapDropped | app/presenters/tracks/missing_ranges_presenter.rb:33-35 | a gap that starts before the window and ends after it is not shown |
| MissingRanges.ReversedWindowShowsNothing | app/presenters/tracks/missing_ranges_presenter.rb:44-46 | a window whose start is after its end covers nothing, so nothing is shown |
| MissingRanges.EndClampedAtEndTime | app/presenters/tracks/missing_ranges_presenter.rb:39 | the end is clamped at end_time itself, not at the window's length: on every window with 0 < start_time < end_time, a long gap starting at end_time is shown ending at end_time, past end_time - start_time |
| MissingRanges.GapList.constructor | app/presenters/tracks/missing_ranges_presenter.rb:7-9 | the caller's array `@ranges`, which `delete_if` later changes in place: a new list holds the given gaps |
| MissingRanges.RemoveShortRanges | app/presenters/tracks/missing_ranges_presenter.rb:27-29 | `delete_if` leaves in the caller's list exactly its gaps that last more than one second, in order |
| MissingRanges.Call | app/presenters/tracks/missing_ranges_presenter.rb:13-21 | call returns the presenter's result on the list as given; the caller's list loses its short gaps iff it is not nil and the window is not empty |

## Left out

- The `adjust_to_wind?` / `split_by_categories?` delegation and the parsing of the parameters into `Settings` (the Settings class is not part of this model); `Settings` holds only the excluded round slugs.
- `Standings.build` and its scoring are not part of this model: the scoreboard takes the standings builder as a function parameter. It receives the rounds as values (pair and exclusion flag) read when it is called, rather than the round objects: a round has no other state, so only object identity is not passed.
- The `Round` and `Category` classes are not part of this model beyond what the scoreboard uses. A round's slug is taken to be its discipline, a hyphen and its number.
- The order of ties is not modelled: rounds of equal number and equal earliest creation time, and sections of equal mean order. The database leaves it unspecified. The model sorts stably, and its lemmas claim only the ordering and the permutation.
- `includes` (eager loading of associations) changes no result and is left out. Rows carry their association ids, and a competitor carries its section's name, so every competitor is taken to have a section.
- CaseEqualMeansSameUpToCase: characterizes `casecmp?` with ASCII-only case folding; Ruby's `casecmp?` also equates non-ASCII letters that differ only by case (for example "ä" and "Ä"), which the model does not.
- CaseEqual: folds only 'A'..'Z' to 'a'..'z'; Ruby's `casecmp?` also equates non-ASCII letters that differ only by case.
- CategoryMembers: compares names with ASCII-only case folding, whereas Ruby's `casecmp?` also folds non-ASCII letters (Unicode case folding is not available).
- The sections query groups names exactly. Two sections whose names differ only by case are therefore two categories, even though each selects the same competitors (CaseVariantsShareCompetitors). Case variants of a name are not merged into one category.
- `avg("order")` is taken as an exact real mean. Database numeric precision is left out.
- The map over the sections query (BuildCategories) reads the memoized competitors, results and rounds once, before the map, and only when the query has at least one entry. The source's build_category reads the same memoized values for each entry, so the categories and the memos it fills are the same; with no entry neither reads anything. The order in which the first database queries are issued is not modelled.
- Memoization is stated as: once a memo is stored, later calls return it and leave it (and the footprint `Repr`) as it was. The number of database queries is not modelled.
- Presenter times are integers in tenths of a second. Ruby `Time`/float arithmetic and `.round(1)` are not modelled: rounding leaves such values unchanged.
- Gaps are records with integer `start` and `end`. Hashes with missing or non-numeric keys, which would raise in the source, are not modelled.
- The presenter's `self.call(*args)` / `initialize` pair is folded into `Call`, which takes the list, start_time and end_time directly.
- The end of a shown range is clamped at `end_time` as the code does, not at the window's length `end_time - start_time` (shown by EndClampedAtEndTime). Whether that was intended cannot be told from the code, so it is modelled as written.
