# Training dashboard aggregation, in Dafny

This project models the data logic of a training dashboard. The dashboard reads
two CSV feeds: an LMS export of course enrolments, and a product-demo engagement
feed. It folds them into summary tables and shows those tables as filterable
grids and charts. The model covers these parts:

- **The LMS aggregation** (`DataService.processData`). Parsed LMS records become
  three results:
  - a course catalogue that counts attempts and completions per course;
  - a per-(centre number, course) breakdown that counts every record as an
    available role, plus the completed ones;
  - a user list with one row per record and 0/1 started/completed flags.

  The two `forEach` loops that fill the JavaScript `Map`s are imperative
  methods (`CountCourses`, `CountCentres`). Each is proved against a counting
  specification (`Catalogue`, `CentreRows`, `UserRows`). The service class's
  `ProcessData` returns exactly `Processed(lmsData)`. A JavaScript `Map` is an
  `OrderedMap`: keys in insertion order, plus a Dafny `map`. The order of the
  output rows is therefore first appearance.
- **The centre pie chart** (`CentreProgressChart`). The accumulate-or-append
  `reduce`, with its lookup corrected to compare the entry's `name` (see
  "## Findings"), is a method with a loop. It is proved equal to
  `CentreProgress`, whose names, order and column totals are proved as lemmas.
  The lookup as written, on `centreName`, is modelled alongside
  (`Regroup` with `AsWrittenKey`) and proved never to merge.
- **The training status chart** (`TrainingCompletionChart`). Its per-module
  mapping uses a completion rate guarded against a zero total.
- **The demo engagement view** (`StorylaneView`). This covers:
  - the percent normalisation;
  - the search and country filter;
  - every metric of `calculateMetrics`: the four completion buckets (filled by
    an imperative loop), the average, the CTA counts and rate, and the
    per-country counts sorted in descending order.
- **The date range selector** (`DateRangeFilter`). It is a class whose fields
  are the component's state (preset, start, end, custom-range flag). Its
  handlers are methods, and the sequence of `(start, end)` pairs reported to the
  parent is a field `reports`. It also holds the sorted date list and the
  end-date options.
- **The three tables' filters** (`TrainingCatalogueView`, `CentreView`,
  `CentreUserView`). Each is one generic `Filter` (in `TableFilter`) applied
  with the view's own predicate. The model also covers their drop-down option
  lists and the catalogue's "webinar" header rule.

Shared vocabulary:
- Text: ASCII lower-casing, substring search, join, number text, and
  lexicographic order.
- Rounding: `Math.round`, and a guarded percentage.
- Grouping: `Array.from(new Set(..))` as `FirstSeen`, and per-key sums.
- `OrderedMaps` and `Options`.

Where the declared types (src/types/index.ts) and the code disagree, the model
follows the code:
- `processData` (src/services/DataService.ts:141-172) produces only
  `trainingCatalogue`, `centreData` and `centreUserData`. It produces no
  `storylaneData` and no `availableDates`, yet the demo view reads both. The
  demo view is therefore modelled on its own input list of `StorylaneData`
  items (src/types/index.ts), not on `processData`'s output.
- The catalogue, centre and user tables are modelled on the row shapes
  `processData` builds. The chart `TrainingCompletionChart` is modelled on its
  own declared `TrainingData` input.

## Model

| member | source | states |
|---|---|---|
| DataService.CountCourses | src/services/DataService.ts:97-109 | after the catalogue loop, the map's keys are the distinct courses in order of first appearance, and each course's attempted/completed tallies count that course's records with a started/completion date |
| DataService.CountCentres | src/services/DataService.ts:120-139 | after the centre loop, the keys are the distinct centre numbers in first-appearance order; each centre keeps the country of its first record, and its inner map counts every record of each course as available and the completed ones |
| DataService.DataService.ProcessData | src/services/DataService.ts:90-173 | the returned tables are exactly the counting specification `Processed` of the stored records |
| DataService.DataService.LoadData | src/services/DataService.ts:61-68 | both parsed feeds are stored, and the result is the processed LMS feed |
| DataService.UserRow | src/services/DataService.ts:162-171 | a user row copies the record's centre number, country and course; `startedTraining` is 1 exactly when there is a started date and 0 otherwise, and the same holds for `completedTraining` |
| DataService.TallyIsSumWhere | src/services/DataService.ts:101-106 | a per-key tally is the per-key sum of the record weights |
| DataServiceProperties.CatalogueCoversCourses | src/services/DataService.ts:98-108 | a course has a catalogue row if and only if some record has that course |
| DataServiceProperties.CatalogueModulesDistinct | src/services/DataService.ts:108 | no two catalogue rows name the same course |
| DataServiceProperties.CatalogueInFirstAppearanceOrder | src/services/DataService.ts:142 | catalogue rows are in the order of each course's first record |
| DataServiceProperties.CatalogueTotals | src/services/DataService.ts:101-106 | summed over the catalogue, attempts equal the records with a started date and completions the records with a completion date |
| DataServiceProperties.CatalogueRowBounds | src/services/DataService.ts:101-106 | a course's attempts and completions never exceed its number of records |
| DataServiceProperties.CentreRowsSound | src/services/DataService.ts:132-135 | every centre row has at least one available role, completions no more than available roles, and the name of its centre's first record |
| DataServiceProperties.CentreTotals | src/services/DataService.ts:120-139 | available roles summed over all centre rows equal the number of LMS records, and completions equal the records with a completion date |
| DataServiceProperties.GroupTotals | src/services/DataService.ts:150-159 | one centre's rows together count exactly that centre's records, and its completed records |
| DataServiceProperties.CentreNameStable | src/services/DataService.ts:122-125 | appending records never changes the name of a centre already seen |
| DataServiceProperties.UserTotals | src/services/DataService.ts:162-171 | the user list's started and completed flags sum to the records with those dates |
| DataServiceProperties.TablesAgree | src/services/DataService.ts:141-172 | catalogue attempts equal user starts; catalogue, centre and user completions are equal; available roles equal the number of user rows |
| DataServiceProperties.TotalEveryRecord | src/services/DataService.ts:132 | counting every record yields the number of records |
| DataServiceProperties.TotalByGroups | src/services/DataService.ts:150-160 | summing a measure over the distinct keys yields its total over all records |
| DataServiceProperties.AtCentreTotal | src/services/DataService.ts:121-138 | a measure over one centre's records equals that centre's tally |
| DataServiceProperties.CentreSumsConcat | src/services/DataService.ts:150 | the column sums of a `flatMap` result add up over its parts |
| CentreProgressChart.FirstMatch | src/components/charts/CentreProgressChart.tsx:36 | the index found is the first entry that matches, and no entry matches when none is found |
| CentreProgressChart.Find | src/components/charts/CentreProgressChart.tsx:36 | the search loop returns the first matching entry's index |
| CentreProgressChart.Rate | src/components/charts/CentreProgressChart.tsx:45 | there is no rate exactly when the row has no roles; otherwise it is within 0..100 when completions do not exceed roles |
| CentreProgressChart.AggregateByCentre | src/components/charts/CentreProgressChart.tsx:35-54 | the reduce loop, matching on the entry's name, yields exactly `CentreProgress` of the rows |
| CentreProgressChart.ProgressNames | src/components/charts/CentreProgressChart.tsx:36-47 | the entries' names are the distinct centre names of the rows, in order of first appearance |
| CentreProgressChart.ProgressDistinct | src/components/charts/CentreProgressChart.tsx:35-49 | entry names are pairwise distinct, there are no more entries than rows, and no rows give no entries |
| CentreProgressChart.ProgressCoversNames | src/components/charts/CentreProgressChart.tsx:41-46 | a name has an entry if and only if some row has that name |
| CentreProgressChart.ProgressInOrder | src/components/charts/CentreProgressChart.tsx:41-46 | entries appear in the order of their names' first rows |
| CentreProgressChart.ProgressEntries | src/components/charts/CentreProgressChart.tsx:37-45 | each entry's roles and completions are the sums over the rows with its name, and its rate is the rate of the first such row, never updated by later rows |
| CentreProgressChart.ProgressTotals | src/components/charts/CentreProgressChart.tsx:38-39 | the roles (or completions) summed over the entries equal the same sum over the rows |
| CentreProgressChart.SameNameMerges | src/components/charts/CentreProgressChart.tsx:36-39 | two rows with the same centre name become one entry with summed counts, whatever their centre numbers |
| CentreProgressChart.OneNameOneEntry | src/components/charts/CentreProgressChart.tsx:35-54 | rows that all share one name give at most one entry, with that name |
| CentreProgressChart.AsWrittenNeverMerges | src/components/charts/CentreProgressChart.tsx:36 | with the lookup on `centreName`, as written, no row ever merges: each row becomes its own entry |
| CentreProgressChart.AsWrittenDuplicatesNames | src/components/charts/CentreProgressChart.tsx:36 | as written, two rows of one centre give two entries with the same name, while the intended grouping gives one |
| CentreView.ChosenCentreGivesOneSlice | src/components/CentreView.tsx:80-81 | with a centre chosen in the table, the pie chart it feeds, with the corrected lookup, has at most one slice, and that slice is the chosen centre |
| CentreView.ChosenCentreAsWritten | src/components/CentreView.tsx:105 | with a centre chosen, the chart as written (lookup on `centreName`) draws one slice per shown row, every one named after the chosen centre |
| TrainingCompletionChart.CompletionRate | src/components/charts/TrainingCompletionChart.tsx:33-35 | the rate is 0 when the total is not positive, and within 0..100 for non-negative counts; it is 100 when everything is completed and 0 when nothing is |
| TrainingCompletionChart.ChartData | src/components/charts/TrainingCompletionChart.tsx:28-36 | one point per module, in order, named after the module; the three counts are copied unchanged and the rate is the guarded completion rate |
| TrainingCompletionChart.RateMonotone | src/components/charts/TrainingCompletionChart.tsx:33-35 | moving one unit from "not started" to "completed" never lowers the rate |
| Rounding.Round | src/components/StorylaneView.tsx:66 | `Math.round` lands within half a unit of its argument |
| Rounding.Percent | src/components/StorylaneView.tsx:171 | a rounded percentage of a part within a positive whole is within 0..100; it is 100 for the whole and 0 for nothing |
| StorylaneView.FixPercent | src/components/StorylaneView.tsx:62-70 | a fraction up to 1 becomes a rounded percentage (0..100 for 0..1), larger values are unchanged, and no other field changes |
| StorylaneView.FixedPercentData | src/components/StorylaneView.tsx:62-70 | normalisation keeps the length and fixes each item in place |
| StorylaneView.NoFiltersKeepAll | src/components/StorylaneView.tsx:123-134 | with no term and no country every item is kept |
| StorylaneView.FilteredRows | src/components/StorylaneView.tsx:123-134 | the result is an order-preserving subsequence; an item is in it exactly when it is in the data, has the chosen country (if any), and its lower-cased values contain the lower-cased term (if any) |
| StorylaneView.AvgCompletion | src/components/StorylaneView.tsx:139-141 | the average is 0 for no items |
| StorylaneView.AvgCompletionBounds | src/components/StorylaneView.tsx:139-141 | with every percentage within 0..100, the average is within 0..100 |
| StorylaneView.Bucket | src/components/StorylaneView.tsx:152-160 | each percentage falls in exactly one of four buckets: up to 25, above 25 up to 50, above 50 up to 75, and above 75 |
| StorylaneView.BucketsPartition | src/components/StorylaneView.tsx:144-161 | the four bucket counts add up to the number of items |
| StorylaneView.FillCompletionStatus | src/components/StorylaneView.tsx:144-161 | the counting loop over the four-slot array yields each bucket's count under its label |
| StorylaneView.CtaClicked | src/components/StorylaneView.tsx:170 | no more clicks than items |
| StorylaneView.CtaRate | src/components/StorylaneView.tsx:171 | the CTA rate is 0 for no items and always within 0..100 |
| StorylaneView.CtaClickData | src/components/StorylaneView.tsx:174-177 | "Clicked" and "Not Clicked" add up to the number of items |
| StorylaneView.SortDescendingSorted | src/components/StorylaneView.tsx:167 | the sorted country counts are in non-increasing order |
| StorylaneView.SortDescendingPermutes | src/components/StorylaneView.tsx:167 | sorting is a permutation of the country counts and keeps their sum |
| StorylaneView.CountryDataTotals | src/components/StorylaneView.tsx:118-120 | `countryData` is in non-increasing order and its counts add up to the number of filtered items |
| StorylaneView.CountryCountIsSumWhere | src/components/StorylaneView.tsx:165 | a country's count is the number of items with that country |
| StorylaneView.CalculateMetrics | src/components/StorylaneView.tsx:137-187 | the metrics returned are `MetricsOf` the data and the filtered items |
| StorylaneView.MetricsAddUp | src/components/StorylaneView.tsx:137-187 | buckets and the two click slices each add up to the filtered items; clicks do not exceed them; for no items the average and the rate are 0; the rate is within 0..100 |
| DateRangeFilter.SortDatesCorrect | src/components/DateRangeFilter.tsx:26 | `sortedDates` is an ascending permutation of the available dates |
| DateRangeFilter.InsertSorted | src/components/DateRangeFilter.tsx:26 | inserting a date into an ascending list keeps it ascending |
| DateRangeFilter.InsertPermutes | src/components/DateRangeFilter.tsx:26 | inserting adds exactly that date |
| DateRangeFilter.DateRangeFilter.constructor | src/components/DateRangeFilter.tsx:19-23 | the initial state is the "last 30 days" preset, empty start and end, pickers hidden, nothing reported; the given dates are kept unchanged |
| DateRangeFilter.DateRangeFilter.Mount | src/components/DateRangeFilter.tsx:29-42 | with dates available and the default preset, the last 30 days are selected and reported; otherwise nothing changes |
| DateRangeFilter.DateRangeFilter.HandlePresetChange | src/components/DateRangeFilter.tsx:44-104 | the preset is stored; start and end become the preset's range; the pickers show exactly for "custom"; that same pair is reported once |
| DateRangeFilter.AllIsUnbounded | src/components/DateRangeFilter.tsx:54-58 | "all" and unknown presets clear both bounds |
| DateRangeFilter.YearPresets | src/components/DateRangeFilter.tsx:76-86 | "last year" runs from 1 January to 31 December of the previous year, start before end; "this year" runs from 1 January to today |
| DateRangeFilter.CustomSpansDates | src/components/DateRangeFilter.tsx:88-96 | "custom" starts at the earliest and ends at the latest available date, both available and bounding every date; with no dates both bounds are empty |
| DateRangeFilter.DateRangeFilter.HandleStartDateChange | src/components/DateRangeFilter.tsx:106-110 | the start changes, the end and preset do not, and `(new start, end)` is reported |
| DateRangeFilter.DateRangeFilter.HandleEndDateChange | src/components/DateRangeFilter.tsx:112-116 | the end changes, the start and preset do not, and `(start, new end)` is reported |
| DateRangeFilter.EndOptionsExact | src/components/DateRangeFilter.tsx:162-163 | the end-date options are ascending and are exactly the available dates not before the start (or not before 0000-01-01 with no start) |
| DateRangeFilter.NoStartOffersAll | src/components/DateRangeFilter.tsx:162-163 | with no start chosen, every available date is offered |
| DateRangeFilter.FilterKeepsSorted | src/components/DateRangeFilter.tsx:162-163 | filtering an ascending list keeps it ascending |
| Text.EarliestDateIsLeast | src/components/DateRangeFilter.tsx:163 | every `YYYY-MM-DD` date is not before `0000-01-01` |
| Text.LexLeTransitive | src/components/DateRangeFilter.tsx:163 | the date order is transitive |
| Text.LexLeTotal | src/components/DateRangeFilter.tsx:163 | any two dates are comparable |
| Text.ToLower | src/components/CentreView.tsx:77-79 | lower-casing keeps the length and leaves no upper-case letter |
| Text.ToLowerIdempotent | src/components/CentreView.tsx:77-79 | lower-casing twice is lower-casing once |
| Text.JoinContainsPart | src/components/CentreView.tsx:76-77 | the joined values contain each value |
| TableFilter.FilterMembership | src/components/CentreView.tsx:73-93 | a row is kept exactly when it is in the data and satisfies the predicate |
| TableFilter.FilterIsSubsequence | src/components/CentreView.tsx:73 | filtering keeps the rows' order |
| TableFilter.FilterKeepsAll | src/components/CentreView.tsx:73-93 | a predicate that holds everywhere keeps every row |
| TableFilter.FilterNarrower | src/components/CentreUserView.tsx:93-99 | a stricter predicate keeps a subsequence of what a looser one keeps |
| TableFilter.SearchFindsField | src/components/CentreView.tsx:74-79 | a term equal to one field, ignoring case, matches the row |
| TableFilter.UniqueValuesExact | src/components/CentreView.tsx:62-70 | a drop-down lists each value of its column once and nothing else |
| TrainingCatalogueView.NoFiltersShowAll | src/components/TrainingCatalogueView.tsx:132-145 | with no term and no choices every row is shown |
| TrainingCatalogueView.FilteredInOrder | src/components/TrainingCatalogueView.tsx:132 | the rows shown keep their order |
| TrainingCatalogueView.FilteredRows | src/components/TrainingCatalogueView.tsx:132-145 | a row is shown exactly when it is in the data, matches each choice made, and its lower-cased values contain the lower-cased term when one is typed |
| TrainingCatalogueView.SearchByModuleFindsRow | src/components/TrainingCatalogueView.tsx:133-138 | typing a module's name, in any case, shows that module's row |
| TrainingCatalogueView.OptionsExact | src/components/TrainingCatalogueView.tsx:124-129 | the journey-point and type lists hold each value of the data exactly once |
| TrainingCatalogueView.HeaderRule | src/components/TrainingCatalogueView.tsx:42-49 | the header reads "Completed / Enrolled" exactly when some row's type contains "webinar" ignoring case, and "Completed" exactly when none does |
| TrainingCatalogueView.ChipImpliesWebinarHeader | src/components/TrainingCatalogueView.tsx:42-51 | a row that shows the webinar chip implies the webinar header |
| TrainingCatalogueView.ProcessedCatalogueHasNoWebinar | src/components/TrainingCatalogueView.tsx:42-44 | the catalogue `processData` builds is all of type "LMS", so it gets the plain header |
| CentreView.NoFiltersShowAll | src/components/CentreView.tsx:73-93 | with no term and no choices every row is shown |
| CentreView.FilteredInOrder | src/components/CentreView.tsx:73 | the rows shown keep their order |
| CentreView.FilteredRows | src/components/CentreView.tsx:73-93 | a row is shown exactly when it is in the data, matches each chosen centre, journey point and type, and contains the typed term ignoring case |
| CentreView.OptionsExact | src/components/CentreView.tsx:62-70 | the centre, journey-point and type lists hold each value of the data exactly once |
| CentreUserView.NoFiltersShowAll | src/components/CentreUserView.tsx:77-100 | with no term and no choices every row is shown |
| CentreUserView.FilteredInOrder | src/components/CentreUserView.tsx:77 | the rows shown keep their order |
| CentreUserView.FilteredRows | src/components/CentreUserView.tsx:77-100 | a row is shown exactly when it is in the data, matches each chosen centre, journey point, type and email, and contains the typed term ignoring case |
| CentreUserView.MoreFiltersShowFewer | src/components/CentreUserView.tsx:93-99 | setting more filters shows a subsequence of what was shown, never more rows |
| CentreUserView.OptionsExact | src/components/CentreUserView.tsx:63-74 | the centre, journey-point, type and email lists hold each value of the data exactly once |
| CentreUserView.ProcessedUsersShareOneEmail | src/components/CentreUserView.tsx:72-74 | on the user rows `processData` builds, the email list offers only the placeholder address, or nothing when there are no records |
| Grouping.FirstSeenMembership | src/components/CentreView.tsx:62-64 | `Array.from(new Set(..))` holds exactly the values of its input |
| Grouping.FirstSeenDistinct | src/components/CentreView.tsx:62-64 | `Array.from(new Set(..))` holds no value twice |
| Grouping.FirstSeenInOrder | src/services/DataService.ts:142 | the distinct values are in order of first appearance |
| Grouping.SumOverGroups | src/services/DataService.ts:150-160 | summing per-key totals over all distinct keys gives the grand total |
| OrderedMaps.OrderedMap.Set | src/services/DataService.ts:108 | `Map.set` appends a new key at the end, keeps the position of an existing key, and updates its value |

## Left out

- Fetching the two CSV files and parsing them (`loadLMSData`, `loadStorylaneData`, src/services/DataService.ts:70-88, and the views' `useEffect` loaders) are left out. They are network I/O and a foreign parser, so the parsed rows are parameters.
- The `Promise.all` join of the two fetches is left out. Only its concurrency is lost: both feeds are stored, one after the other, by `LoadData`.
- `filterByDateRange` is not defined in src/services/DataService.ts and is not part of this model. The demo view is modelled over its item list directly. `availableDates` is a constructor parameter of the date selector.
- The clock is not modelled. "Today", 30 and 90 days ago, and the year are fields of a `Clock` value passed in by the caller (src/components/DateRangeFilter.tsx:31-36, 51-85).
- DateRangeFilter.EndOptionsExact: `new Date(a) >= new Date(b)` is modelled as lexicographic order of the `YYYY-MM-DD` strings. This agrees with date order for well-formed dates only. Invalid dates (which JavaScript turns into `NaN`) are not modelled.
- Text.ToLower: `toLowerCase` folds ASCII letters only. Unicode case mapping is not modelled.
- StorylaneView.Values: the text of a number inside `Object.values(..).join(' ')` is a parameter (`numberText`), since JavaScript's number formatting is not modelled. The demo item's values are taken in the declared field order of `StorylaneData`.
- CentreProgressChart.Rate: the `NaN`/`Infinity` that a zero role count produces is the value `None`. Counts on the chart side are natural numbers, so negative counts are not modelled there.
- Rounding.Percent: `Math.round(part / whole * 100)` is computed in exact rational arithmetic with `floor(x + 0.5)`, so floating-point error is not modelled: 29 of 200 gives 15 here, where JavaScript computes 14.499999999999998 and rounds it to 14. This affects every user of `Percent` and `Round`: `TrainingCompletionChart.CompletionRate`, `CentreProgressChart.Rate`, `StorylaneView.CtaRate`, `StorylaneView.AvgCompletion` and `StorylaneView.FixPercent`.
- Rounding.Round: `Math.round` on an exact real; the floating-point value JavaScript rounds is not modelled (see the line above).
- TrainingCompletionChart.CompletionRate: the chart is modelled on its declared `TrainingData` input. src/components/TrainingCatalogueView.tsx:160 hands it the catalogue rows instead, which have no `notStarted`, `inProgress` or `completed` fields; the sum of the missing counts is `NaN`, so every rate the program draws is 0. The intended mapping from catalogue rows to status counts is not evident from the code, so it is not modelled.
- StorylaneView.SortDescendingSorted: states order and permutation but not which of two equal counts comes first. The model's insertion sort is stable, as `Array.prototype.sort` is, but no lemma states the order of ties.
- DateRangeFilter.SortDatesCorrect: `Array.prototype.sort` compares strings by UTF-16 code units. The model compares characters, which agrees for the ASCII dates used.
- The `TrainingCatalogueView` chip rule is stated per row (`IsWebinar`). The chip's rendering is not modelled.
- Rendering is not modelled: the JSX, recharts and the MUI `DataGrid` columns, the tab switching in src/App.tsx, and the theme in src/theme/index.ts. Neither are React's render cycle and the re-computation of derived values.

## Findings

| source | as written | input that shows it | evidently intended | confidence | as-written member | corrected member |
|---|---|---|---|---|---|---|
| src/components/charts/CentreProgressChart.tsx:36 | the lookup compares `item.centreName` of the accumulated entries, but entries are built with a `name` field only (lines 41-46), so the comparison is `undefined === curr.centreName` and never holds; every row becomes a new slice, also when a centre is chosen in the centre table (`CentreView.ChosenCentreAsWritten`) | two centre rows with the same `centreName` (e.g. two courses of one centre) give two slices with the same name | rows are grouped by centre name: `item.name === curr.centreName`, one slice per centre with summed counts | not executed | CentreProgressChart.AsWrittenDuplicatesNames | CentreProgressChart.AggregateByCentre |
