# Dispute dashboard: matching and aggregation model

This project models the core of a banking dispute dashboard. The dashboard
keeps four tables of card-dispute records: received chargebacks, issued
representments, issued chargebacks and received representments. It shows:

- the day's counts and amounts per table;
- how many chargebacks are linked to a representment through the
  five-column composite key (affiliation number, agency, account,
  authorization, acquirer reference);
- the day's cases, newest first;
- the top issuers and acquirers of the day by summed amount;
- a per-day volume history;
- annual statistics with a trend against the previous year;
- a bank distribution;
- monthly and yearly series.

On the client side it models:

- the advanced filter panel (text, select, date and amount filters, and
  the filtered export);
- the tabbed category tables with their free-text search;
- the bank distribution chart series;
- the overall matching rate card;
- the statistics cards and export of the received representments and
  issued chargebacks pages.

Modules follow the program:

- `Schema` holds the tables and the composite key.
- `Matching`, `Aggregation`, `Ranking` and `Listing` hold the storage
  class's queries.
- `AdvancedFilters`, `CategoryTables`, `BankCharts`, `MatchingRate` and
  `CasePages` hold the client components.
- `Fixture` holds the sample rows the server inserts on start and what the
  queries return on them.
- `Seqs`, `Text`, `Calendar`, `Json` and `Maybe` are shared helpers for
  sequences, strings, time and the client's JSON values.

Modelling choices:

- Amounts are integer cents, as `decimal(12, 2)` stores them.
- The decimal text PostgreSQL returns for a sum is `Text.CentsText`.
- The client's `parseFloat` of that text is modelled exactly, on `real`.
- Instants are integer milliseconds. The local time zone is taken to be UTC.
- The clock (`new Date()`) and the date string parser (`Date.parse`) are
  parameters.
- SQL `GROUP BY` yields groups in order of first appearance and
  `ORDER BY ... DESC` is a stable sort. SQL leaves both orders open, so
  they are one admissible choice.
- `getTodayCases` pages each table with `LIMIT`/`OFFSET` and no
  `ORDER BY`. The model takes each table's rows in table order, which is
  another admissible choice; the merged cases are then sorted newest
  first, as in the code.
- The date a query receives is an integer time value. A day window whose
  bound leaves the `Date` range is rejected, as `toISOString` throws on
  it; the `...Query` functions and `TodayDataByCategory` model that.
- The filter panel is a class: `activeFilters` and the list it reports
  are fields its methods update.
- Each storage query is a function of the store.
- `getVolumeHistory`'s day loop and the monthly/yearly loop are methods
  proved against those functions.

## Model

| member | source | states |
|---|---|---|
| Schema.Key | server/storage.ts:228-232 | the match key holds exactly the five key columns of the record |
| Schema.KeyIff | server/storage.ts:240-246 | two records are linked iff all five key columns are equal |
| Schema.AmountTextLength | shared/schema.ts:31 | an amount inside `decimal(12, 2)` renders in at most 14 characters |
| Matching.CountKey | server/storage.ts:223-234 | the representments with a given key number at most the table, and none iff no row has the key |
| Matching.SemiJoinCount | server/storage.ts:223-234 | the chargebacks with some match number at most the table, and none iff no chargeback has a match |
| Matching.JoinCountNoReps | server/storage.ts:223-234 | an inner join with an empty representment table has no rows |
| Matching.JoinCountAppend | server/storage.ts:223-234 | appending a chargeback adds one join row per representment sharing its key |
| Matching.JoinCountConsRight | server/storage.ts:223-234 | prepending a representment adds one join row per chargeback sharing its key |
| Matching.JoinCountSymmetric | server/storage.ts:223-234 | the join count is the same whichever table drives the join |
| Matching.SemiJoinAtMostJoin | server/storage.ts:223-234 | the distinct linked chargebacks never outnumber the join rows |
| Matching.CountKeyUnique | server/storage.ts:223-234 | with unique representment keys a key matches at most once |
| Matching.JoinIsSemiJoinWhenUnique | server/storage.ts:223-234 | with unique representment keys the join count equals the linked-chargeback count and is at most the table size |
| Matching.MatchingRecords | server/storage.ts:217-255 | totals are the table sizes; linked counts are the inner-join row counts of each pair of tables |
| Matching.MatchingRecordsEmpty | server/storage.ts:217-255 | with an empty side, both linked counts are 0 |
| Matching.LinkedExceedsTotal | server/storage.ts:223-234 | on a valid store, one chargeback with two issued representments (distinct ids) under its key reports 2 linked out of 1 |
| Matching.DistinctMatchingRecords | server/storage.ts:217-255 | linked counts are the chargebacks that have some match, and never exceed the totals |
| Matching.MatchingAgreesWhenUnique | server/storage.ts:217-255 | with unique representment keys the join count and the distinct count agree on every store |
| Calendar.DayWindowIff | server/storage.ts:153-157 | the window from `setHours(0,0,0,0)` to `setHours(23,59,59,999)` contains the date and holds exactly the instants of its day |
| Calendar.DayBoundsValidIff | server/storage.ts:153-157 | a day window stays in the `Date` range exactly when its instant is inside the range and is not its last millisecond |
| Calendar.DayOfInstant | server/storage.ts:153-157 | every instant within day `d` falls on day `d` |
| Calendar.DayOfShift | server/storage.ts:376-378 | moving an instant by `k` whole days moves its day by `k` |
| Calendar.DaysBeforeMonth | server/storage.ts:643-644 | the days of a year before a month are between 0 and 366 |
| Calendar.MonthStep | server/storage.ts:643-644 | month offsets grow by the month's length and reach the year's length after December |
| Calendar.YearStep | server/storage.ts:602-603 | consecutive January firsts are a year's length apart |
| Calendar.LocalDayMonthIndex | server/storage.ts:643-644 | a month index 0 to 11 stays in the given year; index 12 is January of the next |
| Calendar.LastDayOfMonth | server/storage.ts:644 | `new Date(year, month, 0)` is the last day of month `month` |
| Calendar.MonthsTileYear | server/storage.ts:643-644 | the month windows start on January 1, follow one another without gap, and end on December 31 |
| Aggregation.InDay | server/storage.ts:164-167 | the rows kept are exactly the table's rows processed on the date's day |
| Aggregation.InDayByDay | server/storage.ts:164-167 | the timestamp window selects the same rows, in order, as the calendar-day test |
| Aggregation.DayVolume | server/storage.ts:159-214 | the count is the day's rows; the amount is "0" iff there are none, else the decimal text of their summed cents |
| Aggregation.DayVolumeAmount | server/storage.ts:159-214 | `parseFloat` of the amount text yields the day's summed cents divided by 100 |
| Aggregation.DailyVolumeFor | server/storage.ts:197-214 | each category's entry is the one `getDailyVolumes` returns for it |
| Aggregation.DailyVolumesByDay | server/storage.ts:153-215 | per category, the count is the rows of that table processed that day, and the amount is "0" when there are none, else the text of their summed cents |
| Aggregation.DailyVolumesQuery | server/storage.ts:153-215 | fails iff the day's window leaves the `Date` range; otherwise the four volumes of that day |
| Aggregation.HistoryEntryFor | server/storage.ts:381-387 | the pushed entry carries the date's day |
| Aggregation.HistoryEntryCounts | server/storage.ts:380-387 | the entry's four counts are `getDailyVolumes` counts of that date |
| Aggregation.VolumeHistory | server/storage.ts:369-391 | fails iff the start date is out of `Date` range; otherwise one entry per day, in chronological order, ending the day before `now`, with the daily counts |
| Aggregation.PeriodTotals | server/storage.ts:480-489 | `count(*)` is at most the table size, and the sum is 0 when nothing is counted |
| Aggregation.EmptySum | server/storage.ts:528-531 | the sum over no rows is 0 |
| Aggregation.PeriodCountsAll | server/storage.ts:480-489 | a table is counted in full iff every row lies in the period and bank |
| Aggregation.YearlyDataOf | server/storage.ts:468-541 | succeeds iff both bounds are valid `Date` values, and fails (the ISO rendering throws) otherwise |
| Aggregation.YearlyDataPerTable | server/storage.ts:528-539 | each table's entry is its own period count and sum |
| Aggregation.YearlyTotalsOverAllTables | server/storage.ts:533-535 | the totals are one count and one sum over all four tables together |
| Aggregation.BankCondition | server/storage.ts:469 | with a bank named, every counted row has that acquirer; "all" and "" select the same rows |
| Aggregation.Trend | server/storage.ts:447-449 | 0 without a previous year; never below -100; 0 iff no previous year or no change; positive iff growth; +100 when doubled, -100 when dropped to 0 |
| Aggregation.YearWindowBounds | server/storage.ts:431-432 | the window's bounds fall on January 1 and December 31 of the `Date` year |
| Aggregation.YearWindowDays | server/storage.ts:431-432 | for a year the `Date` constructor takes literally, the window is exactly that calendar year |
| Aggregation.AnnualStatistics | server/storage.ts:429-466 | at most one row; one iff the bounds of the year and of the previous year are valid; the row holds the year, "All Banks" for "all", the year's counts and amounts, and the trend of its total against the previous year's |
| Aggregation.AnnualCountsCalendarYear | server/storage.ts:429-466 | for any year outside 0 to 99, which `new Date(year, ...)` leaves as it is, the row counts exactly the rows processed in that calendar year |
| Aggregation.SeriesOf | server/storage.ts:608-612 | the point's count and amount are the period's; `amountOrigine` is 1.1 times the amount |
| Aggregation.PeriodPoint | server/storage.ts:602-634 | a point exists iff its window bounds are valid, and it carries its year and month |
| Aggregation.CollectPoints | server/storage.ts:601-637 | succeeds iff every key's point does, and then holds those points in key order |
| Aggregation.LastFiveYears | server/storage.ts:598 | the five years `year`, `year - 1`, ..., `year - 4` |
| Aggregation.MonthNumbers | server/storage.ts:639 | the months 1 to 12 |
| Aggregation.MonthlyYearlyStatistics | server/storage.ts:596-681 | succeeds iff every point does; then the yearly mode holds the points of the last five years and the monthly mode those of months 1 to 12, in that order |
| Aggregation.MonthWindowBounds | server/storage.ts:643-644 | a month window starts on the month's first day and ends on day 0 of the next month |
| Aggregation.MonthWindowsTileYear | server/storage.ts:643-644 | the month windows tile the year window, and each covers as many days as its month has |
| Ranking.Keys | server/storage.ts:328 | the group keys are pairwise distinct and are exactly the keys of the rows |
| Ranking.GroupBy | server/storage.ts:328 | one group per distinct key, in key order |
| Ranking.GroupMembers | server/storage.ts:328 | each group holds exactly the rows with its key |
| Ranking.GroupByPartition | server/storage.ts:328 | the groups partition the rows: distinct keys, no empty group, every row in its key's group |
| Ranking.TopGroups | server/storage.ts:328-330 | `limit` groups or all of them, by non-increasing volume, each a group of the rows |
| Ranking.TopGroupsAreLargest | server/storage.ts:329-330 | a group left out has no larger volume than any group kept |
| Ranking.OrEmpty | server/storage.ts:333-334 | a NULL column reads as "", any other as its text |
| Ranking.TopIssuers | server/storage.ts:311-338 | at most `limit` rows, one per ranked issuer group of the day |
| Ranking.TopAcquirers | server/storage.ts:340-367 | at most `limit` rows, one per ranked acquirer group of the day |
| Ranking.TopIssuersQuery | server/storage.ts:311-338 | fails iff the day's window leaves the `Date` range; otherwise at most `limit` rows, the ranked issuers of that day |
| Ranking.TopAcquirersQuery | server/storage.ts:340-367 | fails iff the day's window leaves the `Date` range; otherwise at most `limit` rows, the ranked acquirers of that day |
| Ranking.TopGroupFacts | server/storage.ts:317-330 | a kept group is non-empty and holds exactly that day's rows with its key |
| Ranking.VolumeTextOrder | server/storage.ts:329 | rendered volumes read back with `parseFloat` in the order of their sums |
| Ranking.TopIssuerRow | server/storage.ts:332-337 | each row is a non-empty group of the day: its count is the group's size, its volume the text of the group's summed cents, its issuer and bank name the group's columns with NULL as "" |
| Ranking.IssuerRowVolume | server/storage.ts:335 | a row's volume text reads back as the group's summed amount |
| Ranking.TopAcquirerRow | server/storage.ts:361-366 | each row is a non-empty group of the day: its count is the group's size, its volume the text of the group's summed cents, its acquirer and reference the group's columns with NULL as "" |
| Ranking.AcquirerRowVolume | server/storage.ts:364 | a row's volume text reads back as the group's summed amount |
| Ranking.TopIssuersOrdered | server/storage.ts:329 | the issuer rows' volumes are non-increasing as numbers |
| Ranking.TopAcquirersOrdered | server/storage.ts:358 | the acquirer rows' volumes are non-increasing as numbers |
| Ranking.IssuerLabel | server/storage.ts:578 | the bank name, else the issuer, else "Unknown", never empty |
| Ranking.AcquirerLabel | server/storage.ts:586 | the acquirer, else "Unknown", never empty |
| Ranking.BankDistributionData | server/storage.ts:543-594 | succeeds iff the year bounds are valid; one row per issuer group and per acquirer group of the year, labelled by the group and counting its rows |
| Ranking.BankDistributionCounts | server/storage.ts:577-591 | each row counts at least one received chargeback and 0 of every other kind |
| Listing.ListRecords | server/storage.ts:393-398 | the page has the right length and is newest first; it is the slice at `offset` of the table sorted newest first, so it repeats no row more often than the table holds it |
| Listing.ListedRowsBelong | server/storage.ts:393-398 | every listed row is a row of the table |
| Listing.CategoryList | server/storage.ts:393-419 | each accessor returns the page of its own table: at most `limit` rows, none more often than the table holds it |
| Listing.CategoryListIgnoresFilters | server/storage.ts:393-419 | the `filters` argument makes no difference |
| Listing.ListMostRecent | server/storage.ts:394-397 | a row left off the first page is no newer than any row on it |
| Listing.ListAllWhenShort | server/storage.ts:394-397 | a first page as long as the table holds every row |
| Listing.TypeNameInjective | server/storage.ts:300-303 | distinct tables get distinct `type` tags |
| Listing.Tag | server/storage.ts:300-303 | each row is kept in order, tagged with its table |
| Listing.DayPartFacts | server/storage.ts:264-296 | each table's share holds at most `floor(limit / 4)` of that day's rows of the table |
| Listing.TaggedMember | server/storage.ts:300-303 | a tagged case is a row of its tagged table |
| Listing.MergedTagged | server/storage.ts:299-304 | every merged case comes from the day's share of the table it is tagged with |
| Listing.MergedLength | server/storage.ts:264-304 | the merged list has at most `4 * floor(limit / 4)` cases |
| Listing.TodayCases | server/storage.ts:257-309 | at most `limit` cases, newest first, a permutation of the four tagged shares |
| Listing.TodayCasesQuery | server/storage.ts:257-309 | fails iff the day's window leaves the `Date` range; otherwise at most `limit` cases, newest first, those of `TodayCases` |
| Listing.TodayCasesTagged | server/storage.ts:257-309 | each case is a row of its tagged table, processed on that day |
| Listing.FilterBlocks | server/storage.ts:299-304 | selecting one tag from the four tagged blocks yields exactly that table's block |
| Listing.SelectBlock | server/storage.ts:306-308 | in any reordering of the four blocks, one tag selects a permutation of that table's block |
| Listing.TodayCasesPerCategory | server/storage.ts:257-309 | the cases tagged with a table are exactly that table's day share, reordered |
| Listing.ShareFilter | server/storage.ts:299-304 | filtering one tagged share by a tag keeps all of it or none of it |
| Listing.TodayDataByCategory | server/storage.ts:683-714 | fails iff the day's bounds are outside `Date` range |
| Listing.TodayDataIgnoresDate | server/storage.ts:683-714 | as written, two valid dates give the same lists: the 100 most recent rows of each table |
| Listing.TodayDataListsOtherDays | server/storage.ts:690-705 | a chargeback processed on day 0 is listed for day 1 |
| Listing.TodayDataByCategoryInDay | server/storage.ts:683-714 | the intended query fails under the same condition as the one written |
| Listing.TodayDataInDay | server/storage.ts:683-714 | the intended lists are newest first, at most 100 long, hold only that day's rows of their table, and hold all of them when there are at most 100 |
| Seqs.Filter | server/storage.ts:164-167 | the selection is no longer than the input, holds only input elements that pass, and holds every one that does |
| Seqs.FilterIsSubseq | server/storage.ts:164-167 | the selection keeps the input order |
| Seqs.FilterAppend | server/storage.ts:299-304 | selecting from a concatenation concatenates the selections |
| Seqs.FilterFilter | client/src/components/advanced-filters.tsx:38-62 | two selections in a row are one selection by the conjunction |
| Seqs.FilterMultiplicity | server/storage.ts:306-308 | selection keeps every copy of a selected element and no other element |
| Seqs.FilterPermutation | server/storage.ts:306-308 | permuting the input permutes the selection |
| Seqs.SumOfAppend | server/storage.ts:162 | a sum over a concatenation is the sum of the parts |
| Seqs.InsertDesc | server/storage.ts:306-308 | inserting into a descending list keeps it descending and adds exactly the element |
| Seqs.SortDesc | server/storage.ts:306-308 | the result is descending by the key and a permutation of the input |
| Seqs.Page | server/storage.ts:395-396 | `OFFSET offset LIMIT limit`: the right length, holding the elements from `offset` on |
| Seqs.SortedPageFacts | server/storage.ts:395-396 | a page of a descending list is descending, is the slice at its offset, and repeats no element more often than the list |
| Seqs.SortedPageIsLargest | server/storage.ts:329-330 | an element left off the first page has no larger key than any element on it |
| Text.Lower | client/src/components/dashboard/category-tables.tsx:166 | lower-casing keeps the length and maps each character |
| Text.LowerIdempotent | client/src/components/dashboard/category-tables.tsx:166 | lower-casing twice is lower-casing once |
| Text.ContainsIff | client/src/components/advanced-filters.tsx:44 | `includes` holds iff the needle occurs at some index |
| Text.NatText | server/storage.ts:162 | the decimal text is non-empty digits without a leading zero |
| Text.NatTextValue | server/storage.ts:162 | the digits of a number read back as that number |
| Text.NatTextLength | shared/schema.ts:31 | a number below `10^k` has at most `k` digits |
| Text.DigitRun | client/src/components/advanced-filters.tsx:55-56 | the leading run of digits stops at the first non-digit |
| Text.ParseZero | server/storage.ts:200 | `parseFloat("0")` is 0 |
| Text.ParseExponent | client/src/components/advanced-filters.tsx:56 | a threshold written as digits, `e` and digits reads as the digits' value times ten to the exponent |
| Text.ParseNegativeExponent | client/src/components/advanced-filters.tsx:56 | with `e-`, the digits' value is divided by ten to the exponent |
| Text.ParseBareExponentMark | client/src/components/advanced-filters.tsx:56 | an `e` with no digits after it is not read: "1e" is 1 |
| Text.ScaledPositive | client/src/components/advanced-filters.tsx:56 | scaling by a non-negative exponent multiplies by that power of ten |
| Text.ScaledNegative | client/src/components/advanced-filters.tsx:56 | scaling by a negative exponent divides by that power of ten |
| Text.UnsignedCentsValue | server/storage.ts:162 | the unsigned text of an amount reads back as that amount |
| Text.CentsTextParts | server/storage.ts:162 | the rendered amount is its integer digits, a point and two decimals |
| Text.NatTextParse | client/src/components/advanced-filters.tsx:55-56 | `parseFloat` of an integer's digits is that integer |
| Text.ParseIntText | client/src/components/advanced-filters.tsx:55-56 | `parseFloat(String(i))` is `i`, negative values included |
| Text.ParseCentsText | client/src/pages/received-representments.tsx:139 | `parseFloat` of a rendered amount is exactly the cents divided by 100, for any sign |
| Text.ParseAmountOrZero | server/storage.ts:200 | an amount text, either the "0" of an empty window or a rendered sum, reads as its cents divided by 100 |
| Text.NegativeLayout | server/storage.ts:162 | a negative amount renders as a minus sign before the text of its magnitude |
| Json.NumberValue | client/src/components/advanced-filters.tsx:55 | `parseFloat` of an integer field gives the integer |
| Json.AmountValue | client/src/components/advanced-filters.tsx:55 | `parseFloat` of an amount field rendered from cents gives the amount |
| Json.WordsAreNaN | client/src/components/advanced-filters.tsx:55 | `undefined`, `null` and booleans parse to NaN |
| AdvancedFilters.Find | client/src/components/advanced-filters.tsx:40 | `find` is absent iff no configuration has the field, and otherwise a configuration with that field |
| AdvancedFilters.ExportedNoKeys | client/src/components/advanced-filters.tsx:84-105 | with no filter keys the export is the data unchanged |
| AdvancedFilters.HoldsOnAgree | client/src/components/advanced-filters.tsx:86-104 | two filter maps that narrow on the same fields with the same values pass the same items |
| AdvancedFilters.HoldsOnStep | client/src/components/advanced-filters.tsx:86-104 | taking one more narrowing field into account conjoins its test |
| AdvancedFilters.NoFieldsKeepAll | client/src/components/advanced-filters.tsx:36 | before any entry is applied the data is whole |
| AdvancedFilters.NarrowStep | client/src/components/advanced-filters.tsx:38-61 | one loop step over a narrowing entry filters the selection by that entry |
| AdvancedFilters.InertStep | client/src/components/advanced-filters.tsx:39 | one loop step over an entry that does not narrow changes nothing |
| AdvancedFilters.ExportedIff | client/src/components/advanced-filters.tsx:84-105 | the export keeps the data order and holds exactly the items passing every narrowing entry |
| AdvancedFilters.SingleEntryIff | client/src/components/advanced-filters.tsx:84-105 | one narrowing entry keeps exactly the items that pass it |
| AdvancedFilters.ExportedIsFilter | client/src/components/advanced-filters.tsx:84-105 | with or without keys, the export is one filter by all entries |
| AdvancedFilters.InertEntry | client/src/components/advanced-filters.tsx:87 | an entry `undefined`, '' or 'all' can be removed without changing the export |
| AdvancedFilters.TextFilterIff | client/src/components/advanced-filters.tsx:90-91 | a text entry keeps exactly the items whose field, lower-cased, contains the lower-cased value |
| AdvancedFilters.SelectFilterIff | client/src/components/advanced-filters.tsx:92-93 | a select entry keeps exactly the items whose field is that string |
| AdvancedFilters.DateFilterIff | client/src/components/advanced-filters.tsx:94-97 | a date entry keeps exactly the items whose date string equals the value's, invalid dates included |
| AdvancedFilters.AmountFilterIff | client/src/components/advanced-filters.tsx:98-101 | a numeric amount entry keeps exactly the items whose amount parses and is at least the threshold |
| AdvancedFilters.UnparsableAmountKeepsAll | client/src/components/advanced-filters.tsx:101 | an amount entry that is not a number keeps everything |
| AdvancedFilters.UnconfiguredKeepsAll | client/src/components/advanced-filters.tsx:103 | an entry whose field has no configuration keeps everything |
| AdvancedFilters.RunFilters | client/src/components/advanced-filters.tsx:36-62 | the entry-by-entry loop yields the export of the filters, whatever the key order |
| AdvancedFilters.AppliedAsWritten | client/src/components/advanced-filters.tsx:33-65 | as written, the update fails iff a narrowing date or amount entry reaches its branch |
| AdvancedFilters.AsWrittenAgreesOtherwise | client/src/components/advanced-filters.tsx:33-65 | without such an entry the code as written reports the export |
| AdvancedFilters.AmountFilterThrowsAsWritten | client/src/components/advanced-filters.tsx:54-58 | an amount threshold of 100 over a record of 150.00 fails as written, yet the export keeps the record |
| AdvancedFilters.FilterPanel.constructor | client/src/components/advanced-filters.tsx:29-31 | the panel starts with no filters and an empty report |
| AdvancedFilters.FilterPanel.ApplyFilters | client/src/components/advanced-filters.tsx:33-65 | corrected panel: the new map is stored and the report is the export of it |
| AdvancedFilters.FilterPanel.UpdateFilter | client/src/components/advanced-filters.tsx:67-70 | corrected panel: one field is set, the others kept, and the report recomputed |
| AdvancedFilters.FilterPanel.ClearFilter | client/src/components/advanced-filters.tsx:72-76 | corrected panel: one field is removed, the others kept, and the report recomputed |
| AdvancedFilters.FilterPanel.ApplyFiltersAsWritten | client/src/components/advanced-filters.tsx:33-65 | as written: the new map is stored; a date or amount entry that reaches `item` leaves the last report in place, otherwise the report is the export |
| AdvancedFilters.FilterPanel.UpdateFilterAsWritten | client/src/components/advanced-filters.tsx:67-70 | as written: one field is set; the report is kept when the new map reaches `item`, and recomputed otherwise |
| AdvancedFilters.FilterPanel.ClearFilterAsWritten | client/src/components/advanced-filters.tsx:72-76 | as written: one field is removed; the report is kept when the new map reaches `item`, and recomputed otherwise |
| AdvancedFilters.FilterPanel.ClearAllFilters | client/src/components/advanced-filters.tsx:78-81 | the map is emptied and the whole data reported |
| CategoryTables.CurrentData | client/src/components/dashboard/category-tables.tsx:97 | the active list, or empty when it is absent |
| CategoryTables.CategoryCount | client/src/components/dashboard/category-tables.tsx:198 | a button's badge is the length of its list, 0 when absent |
| CategoryTables.EmptySearchKeepsAll | client/src/components/dashboard/category-tables.tsx:163-164 | an empty term keeps every record |
| CategoryTables.SearchIff | client/src/components/dashboard/category-tables.tsx:163-168 | a term keeps exactly the records with a field containing it, lower-cased, in order |
| CategoryTables.NullFieldMatchesNul | client/src/components/dashboard/category-tables.tsx:165-167 | a `null` field matches the term "nul" through its text |
| CategoryTables.DisplayWithinCategory | client/src/components/dashboard/category-tables.tsx:170 | while the report belongs to the tab, everything shown is a subsequence of the tab's records |
| CategoryTables.EmptyReportShowsSearch | client/src/components/dashboard/category-tables.tsx:170 | an empty report shows the search result |
| CategoryTables.Reported | client/src/components/dashboard/category-tables.tsx:272-277 | the panel's report replaces the old one: it is the export of the active tab's records under the filters, and it belongs to the tab |
| CategoryTables.StaleReportAfterSwitch | client/src/components/dashboard/category-tables.tsx:208 | as written, a report kept across a tab switch shows another tab's record |
| CategoryTables.SelectCategory | client/src/components/dashboard/category-tables.tsx:208 | the corrected switch changes the tab and clears the report |
| CategoryTables.ReportStaysWithTab | client/src/components/dashboard/category-tables.tsx:85-88 | with the corrected switch every operation keeps the report with its tab |
| BankCharts.ChartData | client/src/components/dashboard/bank-distribution-charts.tsx:52-60 | no more points than rows, none while data is absent |
| BankCharts.ChartDataIff | client/src/components/dashboard/bank-distribution-charts.tsx:52-60 | a point is plotted iff some row has its bank and a positive selected count; order is kept |
| BankCharts.OnlyReceivedChargebacks | client/src/components/dashboard/bank-distribution-charts.tsx:56-59 | on the server's data every selection other than received chargebacks is empty |
| BankCharts.ReceivedChargebacksPlotAll | client/src/components/dashboard/bank-distribution-charts.tsx:56-59 | on the server's data the received chargeback chart plots every row |
| MatchingRate.RateCases | client/src/components/dashboard/matching-records.tsx:10-13 | 0 unless both totals are positive, else the linked share in percent |
| MatchingRate.RateBounds | client/src/components/dashboard/matching-records.tsx:10-13 | when no linked count exceeds its total, the rate is between 0 and 100 |
| MatchingRate.RateSymmetric | client/src/components/dashboard/matching-records.tsx:10-13 | swapping the received and issued pairs leaves the rate unchanged |
| MatchingRate.DistinctRateBounded | client/src/components/dashboard/matching-records.tsx:10-13 | with distinct-chargeback counts the rate is always a percentage |
| MatchingRate.PairRateExceedsHundred | client/src/components/dashboard/matching-records.tsx:10-13 | on a valid store, with the server's join counts, a received chargeback with two matching representments and an issued chargeback with one show a rate of 150% |
| CasePages.DisplayWithinFetched | client/src/pages/received-representments.tsx:99 | a report taken from the fetched list keeps the display within it |
| CasePages.NoMatchShowsAll | client/src/pages/received-representments.tsx:99 | filters that match nothing show the whole fetched list |
| CasePages.SumAmounts | client/src/pages/received-representments.tsx:139 | the sum is a number iff every amount is |
| CasePages.TotalAmountDefined | client/src/pages/received-representments.tsx:139 | the Total Amount card is a number iff every item's amount is |
| CasePages.MissingAmountIsZero | client/src/pages/received-representments.tsx:139 | a missing or empty amount adds 0 |
| CasePages.RenderedAmount | client/src/pages/received-representments.tsx:139 | an amount rendered from cents reads back as the cents divided by 100 |
| CasePages.SumOfCents | client/src/pages/received-representments.tsx:139 | summing amounts of whole cents sums the cents |
| CasePages.TotalOfCents | client/src/pages/received-representments.tsx:139 | over amounts rendered from cents, the total is exactly the summed cents divided by 100 |
| CasePages.VisaCases | client/src/pages/received-representments.tsx:152 | the VISA count is at most the item count |
| CasePages.VisaCasesBounds | client/src/pages/received-representments.tsx:152 | no VISA item counts 0; all VISA items count them all |
| CasePages.AverageOf | client/src/pages/received-representments.tsx:165-168 | the zero label iff there are no items; otherwise the average times the count is the total |
| CasePages.PageStats | client/src/pages/issued-chargebacks.tsx:127-168 | the four cards: count, total, VISA count at most the count, and the average, with the euro zero label |
| CasePages.GarbledZeroLabel | client/src/pages/received-representments.tsx:167 | the received representments page shows a garbled zero label where the issued chargebacks page shows the euro one, and otherwise the cards agree |
| CasePages.ExportFile | client/src/pages/received-representments.tsx:47-56 | a file is written iff the display is non-empty, and it holds the display |
| Fixture.SeedDay | server/storage.ts:729-958 | the sample day is 9 December 2024 |
| Fixture.SeedValid | server/storage.ts:729-958 | the sample rows form a valid store |
| Fixture.SeedOnDay | server/storage.ts:729-958 | every sample row is processed on the sample day |
| Fixture.SeedDailyVolumes | server/storage.ts:729-958 | on the sample day the counts are 3, 2, 2 and 1, with amounts 2575.75, 1571.25, 806.30 and 680.90 |
| Fixture.SeedMatching | server/storage.ts:729-958 | on the sample rows 1 of 3 received and 1 of 2 issued chargebacks are linked, a rate of 40% |
| Fixture.SeedIssuerRanking | server/storage.ts:729-958 | the sample day's issuer groups are three single-row groups, ranked by amount |
| Fixture.SeedTopIssuers | server/storage.ts:729-958 | the top issuers are BNP Paribas 1250.50, Crédit Agricole 875.25 and Société Générale 450.00, one case each |

## Left out

- Users, authentication, the audit log and `createAuditLog`: they do not touch the dispute tables.
- Excel and PDF writing, chart drawing, and the row layout of the tables: these are rendering only. `ExportFile` and `Exported` model which rows are exported.
- Time zones: the local day is taken to be the UTC day. `toISOString` and `setHours` therefore agree on the day.
- Floating point: `parseFloat`, sums and quotients are exact on `real`. The `sum(...)::float` of `getYearlyData` is exact; rounding, and the overflow of a large exponent to `Infinity`, are not modelled.
- `toFixed(1)` and `Intl.NumberFormat` formatting of the rate and amount cards: the model keeps the exact number.
- `Text.ParseFloat`: leading whitespace and `Infinity` are not read. It is applied to amount texts, to JSON values and to the value of a number input; none of these contains either.
- `Text.Lower`: lower-cases ASCII letters only. Other characters are kept as they are.
- `Json` numbers: a JSON number in a record is an integer. Fractional JSON numbers do not occur in the data read.
- `Aggregation.MonthlyYearlyStatistics`: the trend fields are not modelled. The yearly trends are constants and the monthly ones are `Math.random`.
- Negative `limit` or `offset`: they are `nat` here. What PostgreSQL does with negative values is outside the model.
- Default arguments (`limit = 50, offset = 0` of `getTodayCases` and the accessors, `limit = 5` of the rankings): the model always takes `limit` and `offset` as explicit parameters, as the routes and `getTodayDataByCategory` pass them.
- `getVolumeHistory`: `toISOString().split('T')[0]` is modelled as the entry's day number, not its text.
- `getTodayDataByCategory`: the `dateFrom`/`dateTo` object is passed and not read, as in the code.
- `initializeSampleData`: the "data exists" check and the inserts are not modelled. `Fixture` holds the inserted rows as a store.
- Parsing the request's date string (`new Date(req.query.date)` in the routes): the routes are not part of this model. A query receives an integer time value, so an unparsable date (NaN) does not arise; only a window bound outside the `Date` range is rejected.
- Database errors other than a day or year window outside the `Date` range are not modelled. `getAnnualStatistics`'s `catch` returns `[]` only for that failure.
- `AdvancedFilters.FilterPanel.ApplyFilters`, `UpdateFilter` and `ClearFilter` are the corrected panel; the code as written is `ApplyFiltersAsWritten`, `UpdateFilterAsWritten` and `ClearFilterAsWritten`.

## Findings

| source | as written | input that shows it | evidently intended | confidence | as-written member | corrected member |
|---|---|---|---|---|---|---|
| server/storage.ts:223-247 | linked counts are inner-join rows, so a chargeback with several representments counts several times | a valid store with one received chargeback and two issued representments, with distinct ids, carrying its key: linked 2, total 1 | count each chargeback with at least one match once | not executed | Matching.LinkedExceedsTotal | Matching.DistinctMatchingRecords |
| server/storage.ts:690-705 | `getTodayDataByCategory` passes date filters that the accessors ignore | a chargeback processed on day 0 is listed for day 1 | only that day's rows | not executed | Listing.TodayDataListsOtherDays | Listing.TodayDataInDay |
| client/src/components/advanced-filters.tsx:48-59 | the date and amount branches read `item` outside the filter callback, so `applyFilters` throws and the list is not updated | amount filter 100 over one record of 150.00 | test each item inside the callback, as the export does | not executed | AdvancedFilters.AmountFilterThrowsAsWritten | AdvancedFilters.FilterPanel.ApplyFilters |
| client/src/components/dashboard/category-tables.tsx:208 | switching tabs keeps the panel's last report, which is shown under the new tab | report [x] of the received tab, then a switch to the issued tab holding only y | clear the report on a tab switch | not executed | CategoryTables.StaleReportAfterSwitch | CategoryTables.ReportStaysWithTab |
| client/src/pages/received-representments.tsx:167 | the zero label is the euro sign's UTF-8 bytes read as Windows-1252, 'â‚¬0.00' | no item displayed | the label '€0.00' of the issued chargebacks page | not executed | CasePages.GarbledZeroLabel | CasePages.PageStats |

Why the intended behaviour of the first two rows is as stated:

- The matching card (client/src/components/dashboard/matching-records.tsx:10-13) divides the linked counts by the table totals and shows the result as a percentage. That is a rate only when each chargeback counts at most once.
- `getTodayDataByCategory` builds a `dateFrom`/`dateTo` object from the day's first and last millisecond and hands it to every accessor (server/storage.ts:690-705). Its only use is to restrict the lists to that day.

`Matching.MatchingRecords` and `Listing.TodayDataByCategory` are the queries as written.
