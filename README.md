# Expense tracker core, modelled in Dafny

This project models the deterministic core of a Next.js expense tracker: the reusable data-table widgets, the dashboard's server actions, the calendar helpers, the expense and payment server actions, and the form validation schemas. It then proves properties of that model.

What is modelled:

- **Data table** (`components/dynamic-data-table/`):
  - the pagination footer: its "Showing …" caption and its window of at most five numbered page buttons;
  - the bridge between the caller's array of selected row ids and the table's internal `Record<string, boolean>`;
  - the checkbox column and the sticky-pinning styles;
  - the body shown when there are no rows, and row identity;
  - the faceted filter (multi and single select);
  - the date-range filter;
  - the dispatcher that turns filter descriptors into widgets.
- **Dashboard** (`app/actions/dashboard.ts`):
  - the per-category expense summary, sorted by descending total;
  - the payment total and count;
  - the six-month expense/payment comparison, with its `formatDate` helper.
- **Calendar** (`lib/generateMonths.ts`):
  - the 36 month grids, each made of whole weeks padded with the neighbouring months' days;
  - `getDateRange`, which turns "Month YYYY" into that month's first and last instant in UTC.
- **Server actions** (`app/actions/expenses.ts`, `app/actions/payments.ts`):
  - the signed-in user gate;
  - the paginated list query: page defaults, inclusive row range, date filter, and count defaulting to 0;
  - the records that inserts and updates write;
  - which paths are revalidated after a write.
- **Validation** (`lib/validations/`): the expense, payment and category zod schemas as validators, one message per broken rule.

Anything external is a parameter of the model:

- the Supabase store and auth;
- the clock and the local time zone;
- locale month names;
- date parsing and formatting libraries.

Each such value is a function or value passed in, named where it is used. Amounts are integers (think cents), except in the validation schemas. There they are the real number that `Number(...)` coerces to.

The files follow the source:

- `pagination.dfy`, `data_table.dfy`, `column_filter.dfy`, `faceted_filter.dfy`, `date_filter.dfy` and `filter_parser.dfy` correspond to the table widgets.
- `dashboard.dfy`, `calendar.dfy`, `actions.dfy` (shared by expenses and payments), `expenses.dfy`, `payments.dfy` and `validation.dfy` correspond to the actions, the calendar and the schemas.
- `wrappers.dfy` (Option), `seqs.dfy` (sets as duplicate-free sequences) and `text.dfy` (decimal rendering and `padStart`) are shared helpers.

The code changes things step by step in some places, and there the model is imperative:

- the table's selection state is a class with a `modifies` frame;
- a TanStack column's filter is a field that the widgets' handlers write;
- the loops of the pagination window, the category grouping, the monthly buckets and the week splitting are methods with loop invariants.

Each such method is proved against a specification function, whose properties are proved as lemmas.

## Model

| member | source | states |
|---|---|---|
| Pagination.GetWindow | components/dynamic-data-table/data-table-pagination.tsx:27-49 | the loop yields exactly the specified window: `[1]` without pagination state, every page when there are at most five, otherwise five consecutive pages around the current one, clamped to the ends |
| Pagination.RenderFooter | components/dynamic-data-table/data-table-pagination.tsx:53-98 | the caption is "Showing N rows" without pagination state, "Showing 0 results" with no rows, and otherwise "Showing start to end of total"; the pager is shown exactly when there is pagination state and at least one row; its buttons are the window, each highlighted iff it is the current page, and each requests its own page index |
| Pagination.NoPaginationDefaults | components/dynamic-data-table/data-table-pagination.tsx:13-22 | without pagination state the footer counts one page at index 0 whose size is the row count; the window is `[1]` and the range is 1..rows (0..0 when there are none) |
| Pagination.FooterCounts | components/dynamic-data-table/data-table-pagination.tsx:13-19 | with pagination state the counts are the table's page count and the state's index and size; without it one page at index 0 sized to the row count; the row count is passed through either way |
| Pagination.Start | components/dynamic-data-table/data-table-pagination.tsx:21 | the first row shown is 0 when there are no rows and at least 1 otherwise |
| Pagination.End | components/dynamic-data-table/data-table-pagination.tsx:22 | the last row shown is the smaller of the page's end and the row count: it passes neither and equals one of them |
| Pagination.Window | components/dynamic-data-table/data-table-pagination.tsx:27-49 | at most five buttons, consecutive page numbers, and `[1]` without pagination state |
| Pagination.ShowingBounds | components/dynamic-data-table/data-table-pagination.tsx:21-22 | the last row shown never passes the row count; with rows, the shown range covers at most one page; for an in-range page it starts right after the earlier pages and holds exactly min(pageSize, rows left) rows |
| Pagination.SmallWindowIsAllPages | components/dynamic-data-table/data-table-pagination.tsx:30-32 | with at most five pages the buttons are 1, 2, …, pageCount |
| Pagination.LargeWindowShape | components/dynamic-data-table/data-table-pagination.tsx:34-48 | with more than five pages there are exactly five consecutive buttons, all inside 1..pageCount, and the current page is among them whenever it is in range |
| Pagination.WindowClamping | components/dynamic-data-table/data-table-pagination.tsx:38-44 | the window is 1..5 near the start, the last five pages near the end, and current−2..current+2 in between |
| Pagination.ExactlyOneActiveButton | components/dynamic-data-table/data-table-pagination.tsx:85-93 | for an in-range page exactly one button is highlighted, and every button requests an existing page index |
| Pagination.WindowExamples | components/dynamic-data-table/data-table-pagination.tsx:27-49 | concrete windows for 12 pages at indexes 0, 6 and 11, and for 3 pages |
| DataTable.ArrayToRecord | components/dynamic-data-table/data-table.tsx:125-127 | each listed id maps to true and no other key is present; keys are stored in first-occurrence order |
| DataTable.RecordToArray | components/dynamic-data-table/data-table.tsx:130-132 | the result is exactly the keys mapped to true, without duplicates |
| DataTable.Put | components/dynamic-data-table/data-table.tsx:126 | `{ ...acc, [id]: v }` sets that key, keeps every other key's value, and keeps an existing key in its place or appends a new one |
| DataTable.RoundTripFromArray | components/dynamic-data-table/data-table.tsx:125-132 | converting ids to the record and back gives the ids with repeats removed, in order, with the same membership |
| DataTable.RoundTripFromDistinctArray | components/dynamic-data-table/data-table.tsx:125-132 | distinct ids come back unchanged |
| DataTable.RoundTripFromRecord | components/dynamic-data-table/data-table.tsx:125-132 | converting a record to the array and back drops exactly its false entries, and the array is then stable |
| DataTable.SelectedRowCount | components/dynamic-data-table/data-table.tsx:256 | the count equals the number of distinct selected ids |
| DataTable.SelectedIds | components/dynamic-data-table/data-table.tsx:256 | the keys the record maps to true are exactly the ids `recordToArray` returns |
| DataTable.ShowsBulkActionBar | components/dynamic-data-table/data-table.tsx:260-262 | the bar is shown exactly when the caller supplies one and some row is selected |
| DataTable.SelectionBridge.constructor | components/dynamic-data-table/data-table.tsx:134-136 | the initial internal selection is the record of the prop's ids (empty when the prop is absent), and nothing has been reported yet |
| DataTable.SelectionBridge.SyncFromProp | components/dynamic-data-table/data-table.tsx:139-143 | a defined prop replaces the internal selection with its record; an absent prop leaves it unchanged; nothing is reported |
| DataTable.SelectionBridge.HandleRowSelectionChange | components/dynamic-data-table/data-table.tsx:146-158 | the new internal state is the value, or the updater applied to the previous state; when there is a callback, it receives the new state's selected ids |
| DataTable.ChangeAndFeedBack | components/dynamic-data-table/data-table.tsx:139-158 | when the caller feeds the reported ids straight back as the prop, the selected ids are unchanged and the internal record loses only its false entries |
| DataTable.ColumnsWithSelection | components/dynamic-data-table/data-table.tsx:160-188 | the non-sortable, non-hideable "select" column is put first exactly when a `rowSelection` prop is given, and the caller's columns follow unchanged |
| DataTable.CommonPinningStyles | components/dynamic-data-table/data-table.tsx:232-254 | a pinned cell is sticky at opacity 0.95 with z-index 1 and its left or right offset; an unpinned cell is relative, opaque, with z-index 0 and no offsets; only the last left-pinned or first right-pinned cell gets the shadow |
| DataTable.BodyStateAsWritten | components/dynamic-data-table/data-table.tsx:314-353 | the rows when there are any, else a spinner while loading, else "No results."; the single cell spans `columns.length`, the caller's columns |
| DataTable.BodyState | components/dynamic-data-table/data-table.tsx:314-353 | the same three cases, with the single cell spanning every column of the table, the checkbox column included |
| DataTable.EmptyBodyOneColumnShort | components/dynamic-data-table/data-table.tsx:338-352 | when selection is on, the cell as written spans one column fewer than the table has; without selection the two bodies agree |
| DataTable.RowIdentity | components/dynamic-data-table/data-table.tsx:223-226 | rows with ids have equal row ids iff their ids are equal; every row without an id gets "[object Object]" |
| DataTable.GetRowId | components/dynamic-data-table/data-table.tsx:223-226 | a row with an id is identified by that id, a row without one by "[object Object]" |
| FacetedFilter.SelectedSet | components/dynamic-data-table/data-table-faceted-filter.tsx:41-44 | multi mode reads the filter as a set: the array's values without repeats, a string's characters, or nothing when unset |
| FacetedFilter.Normalise | components/dynamic-data-table/data-table-faceted-filter.tsx:52 | an empty set is written as "unset" and a non-empty one as its array, so an empty array is never written |
| FacetedFilter.NormaliseReadBack | components/dynamic-data-table/data-table-faceted-filter.tsx:52 | reading back a written set gives that set |
| FacetedFilter.SingleToggle | components/dynamic-data-table/data-table-faceted-filter.tsx:171-174 | selecting the selected option clears the filter, and selecting any other option sets it to that option |
| FacetedFilter.MultiToggleEffect | components/dynamic-data-table/data-table-faceted-filter.tsx:159-170 | selecting an option flips its membership and keeps every other value; an added option goes last; the written value is never an empty array |
| FacetedFilter.MultiToggleTwice | components/dynamic-data-table/data-table-faceted-filter.tsx:159-170 | selecting the same option twice restores the selected set, and restores it exactly, order included, when the option was not selected |
| FacetedFilter.MultiToggle | components/dynamic-data-table/data-table-faceted-filter.tsx:159-170 | the written value is never an empty array, and the option is selected afterwards exactly when it was not before |
| FacetedFilter.RemoveValue | components/dynamic-data-table/data-table-faceted-filter.tsx:46-57 | the written value is never an empty array and no longer holds the removed value; in single mode it is unset |
| FacetedFilter.RemoveValueEffect | components/dynamic-data-table/data-table-faceted-filter.tsx:46-57 | removing a badge in multi mode writes the set without that value (unset if nothing is left); in single mode it clears the filter |
| FacetedFilter.SingleToggleTwice | components/dynamic-data-table/data-table-faceted-filter.tsx:171-174 | in single mode, selecting the same option twice goes from nothing to that option and back to nothing |
| FacetedFilter.JoinCommas | components/dynamic-data-table/data-table-faceted-filter.tsx:123 | `Array.prototype.toString` is empty exactly when the array is empty or holds a single empty string |
| FacetedFilter.OptionsIn | components/dynamic-data-table/data-table-faceted-filter.tsx:104-107 | the badge options are exactly the options whose value is selected (membership); order and multiplicity follow from OptionsInAppend and OptionsInSingle |
| FacetedFilter.OptionsInAppend | components/dynamic-data-table/data-table-faceted-filter.tsx:104-107 | filtering a concatenation gives the filtered parts one after the other, so the badges keep options order |
| FacetedFilter.OptionsInSingle | components/dynamic-data-table/data-table-faceted-filter.tsx:104-107 | one option gives one badge exactly when its value is selected, none otherwise |
| FacetedFilter.FindLabel | components/dynamic-data-table/data-table-faceted-filter.tsx:132-133 | a label is found iff some option's value equals the selected string, and then it is the caption of an option with that value |
| FacetedFilter.FindLabelIsFirst | components/dynamic-data-table/data-table-faceted-filter.tsx:132-133 | the label found is the caption of the first option with that value, whatever options follow it |
| FacetedFilter.TriggerBadges | components/dynamic-data-table/data-table-faceted-filter.tsx:83-138 | in multi mode: badges only when something is selected; a count badge of the set's size; "n selected" above two values, otherwise the badges of OptionsIn over the selected set. In single mode: one badge iff the value's string form is non-empty, whose text is the FindLabel of the value |
| FacetedFilter.IsSelected | components/dynamic-data-table/data-table-faceted-filter.tsx:151-153 | an option is checked iff it is in the set (multi) or equals the selected string (single) |
| FacetedFilter.ClearItem | components/dynamic-data-table/data-table-faceted-filter.tsx:196-210 | the item is shown iff something is selected (a non-empty set, or a truthy value in single mode), captioned "Clear filters" or "Clear filter" |
| FacetedFilter.SingleSelectionShown | components/dynamic-data-table/data-table-faceted-filter.tsx:123-153 | after choosing a non-empty option from an empty filter in single mode, the one badge shows the caption of the first option with that value, and the clear item "Clear filter" is offered |
| FacetedFilter.OnSelect | components/dynamic-data-table/data-table-faceted-filter.tsx:158-176 | the column's filter becomes the toggled value for the mode; without a column nothing changes |
| FacetedFilter.HandleRemoveValue | components/dynamic-data-table/data-table-faceted-filter.tsx:46-57 | the column's filter becomes the value with the badge removed |
| FacetedFilter.HandleClearAll | components/dynamic-data-table/data-table-faceted-filter.tsx:59-62 | the column's filter is unset |
| DateFilter.RangeValue | components/dynamic-data-table/data-table-date-filter.tsx:47-51 | a complete range is written as the date strings of its two ends |
| DateFilter.DateFilterWidget.constructor | components/dynamic-data-table/data-table-date-filter.tsx:28-39 | each end of the default range is kept, converted, only when it is set |
| DateFilter.DateFilterWidget.HandleDateSelect | components/dynamic-data-table/data-table-date-filter.tsx:41-53 | the local range becomes exactly the selection; the column filter is written iff both ends are set, and is otherwise left as it was |
| DateFilter.DateFilterWidget.TriggerLabel | components/dynamic-data-table/data-table-date-filter.tsx:61-73 | there is a label iff the start is set: "from - to" with both ends, "from" with only the start |
| DateFilter.PickRange | components/dynamic-data-table/data-table-date-filter.tsx:41-53 | two clicks: the first leaves the column alone and labels the start; the second writes the range and labels both ends |
| ColumnFilter.Column.SetFilterValue | components/dynamic-data-table/data-table-faceted-filter.tsx:51-61 | the column's filter becomes the value written, replacing the old one |
| FilterParser.GetColumn | components/dynamic-data-table/data-table-filter-parser.tsx:18 | a column is found iff the table has a column with that key |
| FilterParser.Dispatch | components/dynamic-data-table/data-table-filter-parser.tsx:13-44 | "multiselect" gives a multi faceted filter, "select" a single one, "date" a date filter, and any other kind nothing; key, title, column, options and default range are passed through |
| FilterParser.Parse | components/dynamic-data-table/data-table-filter-parser.tsx:10-45 | one slot per descriptor, in order, each that descriptor's dispatch; no descriptors gives nothing |
| FilterParser.RenderedWidgets | components/dynamic-data-table/data-table-filter-parser.tsx:13-45 | a descriptor renders a widget iff its kind is one of the three known kinds |
| Dashboard.GetDashboardData | app/actions/dashboard.ts:5-88 | "Unauthorized" without a user; otherwise the expense query's error, else the payment query's error; otherwise the summary sorted by total, the payment sum and the payment count |
| Dashboard.GroupByCategory | app/actions/dashboard.ts:57-73 | the grouping loop builds exactly the specified category map |
| Dashboard.GroupedCharacterisation | app/actions/dashboard.ts:57-73 | the map holds one entry per distinct category, in first-seen order, with the first expense's name and thumbnail and the sum of that category's amounts; uncategorised expenses are skipped |
| Dashboard.GroupedIds | app/actions/dashboard.ts:57-73 | every category id occurs once, and an id occurs iff some expense is in that category |
| Dashboard.SummaryTotalsAddUp | app/actions/dashboard.ts:57-73 | the totals add up to the sum of all categorised expenses |
| Dashboard.SortByTotal | app/actions/dashboard.ts:76-78 | the sorted summary has as many entries as the summary (its order and contents are SortIsPermutation, SortedByTotal and SortIsStable) |
| Dashboard.SortIsPermutation | app/actions/dashboard.ts:76-78 | the sorted summary is a permutation of the summary |
| Dashboard.SortedByTotal | app/actions/dashboard.ts:76-78 | the sorted summary is ordered by non-increasing total |
| Dashboard.SortIsStable | app/actions/dashboard.ts:76-78 | entries with equal totals keep their first-seen order |
| Dashboard.SumAppend | app/actions/dashboard.ts:43 | the payment reduce adds each amount once |
| Dashboard.FormatDate | app/actions/dashboard.ts:172-190 | "MMMM" gives the month's English name; unknown patterns fall back to the ISO string |
| Dashboard.FormatDateFields | app/actions/dashboard.ts:172-180 | for a four-digit year, "yyyy-MM-dd" is ten characters whose fields read back as year, month and day; "yyyy-MM" is its first seven characters |
| Dashboard.MonthKeyOf | app/actions/dashboard.ts:145 | `substring(0, 7)`: the first seven characters, or the whole of a shorter string |
| Dashboard.MonthKeyOfFormattedDate | app/actions/dashboard.ts:139-145 | the month key of a date formatted "yyyy-MM-dd" is the same date formatted "yyyy-MM" |
| Dashboard.SeedBuckets | app/actions/dashboard.ts:133-141 | one zeroed bucket per distinct seeded key, in first-seen order |
| Dashboard.Accumulate | app/actions/dashboard.ts:143-157 | the loop leaves every bucket credited with the sum of the records of its month (expenses or payments, the other total untouched) |
| Dashboard.CreditStep | app/actions/dashboard.ts:143-157 | one more record changes only the bucket of its own month, if one was seeded, and leaves every other bucket as it was |
| Dashboard.CreditedKeys | app/actions/dashboard.ts:143-157 | crediting never changes a bucket's key or the buckets' order |
| Dashboard.MonthlyBuckets | app/actions/dashboard.ts:133-157 | one bucket per distinct seeded key, holding the expense and payment sums of exactly that month |
| Dashboard.UnseededMonthIgnored | app/actions/dashboard.ts:146-148 | a record whose month was not seeded adds to no bucket |
| Dashboard.MonthLabel | app/actions/dashboard.ts:160-163 | a well-formed "yyyy-MM" key is labelled with its own month's name; any other key has no label |
| Dashboard.MonthLabelAsWritten | app/actions/dashboard.ts:161-163 | the label the code computes: UTC midnight of the 1st, read in local time |
| Dashboard.MonthLabelOfFormattedKey | app/actions/dashboard.ts:139-163 | a month formatted as a key and labelled gives that month's "MMMM" name |
| Dashboard.MonthLabelAsWrittenIsOffByOne | app/actions/dashboard.ts:161-163 | west of UTC the label as written differs from the key's month; at or east of UTC it matches |
| Dashboard.MonthLabelAsWrittenExample | app/actions/dashboard.ts:161-163 | at UTC−5 the "2024-03" bucket is labelled "February" instead of "March" |
| Dashboard.ChartData | app/actions/dashboard.ts:160-167 | one chart point per bucket, in order, with its sums and the corrected label of its month key (see ChartDataAsWritten) |
| Dashboard.ChartDataAsWritten | app/actions/dashboard.ts:160-167 | one chart point per bucket, in order, labelled as the code labels it on a server at the given UTC offset |
| Dashboard.ChartDataAsWrittenAgreement | app/actions/dashboard.ts:160-167 | at or east of UTC the chart as written is the corrected chart; west of UTC the two differ as soon as one bucket has a well-formed month key |
| Dashboard.GetMonthlyComparison | app/actions/dashboard.ts:90-170 | "Unauthorized" without a user, else either query's error, and when both queries return rows always data: one point per distinct seeded month, holding that month's corrected label, expense sum and payment sum |
| Text.Pad2 | lib/generateMonths.ts:5-6 | `padStart(2, "0")` yields digits only, at least two, and exactly two below 100 |
| Text.Pad2RoundTrip | lib/generateMonths.ts:5-6 | the padded digits read back as the number |
| Text.DateTextFields | lib/generateMonths.ts:5-6 | for a four-digit year, the date string is `yyyy-mm-dd` with its fields reading back as the year, month and day |
| Calendar.DaysInMonth | lib/generateMonths.ts:15-18 | 28 to 31 days; February has 29 exactly in Gregorian leap years (the grid applies it to UtcYear of the year) |
| Calendar.UtcYear | lib/generateMonths.ts:15-18 | the year `new Date(y, m, 0)` and `Date.UTC` use: 0 to 99 read as 1900 to 1999, every other year as given |
| Calendar.TwoDigitYearMonthLengths | lib/generateMonths.ts:15-18 | year 0 is a leap year, yet its February grid has 28 days and March 0 starts after a 28th of February; February 2000 has 29 |
| Calendar.Weekday | lib/generateMonths.ts:14 | the day of the week, 0 (Sunday) to 6 |
| Calendar.WeekdayExamples | lib/generateMonths.ts:14 | 1 January 2024 was a Monday, 1 February 2025 a Saturday, 1 September 2024 a Sunday |
| Calendar.AddMonths | lib/generateMonths.ts:9-12 | the month i months later, as a year and a 0-based month: 12·year + month advances by exactly i |
| Calendar.PrevMonth | lib/generateMonths.ts:25-26 | the leading filler's year and month are the month before, across January |
| Calendar.NextMonth | lib/generateMonths.ts:46-47 | the trailing filler's year and month are the month after, across December |
| Calendar.ConsecutiveMonths | lib/generateMonths.ts:9-12 | consecutive grids are the next and previous months of one another |
| Calendar.LeadingDays | lib/generateMonths.ts:17-30 | as many cells as the weekday of the 1st; they are drawn from the previous month's length in UtcYear of its year |
| Calendar.LeadingDaysContent | lib/generateMonths.ts:17-30 | those cells are not of the month: they are the previous month's last days, consecutive and ending at its last day, dated in that month |
| Calendar.CurrentDays | lib/generateMonths.ts:32-37 | one cell per day of the month, its length taken in UtcYear of the year |
| Calendar.CurrentDaysContent | lib/generateMonths.ts:32-37 | the month's days 1 to its length, in order, marked as current and dated in the month |
| Calendar.TrailingCount | lib/generateMonths.ts:40-41 | 0 to 6 days that complete the last week, and 0 exactly when the weeks are already full |
| Calendar.TrailingDays | lib/generateMonths.ts:42-50 | exactly n cells |
| Calendar.TrailingDaysContent | lib/generateMonths.ts:42-50 | the next month's days 1 to n, not of the month, dated in the next month |
| Calendar.MonthCellsShape | lib/generateMonths.ts:52-54 | the cells fill 4 to 6 whole weeks; a cell is the month's own exactly when it lies after the leading filler and within the month's length, and those cells count 1, 2, … |
| Calendar.MonthCells | lib/generateMonths.ts:52-54 | the leading, current and trailing cells together fill whole weeks |
| Calendar.WeeksProperties | lib/generateMonths.ts:55-57 | the weeks put back together are the cells, and with whole weeks each has seven days |
| Calendar.Weeks | lib/generateMonths.ts:55-57 | one week per started group of seven cells |
| Calendar.MonthWeeks | lib/generateMonths.ts:52-57 | a month's grid has 4 to 6 seven-day weeks that are its cells |
| Calendar.SplitWeeks | lib/generateMonths.ts:53-57 | the slicing loop yields exactly the specified weeks |
| Calendar.GenerateMonths | lib/generateMonths.ts:2-68 | 36 months, the i-th being i months after the start, each with its split cells and name |
| Calendar.MonthBoundsOf | lib/generateMonths.ts:89-90 | midnight UTC on the 1st and 23:59:59 on the month's last day, with years 0–99 read as 1900–1999 |
| Calendar.ParseIntOfNat | lib/generateMonths.ts:75 | `parseInt` reads back the decimal form of a number |
| Calendar.ParseIntOfNegative | lib/generateMonths.ts:75 | a minus sign before a number's decimal form reads as its negation |
| Calendar.ParseIntWithoutDigits | lib/generateMonths.ts:75 | a string without a digit parses as NaN |
| Calendar.GetDateRangeAsWritten | lib/generateMonths.ts:70-93 | the date range as the code computes it, including the invalid-date result for an unknown month name |
| Calendar.GetDateRange | lib/generateMonths.ts:70-93 | no input gives the current UTC month; otherwise the format error exactly when the year is unreadable or the month name unknown, else that month's bounds; never invalid dates |
| Calendar.DateRangeBounds | lib/generateMonths.ts:89-90 | a range starts at 00:00:00 on the 1st and ends at 23:59:59 on that month's last day |
| Calendar.DateRangeOfMonthYear | lib/generateMonths.ts:73-76 | "Name YYYY" with a known name gives that month of that year |
| Calendar.AsWrittenDiffersOnlyOnUnknownMonth | lib/generateMonths.ts:76-82 | the code as written and the corrected version differ exactly where the code returns invalid dates, and there the corrected one throws the format error |
| Calendar.UnknownMonthExample | lib/generateMonths.ts:76-82 | "Foo 2025", with a date parser that rejects "Foo 1, 2025", gives invalid dates as written and the format error when corrected |
| Actions.PageOf | app/actions/expenses.ts:56 | the page defaults to 0 only when absent |
| Actions.PageSizeOf | app/actions/expenses.ts:57 | the page size defaults to 10 only when absent |
| Actions.RangeOf | app/actions/expenses.ts:58-59 | the inclusive range asks for exactly pageSize rows |
| Actions.RangesAdjoin | app/actions/payments.ts:55-56 | consecutive pages adjoin: to(p) + 1 = from(p + 1) |
| Actions.RowInOneRange | app/actions/expenses.ts:58-59 | with a positive page size, row i lies in the range of page i / pageSize and of no other page |
| Actions.DateFilterOf | app/actions/expenses.ts:31-35 | the date filter applies iff both ends are present and non-empty, with those ends |
| Actions.ListQueries | app/actions/expenses.ts:24-63 | the count query and the data query carry the same filter (the user, plus the dates when given); the data is newest first, over the page's range |
| Actions.List | app/actions/expenses.ts:20-67 | "Unauthorized" with count 0 without a user; otherwise the data query's rows and error, and the exact count or 0 when there is none |
| Actions.PagesTile | app/actions/expenses.ts:58-63 | reading pages 0..k−1 in order gives the first k·pageSize matching rows, none skipped or repeated |
| Actions.RowOnItsPage | app/actions/payments.ts:55-60 | matching row i is at position i mod pageSize of page i / pageSize |
| Actions.AfterWrite | app/actions/expenses.ts:120-124 | the store's data and error are passed back, and the paths are revalidated iff there was no error |
| Actions.UnauthorizedWrite | app/actions/expenses.ts:102-104 | without a user: null data, "Unauthorized", nothing revalidated |
| Expenses.GetExpenses | app/actions/expenses.ts:11-68 | the expenses list (with each expense's category id and name), scoped to the user, paged and date-filtered as specified, with count 0 on failure |
| Expenses.GetExpenseById | app/actions/expenses.ts:70-90 | "Unauthorized" without a user; otherwise the store's answer for this id and this user |
| Expenses.InsertOf | app/actions/expenses.ts:106-112 | the insert copies name, category, amount and date and sets the owner to the user |
| Expenses.UpdateOf | app/actions/expenses.ts:139-144 | the update copies the same four fields |
| Expenses.CreateExpense | app/actions/expenses.ts:92-125 | "Unauthorized" without a user; otherwise the insert's reply, with "/expenses" revalidated iff it succeeded |
| Expenses.UpdateExpense | app/actions/expenses.ts:127-160 | "Unauthorized" without a user; otherwise the update of this id and user, with "/expenses" and "/expenses/{id}/edit" revalidated iff it succeeded |
| Expenses.DeleteExpense | app/actions/expenses.ts:162-182 | the reply carries only the error: "Unauthorized" without a user, else the delete's; "/expenses" is revalidated iff there is no error |
| Expenses.UpdateKeepsOwner | app/actions/expenses.ts:139-152 | updating a created expense gives the row that creating from the new form by the same owner would give |
| Expenses.UpdateRows | app/actions/expenses.ts:146-152 | the store's update keeps the table's length and every row's id and owner |
| Expenses.DeleteRows | app/actions/expenses.ts:171-175 | the store's delete keeps exactly the rows the key does not select, and never adds rows |
| Expenses.UpdateReachesOnlyOwnRow | app/actions/expenses.ts:139-152 | signed in, an update run against that store changes exactly the row with the given id owned by the user and leaves every other row as it was |
| Expenses.DeleteReachesOnlyOwnRow | app/actions/expenses.ts:171-175 | signed in, a delete reaches a row exactly when the row has the given id and belongs to the user |
| Payments.PaymentFromValue | app/actions/payments.ts:98 | a missing or empty `payment_from` is stored as null, any other as given |
| Payments.PaymentFromStable | app/actions/payments.ts:95-100 | normalising again changes nothing, and the empty string is never stored |
| Payments.InsertOf | app/actions/payments.ts:95-100 | the insert copies amount and date, normalises the source, and sets the owner |
| Payments.UpdateOf | app/actions/payments.ts:124-128 | the update copies amount and date and normalises the source, with no owner |
| Payments.GetPayments | app/actions/payments.ts:11-65 | the payments list, scoped to the user, paged and date-filtered as specified, with count 0 on failure |
| Payments.GetPaymentById | app/actions/payments.ts:67-84 | "Unauthorized" without a user; otherwise the store's answer for this id and this user |
| Payments.CreatePayment | app/actions/payments.ts:86-113 | "Unauthorized" without a user; otherwise the insert's reply, with "/payments" revalidated iff it succeeded |
| Payments.UpdatePayment | app/actions/payments.ts:115-144 | "Unauthorized" without a user; otherwise the update of this id and user, with "/payments" and "/payments/{id}/edit" revalidated iff it succeeded |
| Payments.DeletePayment | app/actions/payments.ts:146-166 | the reply carries only the error: "Unauthorized" without a user, else the delete's; "/payments" is revalidated iff there is no error |
| Payments.UpdateKeepsOwner | app/actions/payments.ts:124-136 | updating a created payment gives the row that creating from the new form would give; an emptied source becomes null |
| Validation.LengthIssues | lib/validations/expense.ts:4 | with distinct messages: the "required" message iff the text is empty, the "too long" message iff it is longer than 100; no issue iff the length is 1 to 100 |
| Validation.AmountIssues | lib/validations/expense.ts:6 | no issue iff the coerced amount is a number greater than 0; zero or negative gives "Amount must be greater than 0"; NaN gives zod's type message only |
| Validation.DateIssues | lib/validations/expense.ts:7-15 | "Date is required" iff the date is empty; "Date cannot be in the future" iff the date does not parse to an instant up to the end of today |
| Validation.ParseExpense | lib/validations/expense.ts:3-16 | valid iff the name has 1–100 characters, the category is non-empty, the amount is positive and the date is non-empty and not after today; the data is the input with the amount coerced |
| Validation.ExpenseMessages | lib/validations/expense.ts:3-16 | each of the six messages is reported under its field exactly when its rule is broken |
| Validation.ExpenseNameBounds | lib/validations/expense.ts:4 | names of 1 and 100 characters pass; 0 gives only "Expense name is required"; 101 gives only "Name is too long" |
| Validation.EmptyDateReportsBoth | lib/validations/expense.ts:7-15 | an empty date reports "Date is required" and then "Date cannot be in the future" |
| Validation.ParsePayment | lib/validations/payment.ts:3-15 | valid iff the amount is positive and the date is non-empty and not after today; `payment_from` is kept as given and never reported |
| Validation.PaymentFromIrrelevant | lib/validations/payment.ts:14 | changing `payment_from` never changes validity |
| Validation.ThumbnailIssues | lib/validations/category.ts:5 | the thumbnail is accepted iff it is absent, empty or a URL; otherwise the single issue "Please enter a valid URL" |
| Validation.ParseCategory | lib/validations/category.ts:3-6 | valid iff the name has 1–100 characters and the thumbnail is acceptable; the data is the input |
| Validation.CategoryMessages | lib/validations/category.ts:3-6 | "Category name is required", "Category name is too long" and the URL message are each reported exactly when their rule is broken |

## Left out

- Supabase, auth and cache are not modelled as services. Each query, and the user `auth.getUser()` returns, is a parameter. `revalidatePath` is modelled as the list of paths the action would revalidate.
- The store's evaluation of a list query is not modelled: filtering by user and dates, the ordering by date, and the order of equal dates. `Actions.PagesTile` and `Actions.RowOnItsPage` describe what a range selects from rows the store has already matched and ordered. What the store does with a negative range (a negative page or page size) is not modelled.
- Amounts are integers, so floating-point sums are not modelled. Likewise `Number(...)` on stored amounts and `Math.round` (the identity on integers). In the validation schemas the coerced amount is a real number or NaN; `Infinity` is not distinguished.
- The clock and the local time zone are parameters:
  - the six seeded month keys and the window bounds of `getMonthlyComparison` are inputs (so a day-of-month overflow that makes two keys coincide is covered by keeping the distinct keys);
  - so are the current UTC year and month in `getDateRange`, and the start year and month of `generateMonths`;
  - the time zone appears only as the UTC offset of `Dashboard.MonthLabelAsWritten`.
- Library formatting and parsing are parameters:
  - `toLocaleString` month names, `toDateString`, `convertToUTC` and date-fns `format`;
  - the date parse `new Date(...)` used by `getDateRange` (a month lookup) and by the validation refinements;
  - zod's URL test.
- `Calendar.ParseInt` treats only space, tab, line feed and carriage return as leading whitespace. JavaScript's `parseInt` also skips other Unicode spaces.
- Dates outside the range of a JavaScript time value are not modelled: `Date.UTC` turns them into invalid dates.
- The option list's `localeCompare` sort is not part of this model. Checked state and badges do not depend on the order.
- The following are not part of this model:
  - React rendering, class names and icons;
  - the TanStack internals (`getPageCount`, pinning queries, offsets, `flexRender`); their results are parameters;
  - TanStack's storage of a column's filter, modelled as the `filterValue` field of `ColumnFilter.Column`.
- FacetedFilter.SelectedSet: multi mode reads a date-range filter value as an empty set. JavaScript would throw, since `new Set` of a plain object is a type error.
- Dashboard.ChartData and Dashboard.GetMonthlyComparison label buckets with the corrected `Dashboard.MonthLabel`, not with the local-time label the code computes. `Dashboard.ChartDataAsWritten` is the chart as written; `Dashboard.ChartDataAsWrittenAgreement` proves the two agree at or east of UTC and differ west of it.
- String lengths in the schemas count characters, where zod counts UTF-16 code units. The schemas' inputs are typed, so zod's type errors for non-string fields are not modelled.
- `Object.keys` lists integer-like keys first in JavaScript; the model keeps insertion order for every key.
- Concurrency is not modelled: overlapping requests and responses arriving in any order.
- `app/actions/categories.ts`, the form components and the column files are not part of this model.

## Findings

| source | as written | input that shows it | evidently intended | confidence | as-written member | corrected member |
|---|---|---|---|---|---|---|
| app/actions/dashboard.ts:160-163 | `new Date(monthKey + "-01")` is midnight UTC, but `formatDate` reads the local month | the bucket "2024-03" in a time zone at UTC−5 is labelled "February" | each bucket labelled with its own month | not executed | Dashboard.MonthLabelAsWritten (Dashboard.MonthLabelAsWrittenExample) | Dashboard.MonthLabel |
| lib/generateMonths.ts:76-82 | an unreadable month name makes the month NaN, and `NaN < 1` and `NaN > 12` are both false, so nothing is thrown | "Foo 2025", where `new Date("Foo 1, 2025")` is an invalid date | throw the format error for any month name the parser cannot read | not executed | Calendar.GetDateRangeAsWritten (Calendar.UnknownMonthExample) | Calendar.GetDateRange |
| components/dynamic-data-table/data-table.tsx:340-347 | the loading and "No results." cells span `columns.length`, leaving out the checkbox column | a table given a `rowSelection` prop and no rows: the cell spans one column fewer than the header row | span every column of the table | not executed | DataTable.BodyStateAsWritten (DataTable.EmptyBodyOneColumnShort) | DataTable.BodyState |
