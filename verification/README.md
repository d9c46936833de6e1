# Transaction reporting core of the finance dashboard

The dashboard keeps one list of transactions `{id, description, amount, type,
category, date}` and one settings record (total budget limit, per-category
limits, alerts switch). Every view derives its figures from these two, and
this project models those derivations as pure Dafny functions over
sequences:

- the CSV encoder behind every export button;
- the keyword classifier and the submit logic of the transaction form;
- the dashboard totals;
- the analysis page's time buckets, trend series, budget-versus-actual rows
  and exports;
- the alert banner, the budget alert and the settings page's save;
- the category bar chart and the balance-over-time chart;
- the filtered, sorted and paginated transaction table;
- the five most recent transactions;
- the month-over-month recommendation.

Shared pieces live in their own modules:

- `Ledger`: records, sums, filters and first-seen de-duplication.
- `StableSort`: the stable insertion sort that stands for
  `Array.prototype.sort`.
- `Calendar`: proleptic Gregorian dates, day numbers, weeks and `setMonth`.
- `Text`: string order, case folding, substring search and decimal text.
- `Values`: JavaScript values and their truthiness.

Amounts are whole numbers, for example cents.

The model follows the code as written, quirks included:

- The Total budget row selects `type >= 'expense'` as a string comparison,
  so incomes count too.
- The weekly bucket key repeats the week start twice. `d` is moved to
  Sunday before its second use, so the key is not "week start – date".
- Category actuals compare bucket strings, not dates.
- The settings page flags the budget using the sum of all amounts, income
  included.
- Falsy values, including `0`, export as empty fields.
- The trend export asks for an `expenses` column that its records, which
  carry `expense`, never have.
- The form classifies a new transaction's description once, when the form
  opens. The effect that calls the classifier has an empty dependency list,
  so it runs while the description is still empty, and typing a
  description afterwards does not classify it again.

## Model

| member | source | states |
|---|---|---|
| ExportButton.ConvertToCsv | src/components/ExportButton.js:33-48 | No CSV is produced exactly when the data is absent or empty; otherwise the text starts with the headers joined by commas |
| ExportButton.Fields | src/components/ExportButton.js:40-43 | A record gives one field per header, in header order, each field being the text of the value under that header |
| ExportButton.Table | src/components/ExportButton.js:39-45 | One row of fields per record, in input order |
| ExportButton.CsvRoundTrip | src/components/ExportButton.js:33-48 | For non-empty data the CSV is the header line, a newline and the record lines; a quote-aware reader recovers exactly one row per record from those lines, each field holding the original value |
| ExportButton.ReadEscaped | src/components/ExportButton.js:42 | Doubling the embedded quotes can be undone: the escaped text followed by the closing quote reads back as the original value, with the rest of the input left over |
| ExportButton.ReadRowText | src/components/ExportButton.js:40-44 | A row written as quoted fields joined by commas reads back as exactly those fields |
| ExportButton.ReadRowsText | src/components/ExportButton.js:44-47 | Rows joined by newlines read back as the same rows, in order |
| ExportButton.FalsyFieldIsEmpty | src/components/ExportButton.js:41-42 | A missing or falsy value is written as the empty quoted field `""` |
| Values.FieldText | src/components/ExportButton.js:41 | A field is empty exactly when its key is missing or its value is falsy (`0`, `""`, false, null); otherwise it is the value's text |
| TransactionForm.AssignCategory | src/components/TransactionForm.js:21-37 | When some category has a keyword that occurs, ignoring case, in the description, the result is the first such category in declaration order, and no earlier category matches; when none does, the result is "Other Expenses" |
| TransactionForm.AssignCategoryIsKnown | src/components/TransactionForm.js:26-36 | The classifier always answers a declared category or "Other Expenses" |
| TransactionForm.EmptyDescriptionIsOther | src/components/TransactionForm.js:40-46 | The empty description a new form opens with is classified "Other Expenses" when no keyword is empty |
| TransactionForm.InitialForm | src/components/TransactionForm.js:40-55 | A new form gets the classifier's category for the empty description and type `expense`; an edit form keeps the stored category and description |
| TransactionForm.HandleSubmit | src/components/TransactionForm.js:59-90 | Submission is refused with "All fields are required." exactly when a field is empty or falsy. Otherwise an edit calls update with the edited id and a new transaction calls add with the clock's id, and the stored transaction carries the form's fields |
| TransactionForm.ParseTypedAmount | src/components/TransactionForm.js:78 | Typing the digits of a whole amount stores that amount |
| TransactionForm.UnchangedEditRoundTrip | src/components/TransactionForm.js:47-88 | Submitting an edit form left as loaded writes the same transaction back, except that a stored amount of 0 is falsy and the form is refused |
| Calendar.WeekStartIsSunday | src/components/Analysis.js:267 | The week start is a Sunday, at most six days before the date, and every date of that week has the same week start |
| Analysis.BucketKey | src/components/Analysis.js:261-276 | The daily key is the date in en-US `M/D/YYYY` form; the weekly key is the week start in that form, twice, around " - "; the monthly key is the 1-based month, a slash and the year; the yearly key is the year |
| Analysis.BucketKeysSeparate | src/components/Analysis.js:261-276 | Two dates share a daily key exactly when they are the same day, a monthly key exactly when they share month and year, and a yearly key exactly when they share the year |
| Calendar.LocaleStringInjective | src/components/Analysis.js:265 | Two dates have the same `toLocaleDateString` text exactly when they are the same date |
| Analysis.WeeklyKeyIsWeekStartTwice | src/components/Analysis.js:266-268 | The weekly key is the week start's text twice, and all dates of one Sunday-to-Saturday week share it |
| Analysis.FindKey | src/components/Analysis.js:40 | The position of the first trend entry with the key, or the end of the list when there is none |
| Analysis.TrendStep | src/components/Analysis.js:39-54 | One reduce step adds the transaction's key at the end when the key is new and leaves the keys alone otherwise |
| Analysis.TrendFold | src/components/Analysis.js:38-56 | There are never more points than transactions, and at least one point when there is a transaction |
| Analysis.TrendData | src/components/Analysis.js:38-56 | The series' keys are the distinct bucket keys in first-seen order; each point's income is its bucket's income, and for income and expense transactions its expense is its bucket's expense; a non-empty list gives a non-empty series |
| Analysis.TrendKeysAreFirstSeen | src/components/Analysis.js:38-56 | The trend series' keys are the transactions' bucket keys without repeats, in first-seen order |
| Analysis.TrendKeysDistinct | src/components/Analysis.js:38-56 | No two trend points share a key |
| Analysis.TrendPointSums | src/components/Analysis.js:38-56 | Each point's income is the sum of the income amounts in its bucket; when every transaction is an income or an expense, its expense is the sum of the expense amounts in its bucket |
| Analysis.TrendStepTotals | src/components/Analysis.js:42-54 | One step adds the amount to the income column for an income and to the expense column for an expense |
| Analysis.TrendColumnTotals | src/components/Analysis.js:38-56 | Over all points the income column adds up to the total income; for income and expense transactions, the expense column adds up to the total expense |
| Analysis.BudgetData | src/components/Analysis.js:88-100 | One row per category limit, in key order, each keyed `<bucket>_<category>` and holding the limit and that category's actual; then exactly one `Total_<bucket>` row with the total limit and the total actual |
| Analysis.MonthlyBucketsCompareAsStrings | src/components/Analysis.js:60-74 | Monthly keys are `month/year`, and as strings "1/2025" sorts below "12/2024" while "2/2024" sorts above it |
| Analysis.CategoryActualAcrossYearEnd | src/components/Analysis.js:60-74 | In December 2024 a January 2025 expense is left out of its category's actual, while a February 2024 expense is counted |
| Analysis.CategoryActual | src/components/Analysis.js:60-74 | With non-negative amounts, a category's actual is at least its expenses in the current bucket and at most all its expenses |
| Analysis.TotalActual | src/components/Analysis.js:76-86 | For income and expense transactions, the Total row's actual is the current bucket's income plus its expense, because "income" >= "expense" holds |
| Analysis.ExportCsv | src/components/Analysis.js:111-115 | The trend export has a file exactly when there are transactions; the budget export always has one; each starts with its own header line |
| Analysis.ExpensesKeyMissing | src/components/Analysis.js:49-53 | A trend record has no `expenses` key |
| Analysis.TrendExpensesColumnIsEmpty | src/components/Analysis.js:112-115 | Every record line of the trend export reads back with an empty third (`expenses`) column |
| Dashboard.Summarize | src/components/Dashboard.js:20-102 | Income and expense are the sums of the matching amounts, and the balance is their difference. The colour is red, green or blue as the balance is below, above or at zero, and the warning shows exactly when the balance is negative |
| Dashboard.SummarizeAppend | src/components/Dashboard.js:20-26 | One more transaction moves only the total of its own type, by its amount |
| Dashboard.EmptySummary | src/components/Dashboard.js:20-28 | With no transactions every total is 0, the colour is blue, and there is no warning |
| Dashboard.TransactionFields | src/components/Dashboard.js:30 | A transaction is written as id, description, amount, type, category and date; a zero id or amount becomes an empty field |
| Dashboard.ExportTransactions | src/components/Dashboard.js:30-55 | The export has a file exactly when there are transactions, and it starts with the six transaction headers |
| Dashboard.ExportTransactionsRows | src/components/Dashboard.js:30-55 | The export has a file exactly when there are transactions. It starts with the header line, and each record line reads back as its transaction's six fields |
| AlertBanner.CategoryExpenses | src/components/AlertBanner.js:26-32 | The map has an entry exactly for the categories with an expense, and each entry is the sum of that category's expense amounts; income never contributes |
| AlertBanner.ExceededCategories | src/components/AlertBanner.js:34-36 | A category is listed exactly when it is a limit key, has an expense entry, and that entry exceeds its limit; the list follows key order |
| AlertBanner.Evaluate | src/components/AlertBanner.js:12-36 | Nothing is produced exactly when alerts are off. Otherwise the total warning is raised exactly when the expenses exceed the total limit, and each category warning exactly when a limited category with expenses is over its limit, listed in key order |
| AlertBanner.IncomeDoesNotAlert | src/components/AlertBanner.js:18-36 | Adding an income changes nothing in the banner |
| BudgetAlert.CurrentDeps | src/components/BudgetAlert.js:15-23 | The budget counts as exceeded exactly when the sum of expense amounts is strictly over the total limit |
| BudgetAlert.Effect | src/components/BudgetAlert.js:26-39 | An exceeded budget makes the alert visible with the warning message and severity `warning`; otherwise the alert is hidden with empty message and severity |
| BudgetAlert.Render | src/components/BudgetAlert.js:26-41 | The effect runs again only when whether the budget is exceeded, or the limit, has changed; otherwise the alert state is kept |
| BudgetAlert.Close | src/components/BudgetAlert.js:50-52 | Closing hides the alert and keeps its message and severity |
| BudgetAlert.CloseIsSticky | src/components/BudgetAlert.js:26-52 | A closed alert stays hidden while the data is the same, and a new limit that is still exceeded shows it again |
| BudgetAlert.CloseIdempotent | src/components/BudgetAlert.js:50-52 | Closing twice is the same as closing once |
| SettingsPage.HandleSave | src/components/Settings.js:36-67 | A save is refused exactly when the category limits add up to more than the total limit; a sum equal to the limit is accepted. A refusal shows the error, clears the flag and touches neither store. A save stores the form, clears the error, shows the success message, and gives both the flag and the alert store "sum of all amounts > limit" |
| SettingsPage.SaveKeepsStoreConsistent | src/components/Settings.js:47-65 | Stored category limits always fit in the stored total limit; the error is empty exactly when the form's limits fit |
| SettingsPage.TotalIsIncomePlusExpense | src/components/Settings.js:55 | For income and expense transactions, the sum of all amounts is income plus expense |
| SettingsPage.SaveCountsIncome | src/components/Settings.js:55-62 | A 100 income against a limit of 50 makes the settings page flag the budget while the budget alert stays off |
| SettingsPage.SaveFlagCoversAlert | src/components/Settings.js:55-62 | With non-negative amounts, a save that raises no flag also leaves the budget alert off |
| Ledger.Dedup | src/components/AnalysisGraph.js:21-23 | Each value appears once, exactly the values of the input, ordered by first occurrence |
| AnalysisGraph.Bar | src/components/AnalysisGraph.js:30-46 | A bar's income and expense are the sums of that category's income and expense amounts |
| AnalysisGraph.GraphData | src/components/AnalysisGraph.js:21-47 | One bar per distinct category, in first-seen order, each with its income and expense sums |
| AnalysisGraph.GraphCategories | src/components/AnalysisGraph.js:21-23 | Some bar is labelled with a category exactly when some transaction uses it, and no label repeats |
| AnalysisGraph.BarsAddUpToTotals | src/components/AnalysisGraph.js:21-47 | Summed over the chart's categories, one type's bar amounts equal that type's total |
| AnalysisGraph.GraphTotals | src/components/AnalysisGraph.js:30-47 | The chart's income bars add up to the total income and its expense bars to the total expense |
| StableSort.Sort | src/components/BalanceOverTime.js:18-20 | The result is a permutation of the input, ascending by the key, and transactions with equal keys keep their input order |
| StableSort.SortOfSorted | src/components/BalanceOverTime.js:18-20 | An already ordered list is left as it is |
| BalanceOverTime.RunningBalance | src/components/BalanceOverTime.js:24-34 | Point `i` carries transaction `i`'s date text and the balance after transactions `0..i`: income added, any other type subtracted |
| BalanceOverTime.BalanceSeries | src/components/BalanceOverTime.js:18-34 | One point per transaction of the date-sorted list, carrying the running balance; the last point's balance is the balance of the whole list |
| BalanceOverTime.SignedSumSort | src/components/BalanceOverTime.js:18-28 | Sorting does not change the final balance |
| BalanceOverTime.SignedSumIsBalance | src/components/BalanceOverTime.js:28 | For income and expense transactions, the signed sum is income minus expense |
| BalanceOverTime.SeriesEndsAtBalance | src/components/BalanceOverTime.js:24-34 | The chart ends at the dashboard's balance |
| TransactionList.Visible | src/components/TransactionList.js:58-72 | A transaction is shown exactly when it passes both filters, an empty filter passing everything. The rows are those transactions, sorted by amount or date, with equal keys in store order |
| TransactionList.UnsortedKeepsOrder | src/components/TransactionList.js:63-71 | Without a known sort field the filtered rows keep store order, and with no filter either they are the store as it is |
| TransactionList.Slice | src/components/TransactionList.js:77 | For `0 <= start <= end`, the slice is the rows from `start` up to `end`, both clamped to the list |
| TransactionList.Paginate | src/components/TransactionList.js:74-78 | A page holds only rows of the list, never more rows than the list, and for a non-negative page at most `rowsPerPage` rows |
| TransactionList.PageWindow | src/components/TransactionList.js:74-78 | A page is the window starting at `page * rowsPerPage` and has at most `rowsPerPage` rows |
| TransactionList.PagesCoverList | src/components/TransactionList.js:74-78 | Row `i` appears on page `i / rowsPerPage` at position `i % rowsPerPage` |
| TransactionList.ChangePage | src/components/TransactionList.js:80-82 | Only the page changes |
| TransactionList.ChangeRowsPerPage | src/components/TransactionList.js:84-87 | The new page size takes effect and the page returns to 0, which shows the first rows; nothing else changes |
| TransactionList.ShownRowsAreVisibleRows | src/components/TransactionList.js:58-78 | Every row on the current page is a stored transaction that passes the filters |
| TransactionList.InitialTableShowsStore | src/components/TransactionList.js:31-78 | With the initial controls (no filter, no sort, page 0, ten rows) the table holds the store in store order and its page is the first ten transactions |
| RecentTransactions.Recent | src/components/RecentTransactions.js:18-20 | Up to five rows, newest first, drawn from the list; no transaction left out is more recent than a shown one |
| RecentTransactions.RecentInPlace | src/components/RecentTransactions.js:18-20 | The caller's array is itself reordered newest first, and the rows shown are its first five |
| RecentTransactions.RecentOfOrdered | src/components/RecentTransactions.js:18-20 | A list already newest first shows its own first five |
| Calendar.SetMonth | src/components/Recommendations.js:43 | The result is a valid date, the given day counted from the first of the target month (year carried by whole twelves), so a day the month lacks overflows into the next month |
| Recommendations.MonthExpenses | src/components/Recommendations.js:47-60 | A month's total is the sum of the expense amounts dated in that year and month |
| Recommendations.Compare | src/components/Recommendations.js:71-81 | No expenses last month exactly when last month's total is 0; otherwise increased, decreased or unchanged as this month is above, below or equal to it. The percentages are the change relative to last month times 100 |
| Recommendations.Recommend | src/components/Recommendations.js:40-81 | This month's expense total is compared with that of the month `setMonth(month - 1)` lands in |
| Recommendations.PercentBounds | src/components/Recommendations.js:73-78 | With non-negative amounts, an increase is positive and a decrease lies in (0, 100] |
| Recommendations.SameMonthMeansNoChange | src/components/Recommendations.js:43-81 | When "last month" lands back in the current month, the message is "no expenses" or "unchanged" |
| Recommendations.LastMonth | src/components/Recommendations.js:43 | The result is a valid date: in January, the same day of December a year earlier; otherwise the same day of the previous month when that month has it, and else the current month's day pushed back by the previous month's length |
| Recommendations.LastMonthAcrossYearEnd | src/components/Recommendations.js:43-45 | In January, last month is December of the year before |
| Recommendations.LastMonthOfMarch31 | src/components/Recommendations.js:43-45 | On 31 March 2025 "last month" is 3 March 2025 |
| Recommendations.March31NeverReportsChange | src/components/Recommendations.js:40-81 | On 31 March 2025 the recommendation can only be "no expenses last month" or "unchanged", whatever the transactions |

## Left out

- Money is whole numbers. JavaScript floating point, `parseFloat` of fractional or exponent input and `toFixed(2)` are not modelled.
- TransactionForm.ParseAmount: reads only an optional minus sign and the leading digits. The amount box is a number input, which also accepts fractions and exponents: `parseFloat("1e3")` is 1000 where the model reads 1, and "12.5" is 12.5 where the model reads 12.
- The alert banner's and the recommendation card's message texts are presentation. The model returns which warning or recommendation applies, not its wording.
- The percentage is computed exactly, so the text of the increase and decrease messages is not produced.
- `toLocaleDateString` is fixed to the en-US `M/D/YYYY` form. Dates are calendar days with no time zone.
- `Date.now()` and `new Date()` become parameters (`now`, `today`).
- The transaction and settings stores, `deleteTransaction` and the alert store's wiring are not part of this model. Their effects are returned as data.
- The CSV Blob download and the profiler JSON download are browser I/O.
- Login, registration, the support page's fetch and all rendering (charts, tables, dialogs, navigation) have no reporting logic.
- The trend chart's sort in src/components/Analysis.js:191-195 parses each key back into a date. That parse depends on the JavaScript engine's date reading, and the sort is not modelled.
- Analysis.ExportCsv: its trend rows follow the order in which buckets first occur. The page sorts that same array in place while rendering the chart, so the file's rows can be in date order wherever the keys parse as dates. The order-free facts still hold: when a file exists, which rows it has, and that the `expenses` column is empty.
- Invalid dates and NaN amounts are not representable.
- Calendar.SetMonth: requires a valid date, so its contract says nothing about JavaScript's handling of invalid dates.
- Recommendations.Recommend: requires a valid clock date, for the same reason.
- Case folding in the classifier is ASCII only.
- Strings are sequences of characters, not UTF-16 code units.
- Calendar.FromDayNumber: only used to name the week start; its round trip with `DayNumber` is not stated.
- Analysis.BudgetData: limits are numbers here, so `limit || 0` is the limit itself. String limits typed into the settings inputs, which `Number(limit)` converts, are not modelled.
- Analysis.BucketKey: the `default` branch of `formatDateByTimeFrame` is the daily format, and the time frame is a closed type, so that branch has no separate case.
- SettingsPage.HandleSave: settings are exactly the three fields the page edits, so "the old settings with those fields replaced" is the form itself.
- The loading and error states of the recommendations card are presentation only.
