# Finance tracker bookkeeping rules, in Dafny

This project models the bookkeeping rules of a personal finance tracker, which
has two halves joined by a REST API.

- **The FastAPI server** stores categories (each typed `income`, `expense` or
  `saving`) and dated transactions.
  - It normalises every stored amount's sign to its category's type.
  - It merges partial updates into stored transactions.
  - It seeds ten default categories.
  - It builds a month summary from a per-category query.
- **The React client**:
  - rolls the transaction list up by month;
  - accumulates savings per category and per month;
  - derives budget rows with a three-way status;
  - totals the monthly rows;
  - draws a spending chart;
  - normalises the amount typed into the transaction form;
  - keeps its in-memory list in step with create, update and delete.

Amounts are exact integers (cents). A date is an already-split
`(year, month, day)`. A month key is the pair `(year, month)` under
lexicographic order.

Modules, one per source file or concept:

| module | file | models |
|---|---|---|
| `Common` | common.dfy | shared shapes: `Transaction`, `Category`, `SummaryCategory`, `MonthSummary`, `Result`, `Option`, `Abs` |
| `Sorting` | sorting.dfy | sorting by insertion into an ascending sequence; code-point string order |
| `Buckets` | buckets.dfy | per-key sums, and the first-occurrence order of a JS `Map`'s keys |
| `Calendar` | calendar.dfy | Gregorian month lengths, the month window, month keys, `MM/YYYY` labels |
| `Normalization` | normalization.dfy | the sign rule shared by the client and the server |
| `Lists` | lists.dfy | the order-keeping `Array.prototype.filter` |
| `Rollup` | rollup.dfy | `monthlyAggregates` in `App.tsx` |
| `Dashboard` | dashboard.dfy | `App.tsx` state: month navigation, list splices, derived filters |
| `Savings` | savings.dfy | `SavingsOverview.tsx` |
| `Budget` | budget.dfy | `BudgetOverview.tsx` |
| `Chart` | chart.dfy | `CategoryChart.tsx` |
| `Panel` | panel.dfy | `MonthlySummaryPanel.tsx` |
| `Form` | form.dfy | `AddTransactionForm.tsx` |
| `MonthSummaryService` | summary.dfy | `get_month_summary` in `app/services/summaries.py` |
| `Store` | store.dfy | the category, seeding and transaction routes, over an in-memory table |

Some of the code is imperative, and that code is modelled imperatively:

- `monthlyAggregates`, the savings accumulation, the totals `reduce`, the
  summary loop and the seeding loop are methods with loops. Each is proved
  against a specification function of its input.
- The dashboard and the form are classes whose methods change their fields.
- The server's database is the `Store.Database` class. Each table is a map
  from id to row, with a counter for the next id.

## Model

| member | source | states |
|---|---|---|
| Common.Abs | frontend/src/App.tsx:135 | `Math.abs`: the result is the argument or its negation, and is never negative |
| Normalization.NormalizeAmount | app/api/routes/transactions.py:26-30 | an expense category gives `-|v|`, any other type gives `|v|`; the magnitude is kept and the sign always agrees with the type |
| Normalization.NormalizeIdempotent | app/api/routes/transactions.py:26-30 | normalising an already-normalised amount for the same type leaves it unchanged |
| Normalization.NormalizeFixedPoints | frontend/src/components/AddTransactionForm.tsx:69-72 | normalisation leaves an amount alone exactly when its sign already agrees with the type |
| Normalization.NormalizeIgnoresSign | frontend/src/components/AddTransactionForm.tsx:69-72 | the sign the user typed makes no difference to the stored amount |
| Sorting.Insert | frontend/src/App.tsx:143-144 | inserting into the sorted list adds exactly one occurrence of the element |
| Sorting.InsertAscending | frontend/src/App.tsx:143-144 | inserting a new key into an ascending list keeps it strictly ascending |
| Sorting.AscendingUnique | frontend/src/App.tsx:143-144 | two strictly ascending lists with the same elements are equal, so a sort's result is determined by its input set |
| Sorting.StrLessIrreflexive | app/api/routes/categories.py:26 | no name sorts before itself |
| Sorting.StrLessTransitive | app/api/routes/categories.py:26 | name order is transitive |
| Sorting.StrLessTotal | app/api/routes/categories.py:26 | of two different names, one sorts first |
| Sorting.StrLessIsStrictTotalOrder | app/api/routes/categories.py:26 | `ORDER BY name` is a strict total order on names |
| Buckets.FirstOccurrences | frontend/src/components/SavingsOverview.tsx:19-30 | a `Map`'s key order: every key that was set appears once, and nothing else appears |
| Buckets.Keys | frontend/src/components/SavingsOverview.tsx:26 | the key of each element, position for position |
| Buckets.FirstOccurrencesSnoc | frontend/src/components/SavingsOverview.tsx:27-30 | setting a new key appends it to the key order; setting an old key leaves the order alone |
| Buckets.KeySumSnoc | frontend/src/components/SavingsOverview.tsx:29 | one more element adds its value to its own key's bucket only |
| Buckets.TotalSnoc | frontend/src/components/SavingsOverview.tsx:41-44 | one more element adds its value to the grand total |
| Buckets.SumOverKeysSnoc | frontend/src/components/SavingsOverview.tsx:41-44 | summing the buckets of distinct keys grows by a new element's value exactly when its key is among them |
| Buckets.SumOverDistinctKeys | frontend/src/components/SavingsOverview.tsx:41-44 | the buckets of a duplicate-free key list covering every element sum to the grand total |
| Buckets.SumOfEmpty | frontend/src/components/SavingsOverview.tsx:41-44 | with no elements, every bucket sum is zero |
| Buckets.KeySumNonNegative | frontend/src/components/SavingsOverview.tsx:29-38 | buckets of non-negative values are non-negative |
| Buckets.KeySumAtLeast | frontend/src/components/SavingsOverview.tsx:29-38 | with non-negative values, an element's bucket holds at least that element's value |
| Buckets.KeySumAbsent | frontend/src/App.tsx:128-130 | a key no element has gets an empty bucket |
| Calendar.DaysInMonth | app/services/summaries.py:13 | `monthrange`'s month length: 28 to 31 days, 29 exactly for February of a Gregorian leap year, 30 exactly for April, June, September and November |
| Calendar.YearLength | app/services/summaries.py:13 | the twelve month lengths add up to 366 in a leap year and 365 otherwise |
| Calendar.WindowIsMonth | app/services/summaries.py:12-40 | a valid date lies between the first and last day of the month exactly when it is in that month |
| Calendar.KeyBeforeIsStrictTotalOrder | frontend/src/App.tsx:144 | the month-key order is a strict total order |
| Calendar.DigitChar | frontend/src/App.tsx:126-127 | a digit value is written as a digit character |
| Calendar.NatText | frontend/src/App.tsx:126-127 | `String(n)` of a natural number is a non-empty run of digits |
| Calendar.NatTextRoundTrip | frontend/src/App.tsx:126-127 | reading back the digits of `String(n)` gives `n` |
| Calendar.IntTextRoundTrip | frontend/src/App.tsx:127 | reading back `String(y)` of any year gives `y` |
| Calendar.MonthTextRoundTrip | frontend/src/App.tsx:127 | `padStart(2, "0")` of a month is two digits that read back as the month |
| Calendar.Label | frontend/src/App.tsx:127 | for a month 1-12 the label starts with two digit characters that read back as the month (the zero-padded month), then a slash, then the year's text |
| Calendar.LabelRoundTrip | frontend/src/App.tsx:127 | the `MM/YYYY` label has the slash third and parses back to its month key |
| Calendar.LabelInjective | frontend/src/App.tsx:127 | different months never share a label |
| Lists.Filter | frontend/src/App.tsx:100 | `filter` keeps only elements that pass, each drawn from the input, and keeps every element that passes |
| Lists.FilterMultiset | frontend/src/App.tsx:100 | a kept element keeps its multiplicity; a dropped one keeps none |
| Lists.FilterAppend | frontend/src/App.tsx:100 | filtering distributes over concatenation, so the input order is kept |
| Lists.FilterExtremes | frontend/src/App.tsx:100 | when every element passes, the list is unchanged; when none passes, it is empty |
| Rollup.MonthsOf | frontend/src/App.tsx:143-144 | the month keys present, strictly ascending, one per month that has a transaction |
| Rollup.HasMonthSnoc | frontend/src/App.tsx:124-130 | one more transaction adds exactly its own month to the months present |
| Rollup.InsertMonth | frontend/src/App.tsx:144 | inserting a new month into an ascending month list keeps it ascending and adds just that month |
| Rollup.MonthListUnique | frontend/src/App.tsx:143-145 | the ascending list of a set of months is unique |
| Rollup.RowForSnoc | frontend/src/App.tsx:131-140 | one more transaction adds its contribution to its month's row |
| Rollup.RowFor | frontend/src/App.tsx:131-140 | the row of a month carries that month's label, and its expense and saving figures are never negative |
| Rollup.RowForAbsent | frontend/src/App.tsx:129 | a month without transactions has the all-zero row with its label |
| Rollup.MonthlyAggregates | frontend/src/App.tsx:118-146 | one row per month present, strictly ascending by month, each equal to that month's fold; no transactions gives no rows |
| Rollup.ListingIsRollup | frontend/src/App.tsx:143-145 | sorting the filled map's keys gives exactly the months present, and each sorted key's entry is that month's row |
| Rollup.GroupByMonth | frontend/src/App.tsx:124-141 | the `forEach` fills one entry per month present, keys unrepeated, each entry the fold of that month's transactions |
| Rollup.AddToMonth | frontend/src/App.tsx:125-140 | one pass of the `forEach` creates the month's entry on first sight and adds the transaction to it, keeping keys unrepeated and every entry the fold of its month's transactions so far |
| Rollup.SortMonths | frontend/src/App.tsx:143-144 | the `sort` orders the distinct keys strictly ascending and keeps exactly those keys |
| Rollup.GroupsStep | frontend/src/App.tsx:128-140 | one `forEach` step keeps the map equal to the per-month folds of the transactions seen so far |
| Rollup.AddTransaction | frontend/src/App.tsx:131-140 | the `+=` updates add the transaction's income, expense magnitude, saving magnitude and net change to its entry |
| Rollup.MonthsDistinct | frontend/src/App.tsx:124-130 | every transaction's month is in the rollup, and no month is there twice |
| Rollup.GroupLabel | frontend/src/App.tsx:126-127 | a transaction's row is labelled `MM/YYYY` of its month, and two transactions' rows carry the same label exactly when they fall in the same month |
| Rollup.ContributionNet | frontend/src/App.tsx:134-140 | a correctly signed transaction changes `net` by its income part minus twice its expense magnitude plus its saving magnitude |
| Rollup.NetDoubleCountsExpenses | frontend/src/App.tsx:136-140 | with amounts signed by type, `net = income - 2 * expenses + savings`: each expense is subtracted twice, and savings are added |
| Dashboard.ShiftMonth | frontend/src/App.tsx:105-116 | month 0 becomes December of the year before and month 13 January of the year after; otherwise the year stays; for a step of one from a valid month the result is a valid month, exactly one month away |
| Dashboard.ReplaceById | frontend/src/App.tsx:89-91 | same length and order, with every entry whose id matches replaced and every other entry kept |
| Dashboard.RemoveById | frontend/src/App.tsx:100 | no entry with the id is left, and every other entry stays |
| Dashboard.RemoveAbsentId | frontend/src/App.tsx:100 | removing an id nobody has leaves the list unchanged |
| Dashboard.RemoveByIdAppend | frontend/src/App.tsx:100 | removal works piecewise, so the order of the remaining entries is kept |
| Dashboard.ReplaceAbsentId | frontend/src/App.tsx:89-91 | replacing an id nobody has leaves the list unchanged |
| Dashboard.ExpenseCategories | frontend/src/App.tsx:148-151 | no summary gives no categories; otherwise exactly the summary's categories that are not income |
| Dashboard.SavingTransactions | frontend/src/App.tsx:153-156 | exactly the transactions of saving type |
| Dashboard.Dashboard.constructor | frontend/src/App.tsx:25-36 | the view opens on the current month with no transactions, no summary and nothing being edited |
| Dashboard.Dashboard.ChangeMonth | frontend/src/App.tsx:105-116 | the selected month moves exactly one month forward or back and stays valid |
| Dashboard.Dashboard.HandleCreate | frontend/src/App.tsx:67-77 | a created transaction is put in front of the list; the summary is replaced only when the reload succeeds too |
| Dashboard.Dashboard.HandleUpdate | frontend/src/App.tsx:79-95 | the updated transaction replaces the entries with its id; the summary is replaced and editing is cleared only when every step succeeds |
| Dashboard.Dashboard.HandleDelete | frontend/src/App.tsx:97-103 | a declined confirmation changes nothing; after a confirmed delete, exactly the entries with that id are gone |
| Dashboard.Dashboard.BeginEdit | frontend/src/App.tsx:186 | the chosen transaction becomes the one being edited |
| Dashboard.Dashboard.CancelEdit | frontend/src/App.tsx:179 | nothing is being edited |
| Savings.NamesStep | frontend/src/components/SavingsOverview.tsx:26-30 | one step keeps the per-name map and its key order equal to the buckets of the transactions seen so far |
| Savings.NameValuesStep | frontend/src/components/SavingsOverview.tsx:29 | each name's value after one step is the sum of magnitudes under that name so far |
| Savings.MonthsStep | frontend/src/components/SavingsOverview.tsx:32-38 | one step keeps the per-month map and its key order equal to the buckets of the transactions seen so far |
| Savings.MonthValuesStep | frontend/src/components/SavingsOverview.tsx:35-38 | each month's entry after one step carries its label and the sum of magnitudes in that month so far |
| Savings.SavingsOverview | frontend/src/components/SavingsOverview.tsx:18-65 | the empty state shows exactly when not loading and there are no transactions; otherwise the total is the sum of all magnitudes, the breakdown is per name in first-occurrence order, and the monthly data is per month, ascending |
| Savings.Accumulate | frontend/src/components/SavingsOverview.tsx:25-39 | the `forEach` leaves both maps equal to the per-name and per-month buckets of all transactions |
| Savings.AddTransaction | frontend/src/components/SavingsOverview.tsx:26-38 | one `forEach` step keeps both maps in step with the transactions seen so far |
| Savings.AddToNameMap | frontend/src/components/SavingsOverview.tsx:27-30 | `set(name, (get(name) ?? 0) + |amount|)` on the map and its key order |
| Savings.AddToMonthMap | frontend/src/components/SavingsOverview.tsx:35-38 | creating the month's entry when missing, then adding `|amount|` to it |
| Savings.TotalSavedIsTotal | frontend/src/components/SavingsOverview.tsx:41-44 | reducing the per-name values gives the sum of all magnitudes |
| Savings.SumValuesOfBuckets | frontend/src/components/SavingsOverview.tsx:41-44 | reducing a map of buckets is summing the buckets |
| Savings.MonthlySumsToTotal | frontend/src/components/SavingsOverview.tsx:38-54 | the monthly amounts add up to the total saved |
| Savings.PointsTotalOver | frontend/src/components/SavingsOverview.tsx:52-54 | adding up the monthly points is summing the month buckets |
| Savings.Names | frontend/src/components/SavingsOverview.tsx:26-30 | the breakdown's names: every transaction's bucket name appears, every name listed is some transaction's bucket name, and none appears twice |
| Savings.NamesFromKeys | frontend/src/components/SavingsOverview.tsx:26-30 | a name kept from the transactions' bucket names is the bucket name of some transaction |
| Savings.Breakdown | frontend/src/components/SavingsOverview.tsx:46-50 | one entry per name, in first-seen order, names distinct, each amount the sum of its bucket's magnitudes |
| Savings.MonthlyData | frontend/src/components/SavingsOverview.tsx:52-54 | one point per month present in ascending month order, labelled with its month, each amount the sum of that month's magnitudes |
| Savings.ListingIsBreakdown | frontend/src/components/SavingsOverview.tsx:46-50 | listing the filled name map in insertion order gives the breakdown |
| Savings.ListingIsMonthly | frontend/src/components/SavingsOverview.tsx:52-54 | listing the filled month map in sorted key order gives the monthly trend |
| Savings.AmountsNonNegative | frontend/src/components/SavingsOverview.tsx:29-38 | every breakdown amount and every monthly amount is non-negative |
| Savings.MissingCategoryBucket | frontend/src/components/SavingsOverview.tsx:26 | a transaction without a category is filed under "Savings", that name is listed, and its bucket holds at least the transaction's magnitude |
| Budget.BudgetRow | frontend/src/components/BudgetOverview.tsx:21-30 | spent and budget become their magnitudes, `remaining = budget - spent`, and every other field is copied |
| Budget.BudgetRows | frontend/src/components/BudgetOverview.tsx:21 | one row per input category, in input order |
| Budget.IsOverBudget | frontend/src/components/BudgetOverview.tsx:44-46 | a row flagged over budget has the "Over budget" status and has spent something; for a non-negative budget the flag and that status agree exactly |
| Budget.StatusOf | frontend/src/components/BudgetOverview.tsx:85-90 | "No budget" exactly when the budget is zero; otherwise "Over budget" exactly when spent exceeds budget, and "On track" in the remaining case |
| Budget.BudgetOverview | frontend/src/components/BudgetOverview.tsx:21-46 | the empty state shows exactly when not loading and there are no categories; otherwise the rows are derived and the over-budget list is exactly the rows with a positive budget below their spending, in row order and with their multiplicity (the warning shows its length) |
| Budget.OverBudgetIsStatus | frontend/src/components/BudgetOverview.tsx:44-90 | a derived row is in the over-budget list exactly when its status is "Over budget" |
| Budget.RemainingNegativeIffOverspent | frontend/src/components/BudgetOverview.tsx:28-96 | `remaining` is shown as negative exactly when spending exceeds the budget |
| Budget.NoBudgetNeverOver | frontend/src/components/BudgetOverview.tsx:44-87 | a category with no budget is never over budget |
| Chart.ChartRowOf | frontend/src/components/CategoryChart.tsx:27-31 | name and budget are copied and spent becomes its magnitude |
| Chart.ChartRows | frontend/src/components/CategoryChart.tsx:27-31 | one bar per category, in order |
| Chart.CategoryChart | frontend/src/components/CategoryChart.tsx:15-31 | "No data" exactly for an empty list; otherwise the bars of the non-income categories, in order, none of them negative |
| Chart.OnlyIncomeDrawsNothing | frontend/src/components/CategoryChart.tsx:16-26 | a non-empty list of only income categories skips the empty state and draws no bars |
| Chart.ChartKeepsOrder | frontend/src/components/CategoryChart.tsx:25-31 | the chart of two lists joined is the two charts joined |
| Chart.ChartRowsAppend | frontend/src/components/CategoryChart.tsx:27-31 | mapping distributes over concatenation |
| Panel.ComputeTotals | frontend/src/components/MonthlySummaryPanel.tsx:33-42 | each total is the sum of that field over all rows, starting from zero |
| Panel.MonthlySummaryPanel | frontend/src/components/MonthlySummaryPanel.tsx:23-42 | the empty state shows exactly when not loading and there are no rows; otherwise the rows and their totals |
| Panel.TotalsNonNegative | frontend/src/components/MonthlySummaryPanel.tsx:35-37 | rows with non-negative expenses and savings have non-negative totals |
| Panel.RollupTotalsNonNegative | frontend/src/components/MonthlySummaryPanel.tsx:33-42 | over the rollup's rows, total expenses and total savings are non-negative |
| Panel.NetClass | frontend/src/components/MonthlySummaryPanel.tsx:73 | the net is classed "positive" exactly when it is at least zero, and "negative" otherwise |
| Form.Find | frontend/src/components/AddTransactionForm.tsx:36-39 | `find` gives nothing exactly when no category has the id, and otherwise the first category with it |
| Form.SelectedKind | frontend/src/components/AddTransactionForm.tsx:36-72 | the type of the first listed category with the chosen id; no type when none has it |
| Form.DisplayAmount | frontend/src/components/AddTransactionForm.tsx:44-48 | an expense is shown as its magnitude; any other amount is shown unchanged |
| Form.RequestFor | frontend/src/components/AddTransactionForm.tsx:83-87 | an update of the edited entry's id exactly when editing, else a creation; the payload is sent as built |
| Form.OptionalText | frontend/src/components/AddTransactionForm.tsx:78 | an empty description is sent as absent, any other as itself |
| Form.TransactionForm.constructor | frontend/src/components/AddTransactionForm.tsx:29-34 | the form opens on today's date with empty fields, not loading |
| Form.TransactionForm.SyncWithEditing | frontend/src/components/AddTransactionForm.tsx:41-57 | editing a transaction fills the form with its date, displayed amount, category and description; clearing the edit resets the fields to empty and the date to today |
| Form.TransactionForm.Submit | frontend/src/components/AddTransactionForm.tsx:59-91 | nothing happens when the amount or category is empty or the amount is not a number; an invalid date stops the submission; otherwise the normalised payload goes to update when editing and to create otherwise, and loading ends up false either way |
| Form.EditRoundTrip | frontend/src/components/AddTransactionForm.tsx:44-72 | a correctly signed transaction, shown for editing and submitted unchanged, is sent with its stored amount |
| Form.EditUnlistedExpenseFlipsSign | frontend/src/components/AddTransactionForm.tsx:36-72 | when an expense's category is missing from the form's list, submitting it unchanged flips its sign |
| Form.DescriptionRoundTrip | frontend/src/components/AddTransactionForm.tsx:50-78 | a description shown and submitted unchanged comes back as itself, and an empty one as absent |
| MonthSummaryService.EntryOf | app/services/summaries.py:54-63 | each entry copies the row's id, name, type, spent and budget, with `remaining = budget - spent` |
| MonthSummaryService.GetMonthSummary | app/services/summaries.py:11-74 | an invalid year or month fails with 500; otherwise it echoes year and month, queries the month's first to last day, sums income rows into `income` and all other rows into `expenses`, sets `net = income + expenses`, and lists one entry per row in row order |
| MonthSummaryService.IncomeExpensePartition | app/services/summaries.py:48-53 | income and expenses together are the total of all rows: every row goes into exactly one of them |
| MonthSummaryService.TotalsSigns | app/services/summaries.py:48-65 | with correctly signed income and expense rows, income is non-negative and expenses non-positive |
| Store.SeedPlan | app/api/routes/setup.py:29-39 | a default name is created exactly when it was not present and skipped exactly when it was; every default lands in one of the two lists |
| Store.SeedIdempotent | app/api/routes/setup.py:32-41 | once every default name is present, seeding creates nothing and skips all defaults in order |
| Store.DefaultsDistinct | app/api/routes/setup.py:16-27 | the ten default names are pairwise distinct |
| Store.TargetCategory | app/api/routes/transactions.py:71 | no target exactly when the category is sent as null; the sent category if sent, else the row's own |
| Store.Assign | app/api/routes/transactions.py:82-85 | writing the sent fields fails the commit (500) exactly when the date, amount or category is sent as null; a sent description is written, a null one clears it, an absent one is kept |
| Store.ApplyPatch | app/api/routes/transactions.py:69-85 | 400 exactly when the amount or category is sent and the target category is missing; a sent amount is normalised for the target category (the new one if sent, else the current one); a category sent alone re-normalises the current amount; a patch without either keeps amount and category; the date and description follow the patch (kept when absent, cleared when the description is null) |
| Store.PatchKeepsSign | app/api/routes/transactions.py:70-83 | an accepted update leaves the row pointing at an existing category with the sign that category's type demands |
| Store.NewerFirstIsStrictTotalOrder | app/api/routes/transactions.py:50 | `ORDER BY date DESC, id DESC` is a strict total order on rows |
| Store.NamesOfInsert | app/api/routes/categories.py:17-19 | a new row under a fresh id adds exactly its name |
| Store.DefaultNamesSnoc | app/api/routes/setup.py:32 | one more default adds its name |
| Store.SeedPlanSnoc | app/api/routes/setup.py:33-39 | one more default goes to `skipped` when its name was present and to `created` otherwise |
| Store.FreshDefault | app/api/routes/setup.py:16-27 | in a list of distinct names, no row repeats an earlier row's name |
| Store.Database.CategoryNamed | app/api/routes/categories.py:14 | a category with the name exists exactly when the name is in the table |
| Store.Database.CreateCategory | app/api/routes/categories.py:12-21 | a duplicate name fails with 400 and changes nothing; otherwise one row with the given name and type is added under a fresh id, and names stay unique |
| Store.Database.AddCategory | app/api/routes/categories.py:17-19 | inserting a new name under the next id keeps the table's invariant and adds just that name |
| Store.Database.ListCategories | app/api/routes/categories.py:24-26 | every row exactly once, strictly ascending by name |
| Store.Database.InsertCategory | app/api/routes/categories.py:26 | one row joins the listing at its place by name |
| Store.Database.NameAbsent | app/api/routes/categories.py:14-16 | a name not in the table is carried by no row |
| Store.Database.SeedDefaultCategories | app/api/routes/setup.py:29-42 | `created` and `skipped` are the seed plan for the names present before; existing rows are untouched; each new row is a default, with its own type; afterwards every default name is present |
| Store.Database.Seed | app/api/routes/setup.py:29-42 | the seeding loop over rows with distinct names: the created and skipped lists follow the seed plan, existing rows are untouched, each new row is one of the given rows, and afterwards every given name is present |
| Store.Database.SeedOne | app/api/routes/setup.py:33-39 | one pass of the seeding loop keeps the seeding invariant for one more default |
| Store.Database.CreateTransaction | app/api/routes/transactions.py:19-45 | an unknown category fails with 400 and changes nothing; otherwise one row is stored under a fresh id, with its amount normalised for the category's type |
| Store.Database.GetTransaction | app/api/routes/transactions.py:53-58 | 404 exactly for an unknown id, otherwise the stored row |
| Store.Database.UpdateTransaction | app/api/routes/transactions.py:61-87 | 404 for an unknown id; a refused patch changes nothing; an accepted one replaces just that row with the merged row; signs stay consistent with categories |
| Store.Database.DeleteTransaction | app/api/routes/transactions.py:90-97 | 404 for an unknown id; otherwise 204, and exactly that row is gone |
| Store.Database.ListTransactions | app/api/routes/transactions.py:48-50 | every row exactly once, newest date first and, within a date, larger id first |
| Store.Database.InsertTransaction | app/api/routes/transactions.py:50 | one row joins the listing at its place |

## Left out

- The HTTP client wrappers in `frontend/src/api/finance.ts` are network I/O. Each handler instead receives the outcome of its call as a parameter: the created or updated transaction or `None`, whether the delete succeeded, and the reloaded summary or `None`.
- The concurrent initial load (`Promise.all` in `loadAll`, `App.tsx:42-60`) and races between stale responses are left out, because they are asynchronous concurrency.
- The loading and error flags of `App.tsx` are left out, because they only drive rendering.
- JavaScript date parsing (`new Date(...)`, `toISOString`, `getMonth`) depends on the time zone. Dates are modelled already split into `(year, month, day)`. The clock (`new Date()` for today and the current month) is a parameter.
- Rollup.MonthlyAggregates and Savings.SavingsOverview: the source sorts the `YYYY-MM` strings. That agrees with the `(year, month)` pair order used here only for four-digit years.
- The JavaScript and Python floating-point arithmetic (`Number`, `float(...)` in `summaries.py`) is not modelled. Amounts are exact integer cents; the column is `Numeric(12, 2)`.
- Form.TransactionForm.Submit: the amount text is modelled by its parse result: blank, a number, or not a number (`Number.isNaN`). An invalid date makes `new Date(date).toISOString()` throw; the model reports this as `DateRejected`. Whether the awaited callback fails is a parameter.
- `window.confirm` is a parameter of Dashboard.Dashboard.HandleDelete.
- Currency and locale formatting, and all JSX and chart rendering, are presentation. This covers `SummaryCards.tsx`, `TransactionsTable.tsx` and `Layout.tsx`.
- The SQL queries, joins, sessions and commits are not modelled. The server's tables are in-memory maps from id to row. The per-category join of `get_month_summary` is an input function from the date window to its rows.
- The unused `total_amount` query (`summaries.py:16-21`) is left out.
- MonthSummaryService.GetMonthSummary: Python's `date(year, month, 1)` raising on a year outside 1..9999 or a month outside 1..12 is modelled as a 500 result.
- Store.Database.ListCategories: `ORDER BY name` uses the database's collation. The model uses code-point order.
- Store.ApplyPatch: the update schema `TransactionUpdate` is imported by `transactions.py` but is not defined in `app/schemas/transaction.py`. The patch is modelled as the four fields of a transaction, each left out, sent as null, or sent with a value.
- Store.ApplyPatch: `_get_category` with a null id finds no row, so it answers 400.
- A commit that fails because of a null column rolls back, so nothing changes. The model answers 500 and leaves the table unchanged.
- `app/api/routes/budgets.py`, `app/api/routes/summaries.py`, `app/main.py` and the configuration are not part of this model. They are thin routing or an unconstrained insert and list.
- The `slice(0, 50)` in `TransactionsTable.tsx` is presentation.
- Store.Database.ListCategories and Store.Database.ListTransactions: the order of equal keys is not modelled. Names are unique and ids are distinct, so no two rows have equal keys.

## Notes on the source

- The monthly `net` in `App.tsx:136,140` adds every amount and also subtracts each expense's magnitude. When amounts carry the sign of their type, an expense is therefore subtracted twice and a saving is added. The model computes exactly this, and Rollup.NetDoubleCountsExpenses states it as `net = income - 2 * expenses + savings`.
- The month summary's `expenses` (`summaries.py:50-53`) includes every row that is not income, saving rows among them.
