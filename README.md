# Personal finance tracker: a verified model of its reporting core

This project models the reporting and bookkeeping core of a Django personal
finance tracker in Dafny. Users record transactions with a type (income,
expense, saving, investment, and also debt or loan), a category, an amount
and a date. The application summarises these per type, groups expenses per
category for a pie chart and a radar chart, compares monthly budgets with
actual spending, buckets transactions per month for an income-vs-expense
chart, and imports transactions from an uploaded Excel sheet.

Amounts are `DecimalField(decimal_places=2)` values. The model holds them, and
the DuckDB amount columns, as integer cents (see "Left out" for the floats
pandas actually holds). SQL `NULL` and pandas `NaN` become `Option<int>`.
Saving a `Transaction` converts each value to its column's type, as Django
does: text to a decimal for `amount`, and `str()` of any non-text value
(so "nan" for an empty spreadsheet cell) for the text columns. Python
dicts filled in a loop keep their keys in first-insertion order; they are
modelled as a sequence of distinct keys with a map, or by `Basics.Distinct`.
One sorted group-by (`Grouping.GroupSum`) stands for pandas'
`groupby(...).sum()` and for SQL `GROUP BY ... ORDER BY`.

Modules, one per source file or concern:

- `Basics`: Option/Result, SQL `SUM` and `COALESCE` over nullable values, and first-occurrence de-duplication.
- `Text`: decimal rendering, `:.2f` amounts, ASCII `lower()`/`title()`, and Python string order.
- `Grouping`: the sorted group-by-sum.
- `Models`: core/models.py.
- `AnalyticStore`: the rows of the DuckDB `income` and `user_expenses` tables the dashboard queries.
- `Summaries`: core/views/dashboard.py and the summary of core/views.py.
- `Categories`: the pie chart of core/views.py and core/charts/expenses_breakdown_category.py.
- `Figures`: a Plotly figure as its list of bar traces.
- `BudgetCharts`: core/charts/budget_vs_actual_expenses.py.
- `IncomeChart`: core/charts/income_expenses.py.
- `Upload`: core/views/upload.py.

Three things the code does that a reader of its design would not expect:

- In core/views/dashboard.py the per-type summary built from the ORM (lines 18-21) is overwritten at lines 56-61 by the figures of the DuckDB query. That query is for the user `lydia`, month 1 of 2025.
- The same file imports `generate_sunburst_chart` and `generate_detailed_breakdown_table` from core/charts/expenses_breakdown_category.py, which defines only `generate_radar_chart`. The sunburst hierarchy and the breakdown table are therefore not part of this model.
- The upload view passes a keyword the model does not have (see Findings).

## Model

| member | source | states |
|---|---|---|
| Basics.SqlSum | core/views/dashboard.py:33-40 | SQL `SUM` is NULL exactly when every term is NULL, and otherwise the sum of the non-NULL terms |
| Basics.CoalesceSqlSum | core/views/dashboard.py:46-48 | `COALESCE(SUM(x), 0)` equals the sum of the present terms |
| Basics.DistinctElements | core/views.py:26-28 | dict keys filled in a loop hold each inserted key once, and exactly the keys inserted |
| Basics.DistinctFirstOccurrenceOrder | core/charts/expenses_breakdown_category.py:13-17 | dict keys come out in the order of their first insertion |
| Summaries.SummarizeTransactions | core/views/dashboard.py:113-128 | the result is Ok exactly when every type is one of the six keys; then it has exactly the six keys, each holding the sum of the amounts of its type (0 when absent); otherwise the error names a type that occurs and is not a key (the `KeyError`) |
| Summaries.TypeTotalAppend | core/views/dashboard.py:125-126 | the per-type sum over two runs of transactions is the sum of the two per-type sums |
| Summaries.TypeTotalOrderIndependent | core/views/dashboard.py:125-126 | the per-type sums depend only on the multiset of transactions, not on their order |
| Summaries.SummaryAddsUp | core/views/dashboard.py:116-126 | when every type is a key, the six per-type totals add up to the total of all amounts |
| Summaries.TypeTotalAbsent | core/views/dashboard.py:116-123 | a type with no transaction keeps its starting 0 |
| Summaries.OverwriteDefaults | core/views/dashboard.py:18-21 | the loop's summary is the four zero defaults with each per-type total written over them in order |
| Summaries.OverlayDistinct | core/views/dashboard.py:20-21 | with distinct types, a type that has a total ends with it, the other default keys keep their value, and no other key appears |
| Summaries.TotalsByTypeRows | core/views/dashboard.py:18 | `values('type').annotate(Sum('amount'))` has one row per type present, holding that type's sum |
| Summaries.DashboardDefaultsOverwritten | core/views/dashboard.py:18-21 | after the loop every key is one of the four defaults or a present type, and holds that type's total (0 for a default type without transactions) |
| Summaries.ContextSummary | core/views.py:40-52 | the context summary has exactly the keys income, expense, saving and investment |
| Summaries.ContextSummaryIsTypeTotals | core/views.py:40-52 | each of the four keys holds its type's total, 0 when absent (`.get(key, 0)`), and debt and loan are not shown |
| Summaries.SummaryQuery | core/views/dashboard.py:30-53 | the query always returns a row; income is the sum of `income_after_tax + additional_income` over the user's rows of the period (a NULL term ignored), expense the sum of the actual amounts, and saving their difference |
| Summaries.DashboardSummary | core/views/dashboard.py:56-61 | the summary has the four keys, investment is always 0, and the other three are the row's figures, or 0 when no row came back |
| Summaries.SavingCanBeNegative | core/views/dashboard.py:48 | saving is not clamped: income 1000.00 against expenses 1500.00 gives -500.00 |
| Categories.CategoryValues | core/views.py:28-29 | the values list has one entry per label, the total of that label |
| Categories.ExpenseCategoryListMembers | core/views.py:24-26 | a category is inserted exactly when some expense transaction has it |
| Categories.ExpenseCategoriesProperties | core/views.py:24-28 | the labels are distinct and are exactly the categories of the expense transactions; other types never contribute |
| Categories.LabelsInFirstOccurrenceOrder | core/views.py:26-28 | of two labels, the earlier one has an expense before any expense of the later one |
| Categories.CategoryTotalAbsent | core/views.py:26 | a category no expense has totals 0 |
| Categories.CategoryValuesSumToExpenseTotal | core/views.py:22-29 | the values sum to the total of all expense amounts |
| Categories.AccumulateCategoryTotals | core/views.py:22-29 | the loop yields the labels in first-occurrence order and, for each, its expense total; the values add up to the expense total |
| Categories.Expenses | core/charts/expenses_breakdown_category.py:7 | the filtered transactions are all expenses |
| Categories.ExpensesKeepCategories | core/charts/expenses_breakdown_category.py:7-15 | filtering to expenses first changes neither the labels nor the totals, and leaves nothing exactly when there is no expense |
| Categories.GenerateRadarChart | core/charts/expenses_breakdown_category.py:5-22 | the placeholder is returned exactly when there is no expense; otherwise the labels are the expense categories in first-occurrence order, each value is its category total, and the first label and value are appended again to close the loop |
| Models.TransactionAmountBound | core/models.py:21 | an amount of 10 digits with 2 decimals is one below 10^8 in absolute value, i.e. has at most 8 integer digits |
| Models.GoalAmountsHoldTransactionAmounts | core/models.py:40-41 | every transaction amount fits a goal amount of 12 digits |
| Models.NewGoal | core/models.py:41 | a goal created without `current_amount` starts at 0 |
| Models.NewTransaction | core/models.py:18-25 | an unknown keyword fails with a TypeError, and only then; a row is created exactly when the keywords are known, `amount` is given and converts to a decimal, and the text columns convert; it is owned by the user, has today's date (`auto_now_add`), the converted amount, type and category, and defaults `type` and `category` "", `is_recurring` False, `household_type` "single" and `description` NULL |
| Models.SaveConvertsValues | core/models.py:19-21 | the text "5000" is stored as the amount 5000.00 and a NaN category as "nan"; a non-decimal text or NaN amount is refused |
| Models.ChoicesNotEnforced | core/models.py:11-16 | types outside the declared choices, such as debt and loan, are stored as given |
| Models.TransactionTable.Create | core/models.py:18-25 | `objects.create` appends the new row when the model accepts the keywords, and changes nothing otherwise |
| Models.DisplayRoundTrip | core/models.py:27-28 | `str(tx)` determines username, type, amount and category when none of the texts contains a bar |
| Models.DisplayExample | core/models.py:27-28 | the model test's transaction renders exactly as that test expects: testuser, income, the amount as 5000.00 and salary_after_tax, separated by a bar between spaces |
| Text.FormatCentsRoundTrip | core/models.py:28 | the `:.2f` rendering of an amount parses back to the same amount |
| Text.TitleLetters | core/charts/budget_vs_actual_expenses.py:66 | `title()` keeps the length and every non-letter; it keeps each letter up to case, upper-casing exactly the letters at the start or after a non-letter |
| Text.DecimalTextOfFormatCents | core/models.py:21 | `Decimal` reads every two-decimal amount text back as that amount |
| Text.DecimalTextOfWhole | core/views/upload.py:26 | a whole number written in decimal reads as that many units |
| Grouping.GroupSumProperties | core/charts/budget_vs_actual_expenses.py:50 | the group-by result is sorted by key, has exactly the input's keys, and each cell is the sum of the column over the rows with that key |
| Grouping.GroupSumIdempotent | core/charts/budget_vs_actual_expenses.py:50 | grouping a grouped table again changes nothing |
| Grouping.SortedUniqueProperties | core/charts/budget_vs_actual_expenses.py:56 | `sorted(unique(...))` is strictly increasing and holds exactly the input's values |
| BudgetCharts.QueryInputs | core/charts/budget_vs_actual_expenses.py:18-23 | each selected row contributes a budget, an actual amount and a non-negative count of non-NULL actuals |
| BudgetCharts.QueryInputSums | core/charts/budget_vs_actual_expenses.py:18-24 | the grouped budget, actual and count columns are the sums over the user's rows of that year, month and category |
| BudgetCharts.BudgetQueryRows | core/charts/budget_vs_actual_expenses.py:14-26 | the query returns one row per selected (month, category): every selected expense row's month and category appear, rows are strictly ordered by month then category, each has a budget term behind it, its budget is the sum of the budgets and its actual amount the SQL `SUM` of the actual amounts |
| BudgetCharts.BudgetQueryEmptyIff | core/charts/budget_vs_actual_expenses.py:14-33 | the result is empty, so the placeholder is shown, exactly when the user has no expense row in the year |
| BudgetCharts.AbsentProperties | core/charts/budget_vs_actual_expenses.py:43-44 | a column is reported missing exactly when it is required and absent, in the order of the required list |
| BudgetCharts.MissingMessageExample | core/charts/budget_vs_actual_expenses.py:44-47 | a frame with only month and category reports budget_amount and actual_amount, printed as a Python list |
| BudgetCharts.QueryFrameComplete | core/charts/budget_vs_actual_expenses.py:14-19 | the frame the query returns never lacks a required column |
| BudgetCharts.FrameToRows | core/charts/budget_vs_actual_expenses.py:50 | each frame row becomes one grouping row with two value columns |
| BudgetCharts.GroupFrameProperties | core/charts/budget_vs_actual_expenses.py:50 | the regrouped frame is sorted, has the frame's keys, and sums budget and actual per (month, category) |
| BudgetCharts.RegroupQueryRows | core/charts/budget_vs_actual_expenses.py:24-25 | regrouping the query's already grouped and ordered rows changes nothing |
| BudgetCharts.CategoriesAndMonths | core/charts/budget_vs_actual_expenses.py:55-56 | the categories are distinct and are those of the grouped rows; the months are strictly increasing and are those of the grouped rows |
| BudgetCharts.RowsOf | core/charts/budget_vs_actual_expenses.py:60 | the mask keeps exactly the grouped rows of that category: each kept row has it and comes from the frame, and every frame row that has it is kept |
| BudgetCharts.RowsOfSorted | core/charts/budget_vs_actual_expenses.py:50-60 | the mask keeps the grouped frame's order: the kept rows are strictly increasing by (month, category) |
| BudgetCharts.BudgetTracesShape | core/charts/budget_vs_actual_expenses.py:59-80 | two traces per category, budget then actual, named "<Title> Budget" and "<Title> Actual", light blue and orange |
| BudgetCharts.BarHeights | core/charts/budget_vs_actual_expenses.py:60-80 | a category's budget and actual bars have one bar per month the category has in the frame, in increasing month order, none for other months; each height is the summed budget, or actual amount, of that month and category |
| BudgetCharts.PlotBudgetVsActual | core/charts/budget_vs_actual_expenses.py:52-80 | the `add_trace` loop yields the budget and actual traces of each category in order |
| BudgetCharts.GenerateBudgetVsActualChart | core/charts/budget_vs_actual_expenses.py:6-98 | a database error gives the error fragment, an empty result the placeholder, a frame missing columns the missing-columns fragment, and otherwise the trace pairs of the regrouped frame |
| BudgetCharts.FrameRowsOf | core/charts/budget_vs_actual_expenses.py:131 | the mask keeps exactly the query rows of that category: each kept row has it and comes from the result, and every result row that has it is kept |
| BudgetCharts.FrameRowsOfMonths | core/charts/budget_vs_actual_expenses.py:116-131 | on a result ordered by month then category, a category's rows have strictly increasing months |
| BudgetCharts.VarianceTracesShape | core/charts/budget_vs_actual_expenses.py:130-141 | one trace per category, in order, each the variance bar of its category: named after it, one colour per bar, red exactly when the bar's variance is present and positive |
| BudgetCharts.VarianceBars | core/charts/budget_vs_actual_expenses.py:106-138 | a category's variance bar has one bar per query row of that category, every such row included, in increasing month order, each labelled with its month and as high as its variance |
| BudgetCharts.VarianceRedIff | core/charts/budget_vs_actual_expenses.py:134 | a bar is red exactly when the month's actual spending is present and strictly above the budget; zero variance is green |
| BudgetCharts.GenerateMonthlyVarianceChart | core/charts/budget_vs_actual_expenses.py:100-160 | a database error gives the error fragment, an empty result the placeholder, and otherwise one variance trace per category in first-occurrence order |
| IncomeChart.MonthBucket | core/charts/income_expenses.py:13 | a date's month is a seven-character "YYYY-MM" text of digits around a dash |
| IncomeChart.MonthBucketValue | core/charts/income_expenses.py:13 | the bucket's digits read back as the date's year and month |
| IncomeChart.MonthBucketExample | core/charts/income_expenses.py:13 | 14 July 2025 falls in "2025-07" |
| IncomeChart.MonthBucketOrder | core/charts/income_expenses.py:13-20 | buckets sort as text in calendar order, and two dates share a bucket exactly when they share year and month |
| IncomeChart.BucketRows | core/charts/income_expenses.py:12-15 | one grouping row per transaction |
| IncomeChart.BucketRowsSum | core/charts/income_expenses.py:15-17 | a (month, type) column sum is the total of that type's amounts in that month |
| IncomeChart.SummaryProperties | core/charts/income_expenses.py:15-20 | the summary's months are strictly increasing and are exactly the buckets present; each cell is its (month, type) total, and 0 where there is no transaction |
| IncomeChart.MonthTypeTotalAbsent | core/charts/income_expenses.py:18 | a (month, type) pair with no transaction totals 0 |
| IncomeChart.GenerateMonthlyIncomeVsExpense | core/charts/income_expenses.py:7-26 | no transaction gives the placeholder, and only then; otherwise an Income series is drawn when some income exists, before an Expense series drawn when some expense exists |
| IncomeChart.TypeColumns | core/charts/income_expenses.py:23-26 | a type is a column of the unstacked summary exactly when some transaction has it |
| Upload.RowKwargs | core/views/upload.py:23-29 | a row passes exactly the keywords type, amount, date, category and the note's keyword |
| Upload.ImportProperties | core/views/upload.py:22-30 | the row loop creates the rows' transactions in row order up to the first refused row, and stops there with its failure |
| Upload.ImportStopsAtFailure | core/views/upload.py:22-33 | once a row has failed, later rows create nothing |
| Upload.View | core/views/upload.py:9-37 | rows are created only for a valid POST of a readable file that has the four columns; a redirect goes to the dashboard |
| Upload.MissingColumnsIff | core/views/upload.py:18-20 | the missing-columns message is shown exactly when a required column is absent (extra columns do not matter), and then nothing is created |
| Upload.RedirectIff | core/views/upload.py:22-33 | with the four columns, the view redirects exactly when every row is created, and then creates one transaction per row in order; otherwise it renders "Upload failed: ..." for the first refused row, keeping the rows before it |
| Upload.CellText | core/views/upload.py:28-29 | a cell stored in a text column is its `str()`: "nan" for an empty cell, the text for a text cell |
| Upload.CellAmount | core/views/upload.py:26 | a cell stored as `amount` is the number it holds or the decimal its text spells; an empty cell is refused |
| Upload.CorrectedRow | core/views/upload.py:23-29 | a row is created exactly when its type is text, its date parses and its amount converts to a decimal; the transaction has the user as owner, the lower-cased type, the category's `str()`, the converted amount, the note's `str()` as description (or "" without a note column) and today's date |
| Upload.CorrectedRowConversions | core/views/upload.py:23-29 | a row with "5000" typed as text and empty category and note cells is stored as 5000.00 with category and description "nan" |
| Upload.BlankAmountRefused | core/views/upload.py:26 | an empty amount cell is refused |
| Upload.AsWrittenRowRefused | core/views/upload.py:29 | as written, no row is ever created, and a row with sound cells fails with a TypeError for `note` |
| Upload.AsWrittenUploadFails | core/views/upload.py:22-33 | as written, a sheet with the four columns and at least one row always renders "Upload failed: ..." and creates nothing |
| Upload.UploadTestExample | core/views/upload.py:22-33 | on the application's upload test sheet the view as written fails with the `note` TypeError, while the corrected view creates the Freelance income and redirects |
| Upload.UploadExcelView | core/views/upload.py:9-37 | the view's page and the rows it appends to the table are those of the corrected view, with each row's values converted as on save |
| Figures.Figure.AddTrace | core/charts/budget_vs_actual_expenses.py:63-80 | `add_trace` appends the trace and keeps the earlier ones |

## Left out

- Plotly layout, rendering and HTML output (`update_layout`, `plot`, `to_html`) are left out. A figure is modelled as its list of traces.
- The radar chart's axis range `max(values) * 1.2` is left out because it is floating point.
- ORM ordering and slicing (`order_by('-date')[:10]` and `[:50]`) and the transaction list passed to templates are left out. Functions take the user's transactions as a sequence.
- `Summaries.SummarizeTransactions` takes the user's transactions, already filtered by `Transaction.objects.filter(user=user)` (`Models.OwnedBy`).
- Database connections, `fetchdf`/`fetchone` and the exceptions they raise are left out. A failure is a parameter carrying the exception text.
- The user `lydia`, month 1 and year 2025 hard-coded in the queries are parameters.
- The `USER_MAPPING` constant and the unused `user_data` query of core/views/dashboard.py are left out, as they affect nothing rendered.
- `generate_sunburst_chart` and `generate_detailed_breakdown_table` are not part of this model; their definitions are not in the repository's chart module.
- The ETL and inspection scripts under core/db/ and the query helpers of core/services/db_query.py are left out. The tables they fill are modelled as `AnalyticStore` rows.
- Forms, authentication, sign-up, the home view, the add-transaction view, URL routing and admin configuration are left out.
- `Text.Lower` and `Text.Title` are ASCII-only. Python's Unicode case mapping is not modelled.
- `Upload.RowKwargs`: pandas' `to_datetime` is a parameter. The date it returns is discarded anyway, because `date` is `auto_now_add`.
- `Upload.Describe`: the texts of the exceptions other than the missing columns are not Python's own; only the "Upload failed: " prefix is modelled exactly.
- `Upload.MissingColumnsIff`: Python prints the required set in hash order; the message fixes one order.
- `Upload.Cell`: a numeric cell is held as its value in whole cents with its `str()` text; a float with more than two decimals, which Django rounds to two places on save, and binary rounding of floats are not modelled.
- `Text.DecimalText`: only plain fixed-point texts with at most two decimals are read; texts `Decimal` also accepts (surrounding whitespace, underscores, exponents, "Infinity", more decimals that Django rounds) are refused.
- `Models.NewTransaction`: a date passed to a text column, and an `is_recurring` value that is not a boolean, are refused, whereas Django would store the date's `str()` and convert truthy texts and numbers.
- `BudgetCharts.BarHeights`, `BudgetCharts.VarianceBars`: `fetchdf()` returns pandas frames whose amount columns are float64 (core/charts/budget_vs_actual_expenses.py:29 and :120), so the plotted heights are float sums; the model holds exact cents and does not model float rounding.
- `AnalyticStore.ExpenseRow`: the expense category is never NULL. The column is nullable (core/db/scripts/finance_duckdb.py:56), but the ETL fills it from distinct spreadsheet categories; a NULL group, which would make `category.title()` raise, is not modelled.
- `IncomeChart.MonthBucket`: any year 1-9999 is bucketed, whereas `pd.to_datetime` raises outside about 1677-2262; transaction dates are `auto_now_add`, so such dates do not arise through the views.
- `BudgetCharts.FrameRow`: a frame's month is an integer; a frame given with another month type (text, float) is not modelled.
- `Models.NewTransaction`: `max_length` of the text columns and the digit bound of `amount` are not checked on create; the bound is stated separately by `Models.TransactionAmountBound`.
- `Models.Goal` is modelled as a value with its defaults. No goal view exists in the core.

## Findings

| source | as written | input that shows it | evidently intended | confidence | as-written member | corrected member |
|---|---|---|---|---|---|---|
| core/views/upload.py:29 | each row's `Transaction.objects.create(...)` passes `note=row.get('note', '')`. `Transaction` has no `note` field (core/models.py:18-25), so every row raises TypeError and the view renders "Upload failed: ..." without creating anything | the upload test's sheet (core/tests/unit_tests/test_excel_upload.py:9-32): one row of type income, amount 5000, a date, category Freelance and a note, which the test expects to redirect | the note stored as the transaction's `description`, with the view creating one transaction per row and redirecting | not executed | Upload.AsWrittenUploadFails | Upload.UploadExcelView |
