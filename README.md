# Painel Financeiro BI — a verified model of the CRUD layer

This project models the backend of a single-user personal-finance panel in
Dafny and proves properties of that model. The backend keeps transactions,
categories, savings/limit goals and an import log in one database. On top of
that store it offers:

- a keyword auto-tagger that picks a transaction's category;
- a spreadsheet import that cleans, deduplicates and categorises rows;
- transaction operations: quick entry, partial update, delete, a filtered
  listing with a per-type summary, the list of months that have data, and
  the most recent rows;
- dashboard figures: KPIs and their change against the previous period,
  expenses by category, and a running balance per day;
- goals: progress, summary cards, create/update/delete, and contributions
  to saving goals;
- an expenses report;
- the older single-module copy of these functions (`backend/crud.py`);
- the frontend's API base address.

## How the model is built

- **Store.** The database is the class `Models.Store`. It holds four `seq`
  fields (transactions, categories, goals, import logs) in insertion order,
  and one `nextId` counter from which every new row of any table takes its
  id (see "## Left out" for how this differs from SQLite's numbering).
  `Store.Valid()` keeps ids strictly increasing and below `nextId`, and
  category names unique (the `UNIQUE` column).
  - Operations that write to the database are methods with `modifies db`.
  - Queries are functions over the sequences.
- **Amounts.** Amounts (REAL columns) are integer cents.
- **Percentages.** Percentages are `real`, before Python's `round(..., 2)`.
- **Dates.** Dates are Python ordinals (`date.toordinal()`), from 1
  (0001-01-01) to 3652059 (9999-12-31). Year and month follow CPython's
  `_ord2ymd`.
- **Today and library parsers.** `date.today()`, `pd.to_datetime`, `float()`
  and the NFKD decomposition of headers are not modelled. They enter as
  parameters (`today`, `parseDate`, `parseNumber`, `decompose`). So does
  whether the final commit succeeds.
- **SQL queries.** Each query becomes the filter, sort or group it describes
  (`Base.Filter`, `Ordering.SortDesc`, `Aggregates.GroupSum`).
  - `GROUP BY` yields groups in order of first appearance.
  - Ties in an `ORDER BY` keep storage order.

The model follows the code in these places:

- **Deleting a category** leaves the `category_id` of its transactions and
  goals as it is; SQLite does not enforce the foreign key. Such rows then
  join to no name (`CategoryCrud.DanglingAfterDelete`).
- **The import:**
  - it keeps the sign of the value and does not infer the transaction type;
  - it skips rows equal on (date, description, value, type) to a row
    already stored. The session runs with `autoflush=False`, so the
    comparison is against the store as it was before the import;
  - cleaning "R$ 1.200,00" gives " 1200.00". The space after "R$" survives,
    because stripping happens before "R$" is removed.
- **The header mapping's "descrição" key** can never match: headers are
  stripped of accents before the rename, so only "descricao" is used.

## Model

| member | source | states |
|---|---|---|
| Models.CategoryById | backend/app/crud/category.py:35-36 | the category with the given id when one exists (it is in the store and carries that id), none otherwise |
| Models.JoinedName | backend/app/crud/dashboard.py:88-92 | the outer join: no name for a null or dangling `category_id`, otherwise the name of the category it points at |
| CategoryCrud.KeywordList | backend/app/crud/category.py:26-29 | a category's keywords are the pieces of its keyword string split on `,` and `;`, each stripped then lowercased; a null or empty string gives none |
| CategoryCrud.FindCategoryByKeyword | backend/app/crud/category.py:22-33 | none exactly when no category has a non-empty keyword inside the lowercased description; otherwise the first such category in storage order, with no earlier category matching |
| CategoryCrud.DescriptionCaseIgnored | backend/app/crud/category.py:24 | descriptions that agree once lowercased select the same category |
| CategoryCrud.KeywordCaseIgnored | backend/app/crud/category.py:28 | lowercasing a category's keyword string does not change its keywords, so matching ignores case on that side too |
| CategoryCrud.SplitLower | backend/app/crud/category.py:28 | splitting commutes with lowercasing: same number of pieces, each piece lowercased |
| CategoryCrud.BlankKeywordsNeverMatch | backend/app/crud/category.py:26-31 | a null, empty, or separators-and-whitespace keyword string never matches any description |
| CategoryCrud.GetCategoryByName | backend/app/crud/category.py:5-6 | a category whose name equals the argument exactly, or none exactly when no category has that name |
| CategoryCrud.ResolveCategorySpec | backend/app/crud/importer.py:63-67 | a known name wins; otherwise the keyword match decides; the result is none exactly when the name is absent or unknown and no keyword matches |
| CategoryCrud.GetCategories | backend/app/crud/category.py:8-9 | `OFFSET skip LIMIT limit`: the categories from position `skip` on, at most `limit` of them, in order; as in SQLite, a negative offset skips nothing and a negative limit sets no bound |
| CategoryCrud.CreateCategory | backend/app/crud/category.py:11-20 | a new category with the next id is appended and nothing else changes; a name already in use is refused and the store is unchanged |
| CategoryCrud.DeleteCategory | backend/app/crud/category.py:38-44 | an unknown id returns none and changes nothing; otherwise exactly that category is removed and returned, with transactions and goals untouched |
| CategoryCrud.DanglingAfterDelete | backend/app/crud/category.py:42-44 | after a category is removed, a row still pointing at its id joins to no name |
| Text.Split | backend/app/crud/category.py:28 | `re.split`: the pieces between separators, with no separator inside any piece |
| Text.SplitRejoin | backend/app/crud/category.py:28 | joining the pieces back with the separators found gives the original string |
| Text.Capitalize | backend/app/crud/goal.py:63 | `str.capitalize()`: same length and the same letters ignoring case, the first not lower case and none of the others upper case |
| Text.CapitalizeIdempotent | backend/app/crud/goal.py:63 | capitalising a capitalised word changes nothing |
| Text.LowerStripIdempotent | backend/app/crud/importer.py:43 | lowercasing and stripping a stored type again changes nothing |
| Text.StripIdempotent | backend/app/crud/importer.py:42 | stripping a stripped description changes nothing |
| Text.ParseInt | backend/app/crud/transaction.py:119 | `int()` on a piece of `month_year`: a value exactly when the stripped text is an optional sign followed by at least one digit, that value being the digits' number, negated after a `-`; an error otherwise |
| Text.ParseIntOfDigits | backend/app/crud/transaction.py:119 | `int(str(n)) == n` for every natural number |
| ImporterCrud.AsciiOnly | backend/app/crud/importer.py:23-24 | `encode("ascii", errors="ignore")`: only characters below 128 remain, none is added, and an ASCII string is kept whole |
| ImporterCrud.AsciiOnlyAppend | backend/app/crud/importer.py:23-24 | what is kept of `s + t` is what is kept of `s` followed by what is kept of `t`, so ASCII characters keep their order |
| ImporterCrud.MarkDropped | backend/app/crud/importer.py:22-24 | a combining accent between ASCII letters is dropped and the letters kept |
| ImporterCrud.AccentedKeyUnreachable | backend/app/crud/importer.py:17-26 | no normalised header equals "descrição", so that key of the mapping never applies |
| ImporterCrud.AccentedHeaderRenamed | backend/app/crud/importer.py:16-26 | a "Descrição" header, decomposed by NFKD, becomes "descricao" and is renamed "description" |
| ImporterCrud.PortugueseHeadersAccepted | backend/app/crud/importer.py:16-32 | the headers "Data", "Descrição", "Valor" and "Tipo" pass the required-columns check |
| ImporterCrud.ImportPlan | backend/app/crud/importer.py:7-32 | an unreadable file is refused; a readable one is refused as missing columns exactly when its normalised headers lack one of date, description, value or type; no other error; the rows to add get consecutive ids |
| ImporterCrud.ClassifyRowCases | backend/app/crud/importer.py:37-61 | a row is dropped exactly when it fails to parse, skipped exactly when it equals a stored row on (date, description, value, type), and added otherwise |
| ImporterCrud.TallyCounts | backend/app/crud/importer.py:34-76 | the added count is the number of fresh rows and the skipped count the number of duplicates; with the dropped rows they add up to the number of data rows |
| ImporterCrud.ImportedAreNew | backend/app/crud/importer.py:48-61 | no added transaction equals a stored one on (date, description, value, type) |
| ImporterCrud.TallyAddsOnlyNew | backend/app/crud/importer.py:59-76 | only rows classified fresh are added, so every added transaction is new to the store |
| ImporterCrud.CleanValueBrazilianAmount | backend/app/crud/importer.py:40 | "R$ a.b,c" cleans to " ab.c": currency sign and thousands dots removed, decimal comma turned into a point |
| ImporterCrud.CleanValueNegative | backend/app/crud/importer.py:40 | "-a,c" cleans to "-a.c": the sign is kept |
| ImporterCrud.CleanValueShape | backend/app/crud/importer.py:40 | a leading minus survives cleaning and no comma does |
| ImporterCrud.Record | backend/app/crud/importer.py:59-76 | one pass of the row loop: a fresh row is appended with the next id and counted as added, a duplicate counted as skipped, a dropped row changes nothing |
| ImporterCrud.ImportRows | backend/app/crud/importer.py:34-76 | the row loop leaves the pending rows and counters the classification of all rows gives, and the added count is the number of pending rows |
| ImporterCrud.PlanImport | backend/app/crud/importer.py:7-76 | everything before the commit computes `ImportPlan` |
| ImporterCrud.CommitPlan | backend/app/crud/importer.py:78-92 | the pending rows and one import-log row counting them are committed together; a refused file or a failed commit changes nothing and reports the error |
| ImporterCrud.ProcessImportFile | backend/app/crud/importer.py:7-92 | the whole import: the store afterwards is the committed plan computed against the store as it was before |
| TransactionCrud.TransactionIndex | backend/app/crud/transaction.py:186-190 | the position of the row with that id, or none exactly when no row has it |
| TransactionCrud.QuickEntryNormalised | backend/app/crud/transaction.py:34-41 | the stored description is stripped, the stored type lowercased and stripped, the account null |
| TransactionCrud.QuickEntryCategoryRule | backend/app/crud/transaction.py:25-31 | a non-empty known name wins; otherwise the keyword match on the description decides; without a name the row is uncategorised exactly when no keyword matches |
| TransactionCrud.CreateQuickEntry | backend/app/crud/transaction.py:12-48 | appends the entry's row with the next id, dated with the entry's date or else `today`; nothing else changes |
| TransactionCrud.AddTransaction | backend/app/crud/transaction.py:43-46 | `db.add` and commit of one row carrying the next id keeps the store valid |
| TransactionCrud.RecentRowsSorted | backend/app/crud/transaction.py:73-81 | at most `limit` stored rows, all within the inclusive bounds, none more often than it is stored, in (date, id) descending order |
| TransactionCrud.RecentRowsAreTop | backend/app/crud/transaction.py:78-81 | a row within the bounds that is left out comes after every returned row, and is only left out when `limit` rows were returned |
| TransactionCrud.RecentTransactionsSpec | backend/app/crud/transaction.py:51-83 | the recent rows with their joined category names: bounded by `limit`, within the dates, none repeated beyond its stored copies, ordered newest first, and the top rows of the period |
| TransactionCrud.MonthYearHasOneDash | backend/app/crud/transaction.py:115-124 | a month filter only applies to text with exactly one dash; anything else is ignored |
| TransactionCrud.Matching | backend/app/crud/transaction.py:106-132 | the stored rows every given filter keeps (type, month when it parses, search in description or category name), each once |
| TransactionCrud.ListingSpec | backend/app/crud/transaction.py:106-135 | the listing is a permutation of the rows the filters keep, drawn from the store, newest date first |
| TransactionCrud.GetAllTransactions | backend/app/crud/transaction.py:86-155 | the listing with joined names, and a summary equal to the per-type totals of exactly the listed rows, balance income minus expense, investment excluded |
| TransactionCrud.MonthLabelRoundTrip | backend/app/crud/transaction.py:177 | a "YYYY-MM" label, month padded to two digits, parses back through the month filter to its year and month |
| TransactionCrud.MonthLabelInjective | backend/app/crud/transaction.py:177 | different months give different labels |
| TransactionCrud.MonthsOfSpec | backend/app/crud/transaction.py:163-175 | the distinct (year, month) pairs of the stored rows, strictly descending |
| TransactionCrud.AvailableMonthsSpec | backend/app/crud/transaction.py:158-178 | every transaction's month has its label; every label is a month with a transaction; labels strictly descending, so none repeats |
| TransactionCrud.DeleteTransaction | backend/app/crud/transaction.py:181-195 | an unknown id gives 404 and changes nothing; otherwise exactly that row is removed, and no row with the id remains |
| TransactionCrud.UpdateIdempotent | backend/app/crud/transaction.py:213-233 | sending the same update twice equals sending it once, unless it sends an empty description |
| TransactionCrud.EmptyUpdateKeepsRow | backend/app/crud/transaction.py:226-233 | an update that sends nothing leaves the row as it was |
| TransactionCrud.SetAttrsOfUpdate | backend/app/crud/transaction.py:226-233 | the `setattr` loop writes exactly the fields sent with a value and keeps the others |
| TransactionCrud.ApplyUpdate | backend/app/crud/transaction.py:212-233 | the category rule, then the `setattr` loop, produce the field-by-field updated row |
| TransactionCrud.UpdateTransaction | backend/app/crud/transaction.py:198-238 | an unknown id gives 404 and changes nothing; otherwise that row, and only it, is replaced by its updated version, keeping its id |
| TransactionCrud.ReplaceTransaction | backend/app/crud/transaction.py:235-237 | committing a row that keeps its id keeps the store valid |
| TransactionCrud.UncategorizedCount | backend/app/crud/transaction.py:241-252 | the number of rows with a null `category_id`: at most the number of rows, and 0 exactly when every row has one |
| TransactionCrud.UncategorizedCountAppend | backend/app/crud/transaction.py:246-250 | adding rows adds their own uncategorised count |
| Ordering.SortSorted | backend/app/crud/transaction.py:135 | the sort used for `ORDER BY ... DESC` yields a non-increasing sequence |
| Ordering.SortPermutes | backend/app/crud/transaction.py:135 | the sort is a permutation of its input |
| Ordering.TakeIsTop | backend/app/crud/transaction.py:80 | `LIMIT n` on a sorted sequence keeps rows ranked at least as high as every row it drops, and drops only when it keeps `n` |
| Aggregates.RowsInPeriod | backend/app/crud/dashboard.py:14-17 | the rows dated within the optional inclusive bounds, all of them and none more often than stored (the query promises no order, and the contract states none) |
| Aggregates.KindTotalPermutation | backend/app/crud/transaction.py:138-152 | a per-type total does not depend on the order of the rows |
| Aggregates.TotalsOf | backend/app/crud/dashboard.py:30 | balance is income minus expense, investment left out |
| Aggregates.GroupSum | backend/app/crud/dashboard.py:101 | `GROUP BY` with `SUM`: distinct keys, exactly the keys of the rows, each group carrying the sum of its rows |
| DashboardCrud.KindValuesSum | backend/app/crud/dashboard.py:11-19 | a type's group sum is that type's total |
| DashboardCrud.UnseenKindIsZero | backend/app/crud/dashboard.py:21 | a type with no group has no rows, so its KPI stays 0 |
| DashboardCrud.KpisForPeriod | backend/app/crud/dashboard.py:8-31 | the dict filled from the grouped rows equals the per-type totals of the rows within the bounds, 0 for a type without rows, balance income minus expense |
| DashboardCrud.PercentageChange | backend/app/crud/dashboard.py:34-39 | 0 whenever the previous value is 0; 0 when nothing changed; otherwise positive exactly when current and previous differ in the direction of previous's sign |
| DashboardCrud.PreviousWindow | backend/app/crud/dashboard.py:53-60 | the previous window ends the day before `start` and spans the same number of days; none when a date would leave the calendar |
| DashboardCrud.PreviousWindowBefore | backend/app/crud/dashboard.py:55-57 | for `start <= end` the previous window is well ordered, ends right before `start`, and is as long |
| DashboardCrud.GetDashboardKpis | backend/app/crud/dashboard.py:42-76 | current KPIs of the period, and changes measured against the previous window's KPIs, or against zeros when there is none |
| DashboardCrud.OpenPeriodHasNoChange | backend/app/crud/dashboard.py:46-53 | without both bounds every change percentage is 0 |
| DashboardCrud.ExpensesInPeriod | backend/app/crud/dashboard.py:93-99 | the expense rows within the bounds, all of them, each no more often than it is stored |
| DashboardCrud.ExpensesByCategorySpec | backend/app/crud/dashboard.py:79-109 | one entry per distinct category name, carrying the sum of its expenses in the period; every such expense falls under its name, an uncategorised one under "Sem Categoria" |
| DashboardCrud.LabelledGroupsSpec | backend/app/crud/dashboard.py:101-108 | each group becomes one entry labelled with its name, or "Sem Categoria" for none, carrying the sum of its rows; every row's name has a group |
| DashboardCrud.DaysOfSpec | backend/app/crud/dashboard.py:155-157 | one date per day that has a row, each once, ascending |
| DashboardCrud.GetBalanceOverTime | backend/app/crud/dashboard.py:112-174 | one point per date with a row in the period, ascending, carrying that day's income and expense and the running balance up to and including it |
| DashboardCrud.RunningBalanceStep | backend/app/crud/dashboard.py:160-165 | each point's balance is the previous point's plus that day's income minus expense, starting from 0 |
| DashboardCrud.FinalBalanceIsPeriodBalance | backend/app/crud/dashboard.py:159-174 | the running balance over the whole chart equals the period's KPI balance |
| ReportCrud.ReportSpec | backend/app/crud/report.py:7-42 | the report is a permutation of expenses by category (the same multiset of entries, so two "Sem Categoria" entries stay two), with values non-increasing |
| ReportCrud.LabelledMultiset | backend/app/crud/report.py:36-42 | groups that are a permutation of each other give labelled entries that are a permutation of each other, equal labels included |
| ReportCrud.LabelledDescending | backend/app/crud/report.py:31 | ordering the groups by sum descending gives non-increasing values |
| GoalCrud.SelectedGoals | backend/app/crud/goal.py:13-18 | "monthly" or "deadline" keeps exactly the goals of that period; any other filter keeps all; goals in id order stay in id order (`order_by(Goal.id)`) |
| GoalCrud.FilterIdsIncrease | backend/app/crud/goal.py:13-18 | filtering an id-ordered list of goals leaves them in id order |
| GoalCrud.ProgressSnoc | backend/app/crud/goal.py:38-51 | a new transaction moves a goal's progress by its value exactly when it is an expense of the goal's category within the goal's window (the month so far for a monthly goal), and leaves it alone otherwise |
| GoalCrud.LimitSpentQuery | backend/app/crud/goal.py:39-51 | the spending summed row by row equals the query: the expense total of the rows charged to the goal's category and dated within the bounds |
| GoalCrud.NoTransactionsNoSpending | backend/app/crud/goal.py:50 | with no transactions a limit goal's progress is 0 |
| GoalCrud.ProgressPercentage | backend/app/crud/goal.py:57 | 0 when the target is not positive; otherwise at least 100 exactly when progress reaches the target, and 0 exactly when progress is 0 |
| GoalCrud.CategoryLabel | backend/app/crud/goal.py:63 | the joined category name when it is non-empty, the capitalised goal type otherwise |
| GoalCrud.SummaryCounts | backend/app/crud/goal.py:33-55 | the saving count is the number of saving goals and the limit count the number of monthly limit goals, so together they do not exceed the number of goals |
| GoalCrud.TallyGoal | backend/app/crud/goal.py:31-55 | one pass of the loop computes the goal's progress and adds a saving goal's amounts, or a monthly limit goal's spending, to the cards |
| GoalCrud.GoalStep | backend/app/crud/goal.py:28-66 | one goal of the loop adds its share to the cards and yields its view: label, progress and percentage |
| GoalCrud.GetGoalsPageData | backend/app/crud/goal.py:8-68 | one view per selected goal with its label, progress and percentage; cards accumulated over those goals; active count equal to the number of goals listed; the views are in id order when the stored goals are |
| GoalCrud.AmountOr | backend/app/crud/goal.py:79 | Python's `or` on an amount: a non-zero amount is kept, a missing or zero one gives the fallback |
| GoalCrud.GoalCategory | backend/app/crud/goal.py:72-76 | a requested non-zero id must name an existing category (404 otherwise); without one the goal keeps its current category |
| GoalCrud.NewGoalCategory | backend/app/crud/goal.py:71-80 | a created goal has a category exactly when one was requested, and it exists |
| GoalCrud.UpdateKeepsAmountUnlessNonZero | backend/app/crud/goal.py:100 | an update sending 0 or no current amount keeps the old amount; a non-zero one replaces it |
| GoalCrud.UpdateGoalIdempotent | backend/app/crud/goal.py:97-103 | applying the same update twice equals applying it once |
| GoalCrud.GoalIndex | backend/app/crud/goal.py:88 | the position of the goal with that id, or none exactly when no goal has it |
| GoalCrud.AddGoal | backend/app/crud/goal.py:82-84 | storing a goal with the next id keeps the store valid |
| GoalCrud.ReplaceGoal | backend/app/crud/goal.py:104-105 | committing a goal that keeps its id keeps the store valid |
| GoalCrud.CreateGoal | backend/app/crud/goal.py:70-85 | an unknown category gives 404 and changes nothing; otherwise the goal is appended with the next id, current amount defaulting to 0 |
| GoalCrud.UpdateGoal | backend/app/crud/goal.py:87-106 | an unknown goal or category gives 404 and changes nothing; otherwise only that goal is replaced by its updated version, every field overwritten except a kept category and a falsy current amount |
| GoalCrud.DeleteGoal | backend/app/crud/goal.py:108-114 | an unknown id gives 404 and changes nothing; otherwise exactly that goal is removed |
| GoalCrud.ContributionsAdd | backend/app/crud/goal.py:129 | two contributions equal one of their sum, and only the saved amount changes |
| GoalCrud.AddContribution | backend/app/crud/goal.py:117-136 | 404 for an unknown goal, 400 for a goal that is not a saving goal, both changing nothing; otherwise the saved amount grows by exactly `amount`, with no cap |
| LegacyCrud.LegacyCreateQuickEntry | backend/crud.py:367-402 | the older quick entry appends the same row as the app's, always dated `today` |
| LegacyCrud.QuickEntryVersionsDiffer | backend/crud.py:373 | the two quick entries store the same row exactly when the entry sends no date or today's; otherwise only the date differs |
| LegacyCrud.LegacyApplyUpdate | backend/crud.py:566-585 | the older field-by-field `if`s produce the same updated row as the app's `setattr` loop |
| LegacyCrud.LegacyUpdateTransaction | backend/crud.py:552-590 | 404 for an unknown id, otherwise that row alone is replaced by its updated version |
| Config.BaseUrl | frontend/src/config.ts:1 | the configured address when it is set and non-empty, "http://127.0.0.1:8000" otherwise |
| Config.CleanBaseUrl | frontend/src/config.ts:4 | a prefix of the address that does not end in `/`, everything cut off being `/` |
| Config.CleanIdempotent | frontend/src/config.ts:4 | cleaning twice equals cleaning once |
| Config.CleanKeepsUnslashed | frontend/src/config.ts:4 | an address without a trailing `/` is unchanged |
| Config.CleanIgnoresSlashes | frontend/src/config.ts:4 | any number of extra trailing slashes makes no difference |
| Config.ApiUrl | frontend/src/config.ts:7 | the cleaned base followed by "/api", so it ends with "/api" and has no doubled slash before it |
| Config.DefaultApiUrl | frontend/src/config.ts:1-7 | without a setting the API address is "http://127.0.0.1:8000/api" |

## Left out

- Floating point: amounts are integer cents, so float sums, `round(..., 2)` and float division are not modelled. `DashboardCrud.PercentageChange` and `GoalCrud.ProgressPercentage` are exact `real` values before rounding.
- DashboardCrud.PercentageChange: for a negative previous value (a negative balance) the sign of the change is the opposite of the direction of change. The contract states that sign exactly as the code computes it.
- `pd.read_csv`/`pd.read_excel`, `pd.to_datetime(dayfirst=True)`, `float()` and the NFKD decomposition are library code. They are parameters of the import. The `.csv`/`.xlsx` choice of reader is part of `sheet`.
- Text.ParseInt: accepts ASCII digits with an optional sign and surrounding spaces. Python's `int()` also accepts `_` separators and non-ASCII digits, which are not modelled.
- Text.Lower: maps ASCII letters only; Python's full Unicode case mapping is not modelled.
- Models.Store: one `nextId` counter numbers the rows of all four tables, and an id is never given out twice. In the program each table numbers its own rows: without SQLite's `AUTOINCREMENT` keyword a new row gets that table's largest id plus one. So after the category with the largest id is deleted, the next category created takes the same id, and rows left pointing at the deleted one join to the new category. The model does not capture that reuse; there they stay without a name.
- ImporterCrud.CellAt: reads the first column with a given name. When two headers normalise to the same name ("Data" and "date", or "Descrição" and "descricao"), pandas returns several cells for `row["date"]`. The date conversion then raises and every row is dropped. A repeated `category_name` column makes the `pd.notna` test raise outside the `try`, so the whole import fails. Neither outcome is modelled.
- ImporterCrud.ParseRow: a blank value cell becomes "nan", and Python's `float("nan")` accepts it, so the row is kept. The commit then fails on the NOT NULL `value` column. `parseNumber` returns an integer or nothing, so it cannot produce this case: the model either drops such a row or stores it with a number.
- TransactionCrud.SearchHit: `LIKE '%term%'` is modelled as a plain substring test after lowercasing. `%` and `_` inside the term are not treated as wildcards.
- TransactionCrud.ListingSpec: states only that dates do not increase. Among rows with the same date the model keeps storage order; SQL leaves that order unspecified.
- Aggregates.GroupSum: yields groups in order of first appearance; SQL leaves the group order unspecified.
- TransactionCrud.RecentRows: `limit` is a `nat`. A negative SQL `LIMIT` is not modelled.
- `date.today()` is the parameter `today`. The server clock is not modelled.
- Database sessions, `db.refresh`, transactions other than the import's single commit, and HTTP: the FastAPI routers, CORS and the React pages are not part of this model.
- CategoryCrud.CreateCategory: only the unique-name constraint of the commit is modelled. The `parent_id` foreign key is stored as given and not checked.
- Goal `type` and `period` are free strings, as in the code. Values other than "saving"/"limit" and "monthly"/"deadline" are kept and take the "anything else" branches.
- Columns the CRUD functions never read are not modelled: `is_fixed` and the `created_at`/`imported_at` timestamps.
- The older `backend/crud.py`: where its code is the same as the app package's, the app's member covers it and is not repeated. This holds for `find_category_by_keyword` (lines 36-49), the percentage change (199-206), the whole import, `process_import_file` (51-166), which matches backend/app/crud/importer.py:7-91 statement for statement, so the ImporterCrud members cover it, the month labels (531), `delete_transaction` (537-551), `get_category_by_id` (831-835), `delete_category` (838-852) and the uncategorised count (859-870). Its dashboard, listing and recent-row functions are not modelled separately.
