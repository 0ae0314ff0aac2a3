# Expense tracker core in Dafny

This project models the core of an expense tracker. Its backend is Express over MongoDB with six controllers:
- transactions;
- budgets;
- savings goals;
- categories;
- statistics;
- alerts.

Its React frontend reshapes what those controllers return into charts, tables and progress bars.

Each collection is a sequence of records held by a class (`TransactionStore`, `BudgetTable`, `GoalStore`, `CategoryStore`). Its methods change that sequence in place and keep an invariant, `Valid()`:
- `TransactionStore`: distinct ids below the counter.
- `BudgetTable`: distinct ids below the counter, and unique (user, category, month, year) keys.
- `GoalStore`: distinct ids below the counter, a positive target, a non-negative current amount, and a goal at or past its target completed.
- `CategoryStore`: distinct ids and creation stamps below the counter.

Amounts are not kept non-negative in the transaction and budget collections. `findOneAndUpdate` runs no validators, so an update can store a negative transaction amount (`Transactions.UpdateSkipsValidation`). The budget upsert refuses only a missing or 0 amount, so a negative budget is stored (`BudgetsPage.PageRefusesWhatServerTakes`).

HTTP answers are a `Response` datatype: `Ok`, `BadRequest` (400), `NotFound` (404) or `ServerError` (500). The clock is a parameter, `now` (and `today` for the second reading in getAlerts). Query strings that go through `Number(...)` are `Option<int>`, with None for a missing or non-numeric (NaN) value. Where the source writes `Number(x) || d`, both give the default; getBudgets' query fails its cast on NaN, which is a 500. The listing's `page` and `limit` default only when missing, so there None means missing and a non-numeric value is not modelled.

Amounts are integers. `Math.round(a / b * 100)` is stated for the exact quotient, through its characterisation `2b·r <= 200a + b < 2b·(r+1)`; JavaScript's double rounding can differ at exact halves (see "## Left out"). Ratio thresholds are cross-multiplied, so `spent / amount >= 0.8` becomes `5·spent >= 4·amount`.

The frontend's pure helpers are functions over the JSON rows the pages receive. In those rows every field may be missing (`Option`), as `|| 0` and `?.` allow. The loops that fill a `Map` or push into an array are methods proved against those functions.

Modules, one per source file or shared concern:
- `Common`: Option, Response, Filter, Dedup, FindFirst/FindLast, sums, rounding, trimming, lowercasing.
- `Sorting`: a stable insertion sort by a comparator.
- `Grouping`: group-by sums and two-column pivots.
- `Calendar`: Gregorian months, leap years, epoch milliseconds, month and year ranges.
- `Records`: the stored documents.
- `Stats`, `Spending`, `Alerts`, `Budgets`, `Goals`, `Transactions`, `Categories`: the controllers.
- `Charts`, `CategoryNames`, `TransactionForm`, `IncomeExpense`, `TransactionsPage`, `Analytics`, `Dashboard`, `BudgetsPage`, `CategoriesPage`, `GoalsPage`: the frontend.

## Model

| member | source | states |
|---|---|---|
| Calendar.DaysInMonth | backend/controllers/statsController.js:5-10 | a month has 28..31 days; February has 29 exactly in Gregorian leap years |
| Calendar.NormalMonth | backend/controllers/statsController.js:7-8 | `new Date(year, month - 1, …)` lands in a month 1..12 with the same absolute month count (12·year + month), years 0..99 read as 19xx, and months 1..12 stay put |
| Calendar.MonthRange | backend/controllers/statsController.js:5-10 | getMonthRange's start and end are real instants: day 1 at 00:00:00.000 and the month's last day at 23:59:59.999 |
| Calendar.YearRange | backend/controllers/statsController.js:193-196 | the year scope runs from January 1 00:00:00.000 to December 31 23:59:59.999, both real instants |
| Calendar.MonthRangeEndsBeforeNextMonth | backend/controllers/statsController.js:7-8 | "day 0 of the next month" ends exactly one millisecond before the next month starts, so consecutive month ranges tile time |
| Calendar.OrderAgreesWithTime | backend/controllers/statsController.js:23-26 | on real instants, comparing by getTime() (as `$gte`/`$lte` do) is the calendar's lexicographic order, and equal times are equal dates |
| Calendar.BeforeMeansEarlier | backend/controllers/statsController.js:23-26 | a calendar-earlier real instant has a smaller epoch time |
| Calendar.YearStep | backend/controllers/statsController.js:5-10 | January 1 of y+1 is 365 or 366 days after January 1 of y, by leap year |
| Calendar.MonthsAreOrdered | backend/controllers/statsController.js:5-10 | a month ends no later than any later month of the same year starts |
| Calendar.MonthWithinYear | backend/controllers/statsController.js:5-10 | every month ends within its year |
| Calendar.InMonthRange | backend/controllers/statsController.js:5-10 | a real instant is in the month range exactly when its (year, month) is the normalised month asked for |
| Calendar.InYearRange | backend/controllers/statsController.js:193-196 | a real instant is in the year range exactly when its year is the one asked for |
| Common.NumOr | backend/controllers/statsController.js:18-19 | a numeric query value with its default, as JavaScript's `or` reads it: a given non-zero number is kept, a missing one or 0 gives the fallback |
| Common.RoundDiv | backend/controllers/budgetController.js:107 | Math.round of the exact quotient n / d for d > 0, as the unique r with 2d·r <= 2n + d < 2d·(r + 1) |
| Common.CeilDiv | backend/controllers/transactionController.js:91 | Math.ceil(n / d) for d > 0, as the r with d·(r − 1) < n <= d·r (also alertsController.js:109) |
| Common.Trim | backend/controllers/goalController.js:26 | `s.trim()`: the middle of s with every leading and trailing white-space character removed and none left at either end (also TransactionForm.jsx:59) |
| Common.TrimUnicodeSpaces | backend/controllers/goalController.js:26 | trim removes the Unicode space separators (ideographic, ogham, en-quad to hair, narrow no-break) and keeps the zero-width space |
| Common.TrimOfUnpadded | backend/controllers/goalController.js:26 | a string without white space at either end is its own trim |
| Common.ToLower | frontend/src/pages/Transactions.jsx:85-88 | `toLowerCase()` character by character, keeping the length |
| Common.PushNew | frontend/src/components/TransactionForm.jsx:26-32 | the `includes`/`push` loop gives the duplicate-free merge of the start list and the new names, in first-occurrence order |
| Sorting.SortBy | frontend/src/pages/Analytics.jsx:99-101 | `[...arr].sort(cmp)`: a permutation of its input, sorted whenever the comparator is a total preorder |
| Grouping.AccumulateKept | frontend/src/pages/Dashboard.jsx:48-53 | the `forEach`/`Map.set` loop's keys in insertion order are the distinct keys of the kept rows, and each maps to its rows' sum |
| Records.ParseTxType | backend/controllers/transactionController.js:60-62 | a type string is accepted exactly when it is "income" or "expense", and it names the parsed type |
| Records.ParseGoalStatus | backend/controllers/goalController.js:121-123 | a status string parses to Active exactly for "active", to Completed exactly for "completed", and fails otherwise |
| Stats.InMonthPeriod | backend/controllers/statsController.js:23-26 | the month filter keeps exactly the user's transactions of the calendar month the query names |
| Stats.InYearPeriod | backend/controllers/statsController.js:108-109 | the year filter keeps exactly the user's transactions of that year |
| Stats.GetSummary | backend/controllers/statsController.js:13-49 | month and year default to now's when missing, 0 or non-numeric; the fold loop yields totalIncome and totalExpense as the sums of income and expense amounts of the user's transactions in the month range; balance is their difference |
| Stats.GetByCategory | backend/controllers/statsController.js:53-98 | month and year default to now's; the type defaults to "expense"; a type that is neither type matches nothing |
| Stats.ByCategoryRowsMembers | backend/controllers/statsController.js:65-72 | on real dates the grouped rows are exactly the user's transactions of that type in that calendar month |
| Stats.ByCategoryGroups | backend/controllers/statsController.js:65-86 | one entry per category, exactly the categories of matching transactions, each with the sum of their amounts |
| Stats.ByCategoryKeys | backend/controllers/statsController.js:65-72 | on real dates the categories among the grouped rows are exactly those of the user's matching transactions |
| Stats.ByCategoryAddsUpToSummary | backend/controllers/statsController.js:28-34 | the per-category expense totals add up to getSummary's totalExpense for the same user and month, and the income totals to its totalIncome |
| Stats.GetMonthly | backend/controllers/statsController.js:102-173 | the year defaults to now's; data is the year's month pivot sorted by month; the fold loop's totals are the sums over the data rows |
| Stats.MonthlyMonthsIncrease | backend/controllers/statsController.js:152 | monthly rows come in strictly increasing month order, so no month appears twice |
| Stats.MonthlyMonthsPresent | backend/controllers/statsController.js:114-153 | the months listed are exactly those in which the user has a transaction that year, and all lie in 1..12 |
| Stats.YearMonthKeys | backend/controllers/statsController.js:114-153 | the months among the year's rows are those of the user's transactions in that year, each in 1..12 |
| Stats.MonthlyRowTotals | backend/controllers/statsController.js:128-150 | each monthly row carries the income and expense sums of its month |
| Stats.MonthlyTotalsAreYearTotals | backend/controllers/statsController.js:156-161 | the reported year totals are the year's income and expense sums |
| Stats.YearTotals | backend/controllers/statsController.js:155-161 | the forEach loop leaves the sums of the income column and of the expense column of the monthly rows |
| Stats.GetCategoryUsage | backend/controllers/statsController.js:178-258 | the scope defaults to "month"; month and year default to now's; `month` is reported only for the month scope; the rows come sorted by category with no category twice, and each row carries the income and expense sums of its own category over the in-scope transactions |
| Stats.UsageScopeMeaning | backend/controllers/statsController.js:187-200 | "month" restricts to the calendar month, "year" to the year, and any other scope to nothing but the user |
| Stats.CategoryUsageSpec | backend/controllers/statsController.js:202-246 | exactly the categories of the user's in-scope transactions appear; each row's income and expense are the sums of that category's in-scope income and expense amounts, and the columns add up to the scope's sums |
| Stats.UsageData | backend/controllers/statsController.js:209-245 | the category pivot comes sorted by category with no category twice |
| Stats.UsageDataSpec | backend/controllers/statsController.js:209-245 | the pivot lists exactly the categories of the rows, each with the income and expense sums of its own category, and its columns add up to the rows' income and expense sums |
| Grouping.GroupSumSpec | backend/controllers/statsController.js:65-86 | a `$group` by key with `$sum` gives distinct keys in first-occurrence order, each with the sum of its rows, and the group totals add up to the total |
| Grouping.PivotSpec | backend/controllers/statsController.js:114-153 | the two-column pivot has distinct keys, exactly the keys present in the rows, and each entry carries the income and expense sums of its own key |
| Spending.SpentIsCategoryExpense | backend/controllers/alertsController.js:28-50 | what a budget's category spent is the sum of the amounts of the month's expense transactions in that category |
| Spending.SpentWithoutExpenses | backend/controllers/alertsController.js:55 | with no expense of the user in that category and month, spent is 0 |
| Spending.SpendMap | backend/controllers/alertsController.js:47-50 | looking a category up in the filled spend map, with 0 when missing, gives what was spent in it |
| Spending.LoadGroups | backend/controllers/budgetController.js:98-101 | the `forEach`/`set` loop over the category groups maps each key to its group sum, and a missing key reads as 0 |
| Alerts.BudgetAlertFor | backend/controllers/alertsController.js:54-85 | a budget with amount <= 0 gives nothing; otherwise an alert iff 5·spent >= 4·amount; Danger iff spent >= amount, with the exceeded message; Warning carries round(spent/amount·100) in 80..100; every alert has source "budget", limit = amount and remaining = max(amount − spent, 0) |
| Alerts.BudgetAlertsInOrder | backend/controllers/alertsController.js:54-86 | budget alerts keep budget order: the alerts of a + b are a's alerts followed by b's |
| Alerts.BudgetAlertsMembers | backend/controllers/alertsController.js:54-86 | at most one alert per budget, and an alert is listed exactly when some budget yields it |
| Alerts.PercentBetween80And100 | backend/controllers/alertsController.js:66-69 | a Warning's rounded percentage of a ratio in [0.8, 1) always lies in 80..100 |
| Alerts.DaysLeft | backend/controllers/alertsController.js:107-110 | daysLeft is the ceiling of the time to the deadline in days: positive before the deadline, at most 0 once it has passed, and negative once a full day has passed |
| Alerts.GoalAlertFor | backend/controllers/alertsController.js:100-161 | a target <= 0 gives nothing; Success iff current >= target and the goal is not completed, with the "reached" message; else GoalWarning iff current < target and a deadline at most 7 days away (or passed), whose message gives those days and the rounded percentage; else Info iff 0.8 <= progress < 1, whose message gives the rounded percentage, which lies in 80..100; the title is always missing; progress and daysLeft are as computed |
| Alerts.GoalAlertsMembers | backend/controllers/alertsController.js:96-143 | at most one alert per goal, an alert is listed exactly when some goal yields it, and alerts keep goal order |
| Alerts.PushBudgetAlerts | backend/controllers/alertsController.js:54-86 | the budget loop pushes exactly the budgets' alerts, in order, with spent read from the spend map |
| Alerts.PushGoalAlerts | backend/controllers/alertsController.js:96-162 | the goal loop pushes exactly the goals' alerts, in order |
| Alerts.GetAlerts | backend/controllers/alertsController.js:7-174 | month and year default to the first clock reading's; the budget alerts are those of the month asked for; the goal alerts are those of all the user's goals, independent of the month, with days left counted from the second clock reading (line 97) |
| Budgets.KeyIndex | backend/controllers/budgetController.js:15-19 | the first budget with the key (user, category, month, year), or none |
| Budgets.UpsertKeepsKeysUnique | backend/controllers/budgetController.js:15-19 | an upsert keeps (user, category, month, year) unique |
| Budgets.UpsertStoresAmount | backend/controllers/budgetController.js:15-19 | after an upsert exactly one budget has the key, and its amount is the new one |
| Budgets.UpsertLeavesOthers | backend/controllers/budgetController.js:15-19 | every budget with another key is left unchanged, in the same order |
| Budgets.DeleteRowsSpec | backend/controllers/budgetController.js:49-50 | delete removes exactly the user's budget with that id; with none the table is unchanged; keys stay unique |
| Budgets.ProgressRowFor | backend/controllers/budgetController.js:104-115 | a progress row carries the category, budget and spent; the percentage is round(spent/amount·100) for amount > 0, else 0 |
| Budgets.ProgressAgreesWithAlerts | backend/controllers/budgetController.js:106-107 | the progress percentage is at least 100 for a budget the alert engine calls Danger, and equals the Warning alert's percentage |
| Budgets.RoundDivUnique | backend/controllers/budgetController.js:106-107 | Math.round's characterisation has one solution |
| Budgets.MonthBudgetsDistinctCategories | backend/controllers/budgetController.js:35 | with unique keys, one user's budgets of one month name each category once |
| Budgets.BudgetTable.constructor | backend/models/Budget.js:31 | the table starts empty and satisfies its invariant: unique (user, category, month, year) keys and distinct ids |
| Budgets.BudgetTable.Upsert | backend/controllers/budgetController.js:6-26 | a missing or empty category or a missing or 0 amount is a 400 and changes nothing; otherwise the table becomes the upsert of the key and the returned budget is the stored one with the new amount |
| Budgets.BudgetTable.FindBudgets | backend/controllers/budgetController.js:35 | exactly the user's budgets of that numeric month and year |
| Budgets.BudgetTable.GetBudgets | backend/controllers/budgetController.js:29-41 | a non-numeric month or year fails the cast to Number and is a 500; otherwise exactly the user's budgets whose month and year match |
| Budgets.BudgetTable.Delete | backend/controllers/budgetController.js:44-55 | removes just the user's budget with that id and succeeds whether or not one matched |
| Budgets.BudgetTable.Progress | backend/controllers/budgetController.js:58-122 | a missing, 0 or non-numeric month or year is a 400; otherwise one row per budget of the month (`FindBudgets`), in order, with its category's expense spend (0 when none) and percentage, never filtered by threshold |
| Goals.NoteOr | backend/controllers/goalController.js:30 | a missing note becomes "", a given one is trimmed |
| Goals.NewGoal | backend/controllers/goalController.js:7-42 | a missing or empty name or missing target is a 400, a target <= 0 is a 400; a blank name (`required`) or an Invalid Date deadline (the Date cast) is a 500 from `Goal.create`; success exactly for a non-blank name, a positive target and a deadline that is absent or a real date; the new goal is active at 0 with trimmed name and note and that deadline |
| Goals.RequestedStatus | backend/controllers/goalController.js:121-123 | the requested status applies only when it is "active" or "completed" |
| Goals.ApplyUpdate | backend/controllers/goalController.js:89-136 | a 400 iff a given target <= 0 or current < 0; otherwise a 500 iff the name (trimmed when given) is empty, which the schema's `required` refuses on save, or a new deadline is an Invalid Date, which the cast refuses; Ok exactly when none of these holds, with each given field replaced (name and note trimmed) and a goal at or past its target completed; the goal invariant is kept |
| Goals.InvalidDeadlineRefused | backend/controllers/goalController.js:29 | a deadline that does not parse is a 500 on create and on update (line 114), where a real date is stored |
| Goals.ApplyContribution | backend/controllers/goalController.js:171-181 | current becomes max(current + amount, 0); completed iff at or past the target, so a completed goal below target reverts to active; nothing else changes |
| Goals.ContributionIsMonotone | backend/controllers/goalController.js:171-181 | a positive contribution to a stored goal adds exactly the amount and never un-completes a goal at its target |
| Goals.FindGoal | backend/controllers/goalController.js:81-87 | the position of the user's goal with that id, or none when the user has no such goal |
| Goals.ListGoals | backend/controllers/goalController.js:53-59 | the user's goals, filtered by status only for "active" or "completed", as a permutation of the matches sorted newest first |
| Goals.RemoveGoalSpec | backend/controllers/goalController.js:204-210 | with distinct ids, delete removes exactly the user's goal with that id |
| Goals.GoalStore.constructor | backend/models/Goal.js:15-36 | the store starts empty and satisfies its invariant: every goal has a positive target, a non-negative balance, is completed once at its target, and ids are distinct |
| Goals.GoalStore.Create | backend/controllers/goalController.js:24-32 | an accepted goal is appended, a refused one changes nothing |
| Goals.GoalStore.GetGoals | backend/controllers/goalController.js:48-68 | a permutation of the user's stored goals that match a known status filter (all of them for none or an unknown one), exactly those, newest first |
| Goals.GoalStore.Update | backend/controllers/goalController.js:74-140 | 404 without such a goal; a rejected update saves nothing; an accepted one replaces only that goal |
| Goals.GoalStore.Contribute | backend/controllers/goalController.js:146-193 | a missing or non-positive amount is a 400 before the lookup, then 404 without the goal, else only that goal gets the contribution |
| Goals.GoalStore.Delete | backend/controllers/goalController.js:199-217 | removes the user's goal with that id, 404 when there is none |
| Transactions.ParseFrequency | backend/models/Transaction.js:39-43 | exactly the four frequency names parse |
| Transactions.FrequencyName | backend/controllers/transactionController.js:29 | no frequency unless recurring; when recurring the given one or "monthly" |
| Transactions.NewTransaction | backend/controllers/transactionController.js:3-42 | a falsy amount (0 included), type, category or date is a 400; a value the schema refuses is a 500; otherwise the stored transaction has the given fields, note "" when missing, a boolean isRecurring, and a frequency exactly when recurring: the given one when present and non-empty, "monthly" otherwise |
| Transactions.FilterOf | backend/controllers/transactionController.js:58-76 | the type filter applies only for "income" or "expense", the category only when non-empty, and the date bounds as given |
| Transactions.SortedMatches | backend/controllers/transactionController.js:79-82 | a permutation of the matches, ascending by date iff sort is "asc", else descending |
| Transactions.PageCount | backend/controllers/transactionController.js:91 | Math.ceil(total / limit) |
| Transactions.LimitTo | backend/controllers/transactionController.js:82 | `.limit(0)` keeps everything; otherwise at most the limit's magnitude |
| Transactions.ListTransactions | backend/controllers/transactionController.js:46-99 | page 1 and limit 10 by default; a 500 iff the skip `SkipOf` = (page−1)·limit is negative or a date bound is an Invalid Date (`HasInvalidDate`); otherwise the page is the limit-sized run of the date-sorted `MatchesFilter` matches after the skip; total counts every match; totalPages is ceil(total/limit), none for limit 0 |
| Transactions.PageOfSorted | backend/controllers/transactionController.js:82 | a page holds only elements of what it was cut from, and at most a positive limit of them |
| Transactions.PageSpec | backend/controllers/transactionController.js:81-91 | a page holds at most limit transactions, each a stored transaction that satisfies `MatchesFilter`, and totalPages·limit covers the total |
| Transactions.ApplyPatch | backend/controllers/transactionController.js:104-111 | every given field is replaced and the rest kept; the id is kept, and the owner changes when the body names another `userId` |
| Transactions.UpdateSkipsValidation | backend/controllers/transactionController.js:104-111 | an update can store a negative amount that create would refuse |
| Transactions.UpdateCanChangeOwner | backend/controllers/transactionController.js:104-111 | an update whose body names another `userId` moves the transaction to that user |
| Transactions.TransactionStore.constructor | backend/models/Transaction.js:3-46 | the store starts empty, with distinct ids |
| Transactions.TransactionStore.Create | backend/controllers/transactionController.js:21-30 | an accepted transaction is appended, a refused one changes nothing |
| Transactions.TransactionStore.List | backend/controllers/transactionController.js:81-84 | the page holds only the user's stored transactions |
| Transactions.TransactionStore.Update | backend/controllers/transactionController.js:101-126 | 404 unless the user owns a transaction with that id; otherwise only that one is patched (its owner too, when the body gives one) and returned |
| Transactions.TransactionStore.Delete | backend/controllers/transactionController.js:128-148 | 404 unless the user owns one with that id; otherwise exactly that transaction is removed |
| Categories.Rename | backend/controllers/categoryController.js:39-43 | name and colour are replaced when given and kept otherwise; id, owner and creation time stay |
| Categories.UpdateCanDuplicateNames | backend/controllers/categoryController.js:39-43 | the update does not re-check names, so it can give a user two categories of one name |
| Categories.ListCategories | backend/controllers/categoryController.js:27 | the user's categories, as a permutation, newest first |
| Categories.CategoryStore.constructor | backend/models/Category.js:3-23 | the store starts empty, with distinct ids and creation stamps below the counter |
| Categories.CategoryStore.Create | backend/controllers/categoryController.js:3-23 | a missing or empty name is a 400, a name the user already has is a 400, otherwise the category is appended with the given colour or "#4f46e5"; names stay unique per user |
| Categories.CategoryStore.GetCategories | backend/controllers/categoryController.js:25-32 | exactly the user's categories, newest first |
| Categories.CategoryStore.Update | backend/controllers/categoryController.js:34-52 | 404 unless the user owns a category with that id; otherwise only that one is renamed |
| Categories.CategoryStore.Delete | backend/controllers/categoryController.js:54-70 | 404 unless the user owns one with that id; otherwise exactly that one is removed, and names stay unique |
| CategoryNames.DefaultsDistinct | frontend/src/store/categorySlice.js:20-32 | the eleven default names are distinct |
| CategoryNames.MergeNames | frontend/src/store/categorySlice.js:35 | the defaults in order, then each new custom name in first-occurrence order; no duplicates; exactly the defaults and the custom names |
| CategoryNames.NamesOf | frontend/src/store/categorySlice.js:34 | the names of the categories, in order |
| CategoryNames.NamesOfMembers | frontend/src/store/categorySlice.js:34 | every category's name is among the names |
| CategoryNames.MergedCategoryNames | frontend/src/store/categorySlice.js:19-36 | with no list, exactly the defaults; always the defaults first, no duplicates, and every custom category's name |
| CategoryNames.MergeCustomNames | frontend/src/components/TransactionForm.jsx:24-35 | the push loop gives the defaults followed by the new non-empty custom names without duplicates; no empty name |
| CategoryNames.EmptyNameKeptOnlyBySelector | frontend/src/store/categorySlice.js:34-35 | the selector keeps an empty category name that the forms' merge drops |
| CategoryNames.CategorySlice.constructor | frontend/src/store/categorySlice.js:5-8 | the slice starts with an empty list, not loading |
| CategoryNames.CategorySlice.SetCategories | frontend/src/store/categorySlice.js:10-12 | the list is replaced wholesale and the flag kept |
| CategoryNames.CategorySlice.SetCategoryLoading | frontend/src/store/categorySlice.js:13-15 | only the loading flag changes |
| Charts.PointsFor | frontend/src/pages/Dashboard.jsx:57-68 | one point per key, carrying that key's amount sum |
| Charts.DayKeyOrderIsTotal | frontend/src/pages/Dashboard.jsx:55 | the order of `YYYY-MM-DD` keys is a total preorder |
| Charts.ChartKeys | frontend/src/pages/Dashboard.jsx:55-57 | the chart's keys are the distinct days of the dated rows, sorted |
| Charts.DailyChartIncreases | frontend/src/pages/Dashboard.jsx:55 | the chart's days come in strictly increasing order |
| Charts.DailyChartDays | frontend/src/pages/Dashboard.jsx:48-51 | there is a point for a day exactly when some dated row falls on it; undated rows are skipped |
| Charts.DailyChartAmounts | frontend/src/pages/Dashboard.jsx:52-66 | each point's amount is the sum of that day's amounts |
| Charts.BuildDailyChart | frontend/src/pages/Dashboard.jsx:45-69 | the `forEach`/`Map.set` loop and the sorted keys build exactly the daily chart (also Income.jsx:45-70 and Expense.jsx:43-67) |
| Charts.NewestFirst | frontend/src/pages/Dashboard.jsx:183-185 | the displayed list is a permutation of the fetched list, newest first (also Income.jsx:90-94 and Expense.jsx:86-90) |
| Charts.TotalOfNewestFirst | frontend/src/pages/Income.jsx:146 | the total (`TotalAmount`, the reduce over the amounts) of the newest-first list is the total of the fetched list, missing amounts read as 0 (also Expense.jsx:136-139) |
| Charts.WithoutId | frontend/src/pages/Transactions.jsx:116 | the local delete keeps exactly the rows with another id (also Income.jsx:136) |
| TransactionForm.InitialForm | frontend/src/components/TransactionForm.jsx:37-48 | type "expense", category "Food", empty amount and note, not recurring, frequency "monthly"; the date is the UTC day of the clock at midnight, the day that contains the current instant |
| TransactionForm.Submit | frontend/src/components/TransactionForm.jsx:50-63 | nothing is sent iff the amount is empty or <= 0; otherwise the numeric amount, the trimmed note (left out iff blank), and the frequency iff recurring |
| TransactionForm.RequestOf | frontend/src/components/TransactionForm.jsx:54-62 | the request body carries every payload field unchanged |
| TransactionForm.SubmittedFormIsStored | frontend/src/components/TransactionForm.jsx:50-63 | a submitted form with a known type, category, real date and frequency is stored as entered: note trimmed, frequency only when recurring |
| TransactionForm.WithType | frontend/src/pages/Income.jsx:115 | `{ ...payload, type }` changes the type and nothing else (also Expense.jsx:109) |
| IncomeExpense.CreateStoresPageType | frontend/src/pages/Income.jsx:111-120 | whatever type the form chose, a valid submission is stored with the page's type and amount (also Expense.jsx:106-110) |
| IncomeExpense.PointAsRow | frontend/src/pages/Income.jsx:137 | a chart point read back as a row has no id and no date |
| IncomeExpense.PointRows | frontend/src/pages/Income.jsx:137 | the chart's points read back as rows, one each |
| IncomeExpense.LocalDeleteEmptiesChart | frontend/src/pages/Income.jsx:137 | rebuilding the chart from its own undated points gives an empty chart whatever was deleted |
| TransactionsPage.ClearedFilters | frontend/src/pages/Transactions.jsx:34-43 | every filter is "" and sort is "desc" |
| TransactionsPage.BuildQuery | frontend/src/pages/Transactions.jsx:49-61 | limit 500, each filter present iff non-empty, and sort only for "asc" or "desc" |
| TransactionsPage.Searched | frontend/src/pages/Transactions.jsx:84-91 | an empty query keeps all; otherwise a row survives iff its lower-cased note or category contains the lower-cased query |
| TransactionsPage.FilteredList | frontend/src/pages/Transactions.jsx:80-109 | a permutation of the surviving rows; amounts non-increasing for "high" and non-decreasing for "low"; dates ascending for "asc" and descending for "desc"; any other sort keeps the fetched order |
| Analytics.Densify | frontend/src/pages/Analytics.jsx:57-68 | twelve bars labelled Jan..Dec; month m takes the totals of the first entry for m, missing totals as 0, and 0 and 0 without an entry |
| Analytics.BarFor | frontend/src/pages/Analytics.jsx:60-67 | the bar of month idx + 1 is labelled with that month's name and carries the totals of the first entry for the month, missing totals as 0, or 0 and 0 when no entry has it |
| Analytics.HasMonthlyData | frontend/src/pages/Analytics.jsx:117-119 | true iff some bar has income or expense above 0 |
| Analytics.Entries | frontend/src/pages/Analytics.jsx:57 | the monthly rows as the page receives them, one entry each |
| Analytics.DensifySnoc | frontend/src/pages/Analytics.jsx:60-68 | a row for a month not yet listed sets that month's bar and no other |
| Analytics.BarForSnoc | frontend/src/pages/Analytics.jsx:62-67 | an entry for a month not yet listed changes that month's bar and leaves every other bar as it was |
| Analytics.DensifyTotalsSnoc | frontend/src/pages/Analytics.jsx:60-68 | adding the row of a month not yet listed adds its income and expense to the bars' sums |
| Analytics.DensifyKeepsTotals | frontend/src/pages/Analytics.jsx:60-68 | for rows with distinct months in 1..12, the twelve bars' income and expense sums equal the rows' sums |
| Analytics.BarsAddUpToYearTotals | frontend/src/pages/Analytics.jsx:60-72 | the twelve bars add up to the year totals sent alongside them |
| Analytics.TopCategories | frontend/src/pages/Analytics.jsx:99-101 | a permutation of the rows sorted by amount, largest first |
| Analytics.TopTotalOfSorted | frontend/src/pages/Analytics.jsx:121-122 | sorting does not change the total the shares are taken of |
| Analytics.SharePct | frontend/src/pages/Analytics.jsx:229-232 | round(amount/total·100) for a positive total, else 0; within 0..100 for a part of the whole |
| Analytics.PercentOfPart | frontend/src/pages/Analytics.jsx:229-232 | the rounded percentage of a part of a positive whole lies in 0..100 |
| Analytics.ShareBounded | frontend/src/pages/Analytics.jsx:227-232 | with no negative amounts every share lies in 0..100 |
| Dashboard.SummaryOf | frontend/src/pages/Dashboard.jsx:123-129 | missing totals read as 0; a given non-zero balance is shown, else income − expense |
| Dashboard.ServerSummaryShownAsSent | frontend/src/pages/Dashboard.jsx:123-129 | getSummary's answer is shown as sent, and one without a balance is rebuilt to the same numbers |
| Dashboard.MapShares | frontend/src/pages/Dashboard.jsx:212-218 | one slice per row, in order |
| Dashboard.CategoryShares | frontend/src/pages/Dashboard.jsx:209-220 | a permutation of the mapped slices, values non-increasing |
| Dashboard.CategorySharesMembers | frontend/src/pages/Dashboard.jsx:214-217 | every row has its slice: named after its category or "Other", valued its amount or 0, with its share of the total; no slice name is empty |
| Dashboard.CategorySharesTotal | frontend/src/pages/Dashboard.jsx:210 | the slices' values add up to the total the percentages are taken of |
| Dashboard.CategorySharesBounded | frontend/src/pages/Dashboard.jsx:216-217 | with no negative amounts every percentage lies in 0..100 |
| Dashboard.OverviewSlices | frontend/src/pages/Dashboard.jsx:531-535 | three slices: the balance clamped at 0, the income, the expenses |
| Dashboard.FirstFive | frontend/src/pages/Dashboard.jsx:646 | at most five, a prefix, all of a short list (also line 754) |
| Dashboard.BarHealth | frontend/src/pages/Dashboard.jsx:862-901 | over by spent − budget iff pct >= 100; close iff 70 <= pct < 100; safe iff pct < 70 |
| Dashboard.BarWidth | frontend/src/pages/Dashboard.jsx:885 | min(pct, 120) |
| Dashboard.BarsAgreeWithAlerts | frontend/src/pages/Dashboard.jsx:862-901 | on a positive budget, a Danger alert's bar is over by a non-negative amount, a Warning's is over or close, and a budget without an alert is not over |
| Dashboard.OverByNegativeAmount | frontend/src/pages/Dashboard.jsx:890-892 | 996 spent of 1000 rounds to 100%, so the bar reads "over by −4" while the alert engine only warns |
| BudgetsPage.InitialBudgetForm | frontend/src/pages/Budgets.jsx:50-53 | category "Food" and an empty amount |
| BudgetsPage.SavedFormIsAccepted | frontend/src/pages/Budgets.jsx:130-136 | whatever the submit guard lets through passes the server's upsert guard (`Budgets.UpsertRefused`); a form the server would take and the page holds back has a negative amount |
| BudgetsPage.PageRefusesWhatServerTakes | frontend/src/pages/Budgets.jsx:133 | the page refuses a negative amount that the server's upsert guard lets through |
| BudgetsPage.LastProgress | frontend/src/pages/Budgets.jsx:68-74 | none iff no entry has the category; otherwise the last entry with that category |
| BudgetsPage.LastProgressSnoc | frontend/src/pages/Budgets.jsx:70-72 | one more `set` overrides exactly its own category |
| BudgetsPage.ProgressByCategory | frontend/src/pages/Budgets.jsx:68-74 | the `forEach`/`set` loop maps exactly the categories present, each to its last entry |
| BudgetsPage.JoinRow | frontend/src/pages/Budgets.jsx:77-84 | spent and percentage from the category's progress row, else 0 and 0; the budget itself kept |
| BudgetsPage.Rows | frontend/src/pages/Budgets.jsx:76-85 | one joined row per budget, in order |
| BudgetsPage.RowsShowServerProgress | frontend/src/pages/Budgets.jsx:76-85 | on the month's budgets, which name each category once, the rows show the server's spent and percentage for each budget |
| BudgetsPage.RowHealthOf | frontend/src/pages/Budgets.jsx:323-366 | over budget by spent − amount iff pct >= 100; close iff 70 <= pct < 100; on track iff pct < 70 |
| BudgetsPage.SameBarAsDashboard | frontend/src/pages/Budgets.jsx:323-349 | this page and the dashboard draw the same bar and width for a budget |
| CategoriesPage.LastUsage | frontend/src/pages/Categories.jsx:92-94 | none iff no entry has the category; otherwise the last entry with it |
| CategoriesPage.MasterRow | frontend/src/pages/Categories.jsx:97-104 | the category with the totals of its last usage entry (missing totals as 0), or 0 and 0 |
| CategoriesPage.WithUsage | frontend/src/pages/Categories.jsx:97-104 | one row per category, in the list's order |
| CategoriesPage.ExtraRow | frontend/src/pages/Categories.jsx:109-115 | named after the entry's category, type "unknown", colour "#64748b", no id, totals or 0 |
| CategoriesPage.ExtraRows | frontend/src/pages/Categories.jsx:109-115 | one extra row per entry, in order |
| CategoriesPage.ExtraFromUsageSpec | frontend/src/pages/Categories.jsx:107-115 | the extra rows are exactly those of the usage entries whose category no listed category is named |
| CategoriesPage.FinalUsage | frontend/src/pages/Categories.jsx:117 | the listed categories' rows, then the extras |
| CategoriesPage.EveryCategoryShown | frontend/src/pages/Categories.jsx:117 | every usage category has a row, and row i is listed category i |
| CategoriesPage.ShowNet | frontend/src/pages/Categories.jsx:256-258 | "+" iff income >= expense, a non-negative magnitude |
| CategoriesPage.ShowNetRoundTrip | frontend/src/pages/Categories.jsx:291-292 | sign and magnitude read back give income − expense; a zero net shows "+0" |
| GoalsPage.GoalPercent | frontend/src/pages/Goals.jsx:250-253 | 0 for a target <= 0; at most 100; round(current/target·100) below 100; non-negative for current >= 0; 100 at or past the target |
| GoalsPage.RoundedPercentBounds | frontend/src/pages/Goals.jsx:253 | the rounded percentage is non-negative for current >= 0 and at least 100 at or past the target |
| GoalsPage.CompletedGoalShowsFull | frontend/src/pages/Goals.jsx:250-255 | a stored goal at its target is completed and shows 100; every stored goal shows 0..100 |
| GoalsPage.ActiveGoalShownFull | frontend/src/pages/Goals.jsx:252-255 | 996 of 1000 shows 100% while the goal is still active and offers "Add progress" |
| GoalsPage.Totals | frontend/src/pages/Goals.jsx:153-160 | the sums of targets and saved amounts |
| GoalsPage.TotalsOfStoredGoals | frontend/src/pages/Goals.jsx:153-160 | over stored goals the saved total is non-negative and the target total at least the goal count |
| GoalsPage.CompletedCount | frontend/src/pages/Goals.jsx:161 | at most the goal count; 0 iff none is completed; the count iff all are |
| GoalsPage.CountAll | frontend/src/pages/Goals.jsx:161 | the completed filter is empty iff none is completed, and keeps everything iff all are |
| GoalsPage.CreatePayload | frontend/src/pages/Goals.jsx:64-78 | nothing is sent iff the name or target text is empty; otherwise name, numeric target, the deadline when given, and the note |
| GoalsPage.ZeroTargetRefusedByServer | frontend/src/pages/Goals.jsx:66 | a target of "0" passes the page and is refused by the server |
| GoalsPage.SentFormCreatesGoal | frontend/src/pages/Goals.jsx:73-78 | a sent form with a positive target, a non-blank name and the date input's deadline (empty or a real day) creates an active goal at 0 with that target and deadline |
| GoalsPage.ContributionToSend | frontend/src/pages/Goals.jsx:126-130 | an amount is sent iff it is a number > 0 |
| GoalsPage.SentContributionApplies | frontend/src/pages/Goals.jsx:126-134 | what the page sends is never a 400: a stored goal grows by exactly that amount |
| GoalsPage.DeleteLocally | frontend/src/pages/Goals.jsx:107 | exactly the goals with another id remain |
| GoalsPage.AddProgressBelowTarget | frontend/src/pages/Goals.jsx:304 | on a stored goal "Add progress" is offered only below the target |

## Left out

- I/O and plumbing: Express requests and responses, Mongoose queries and aggregation pipelines, ObjectId casting, JSON encoding, and the axios wrappers. Collections are in-memory sequences, ids and `createdAt` come from a counter, and answers are a `Response` value whose message texts are kept only as strings.
- Authentication (`req.userId` is a parameter), the Redux store beyond the category slice, the `budgetsSlice` setters, toasts, modals, JSX, Recharts rendering and `Intl` currency formatting.
- Floating point: amounts are integers rather than JavaScript doubles, so sums never round and the NaN paths (a non-numeric contribution, a row without `amount` in the chart builders, `new Date(undefined)` in the sorts) are not modelled. The percentages (`Budgets.ProgressRowFor`, the alert messages of `Alerts.BudgetAlertFor` and `Alerts.GoalAlertFor`, `Analytics.SharePct`, the Dashboard shares, `GoalsPage.GoalPercent`) round the exact quotient. JavaScript rounds `a / b` and then `· 100`, so at an exact half it can round down where the model rounds up: 23 / 40 · 100 is 57.49999999999999 in doubles, so `Math.round` gives 57 where the model gives 58.
- Non-numeric form texts are None; the goal alert's `progress` is a `real`.
- Charts.DayOf: an undated row is skipped before its key is read. Charts.RowMs: an undated row sorts as time 0, where JavaScript compares NaN.
- Charts.BuildDailyChart: missing amounts are read as 0 (`RowAmount`); the JavaScript builders add `tx.amount` itself, which would give NaN.
- Time zones: local time is taken to be UTC. The day key of `toISOString()` is the date of the instant, and `YYYY-MM-DD` string order is chronological order (years of four digits).
- Month roll-over is modelled, not excluded. `new Date(year, month - 1, 1)` with a month outside 1..12 carries into the neighbouring years (`Calendar.NormalMonth`), so no member requires 1 <= month <= 12.
- Mongoose schema behaviour: `trim` setters and Mongoose's `required` on the stored strings are not modelled, except the blank goal name, which is a 500. `findOneAndUpdate` runs no validators, which is modelled (`Transactions.UpdateSkipsValidation`).
- Alerts.GetAlerts: the budget query includes `type: "expense"`, a field budgets do not have. Whether that matches depends on Mongoose's `strictQuery`, so the budget list is an input.
- Transactions.ApplyPatch: a body `type` outside "income"/"expense" or a `recurringFrequency` outside the enum, which `findOneAndUpdate` stores because it runs no validators, cannot be expressed, since the model's type and frequency are enums. A body that changes `_id`, which MongoDB answers with an error (a 500), cannot be expressed either.
- Sorting.StrLe: compares strings by code point. That is the order of Mongo's `$sort` on UTF-8 strings (byte order and code-point order agree) under the default binary collation; a collection with another collation, and JavaScript's default sort, which compares UTF-16 code units and so differs from code-point order for characters beyond the Basic Multilingual Plane, are not modelled.
- Alerts.GoalAlertFor: the title the source reads (`g.title`) is a field goals do not have, so it is always None.
- The order of `$group` results is first occurrence. Mongo does not promise an order, so only the sorted outputs (monthly, usage) are order-specified.
- Sort ties are broken by the original order (a stable sort). Mongo's and JavaScript's orders among equal dates or amounts are not promised.
- Lower-casing in the search covers ASCII letters only.
- Concurrency: update and contribution read and then save; they are modelled as one sequential step.
- Transactions.ListTransactions: a negative limit returns at most its magnitude and counts pages by it, as MongoDB's `limit` does. A page below 1 with a positive limit is the 500 a negative skip produces. A non-numeric or fractional `page` or `limit` is not modelled: the `= 1` and `= 10` defaults replace only a missing value, so `?page=abc` makes the skip NaN. Whether the database then refuses the query (a 500) or the page is reported as NaN is left open.
- The Expense page's delete only refetches, so it has no local delete to model.
