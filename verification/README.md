# Basiq PFM: a Dafny model of the personal-finance dashboard's logic

Basiq PFM is a Next.js demo. A user signs up with an e-mail address and connects a bank
through the Basiq consent page. The app then waits for the bank-data job to finish and
shows a dashboard of accounts, transactions, spending charts, budgets, reports and
insights. This project models the parts of that app with decisions worth stating:

- **Job status.** The status panel shown while a bank-data job runs
  (`JobDisplay`). The client poller with its attempt budget (`JobPolling`). The
  dashboard's own ten-attempt wait (`Dashboard.WaitForJob`). The report-job poll
  of the report route (`ReportJobRoute`).
- **Transaction reducers.** The seven-level category chain (`Categories`). The
  list's filters and paging (`TransactionList`). The top-eight-plus-"Other"
  spending chart (`CategorySpending`). The income/expense report (`Reports`). The
  monthly spending series (`SpendingChart`). The budget panel (`Budget`). The
  dashboard's trends, insights and account normalisation (`Dashboard`). These
  rest on a keyed-total library (`Ledger`), debit/credit sums and date windows
  (`Flows`), and a proleptic Gregorian calendar (`Calendar`).
- **Token provider.** The server-token cache with its thirty-minute refresh rule,
  client tokens, the Basic authorization value and the token endpoint's error
  classification (`TokenProvider`). These rest on UTF-8 (`Utf8`), base 64 (`Base64`)
  and percent-encoding (`Uri`), each with its round trip proved.
- **API routes.** Each handler is a pure function from its inputs and the outcomes
  of its outside calls to the response and the calls it made, in order (`Http`,
  `UsersRoute`, `DataJobsRoute`, `ReportsRoute`, `TransactionsRoute`,
  `AccountsRoute`, `ConsentRoute`, `ConnectMoreRoute`, `TokenRoute`,
  `ReportJobRoute`). The sign-up route's e-mail pattern is `Email`.
- **Client flows.** The onboarding page's step machine, sign-up, consent redirect
  and connection test (`Onboarding`). The bank-connection callback page
  (`AuthCallback`).

Conventions:

- Money is in integer cents and percentages are reals.
- Dates are calendar dates. A date field is missing (absent or empty), unparsable,
  or parsed; every comparison with a date that is not parsed is false, as with
  JavaScript's invalid `Date`.
- JSON values are a small datatype (`Json`), read with JavaScript's property
  lookup, truthiness and string conversion.
- Everything the code asks of the outside world is a parameter: fetch answers,
  token outcomes, the stored user record, the clock reading and the API key.
  A polling loop reads its answers from a function of the attempt number.

## Model

| member | source | states |
|---|---|---|
| JobDisplay.CountDone | components/job-polling-display.tsx:34 | the completed count is at most the step count; it is 0 exactly when no step has status "success", and equals the step count exactly when every step has it |
| JobDisplay.Progress | components/job-polling-display.tsx:32-35 | progress lies in [0, 100]; it is 0 exactly when no step succeeded (including no steps) and 100 exactly when there are steps and all succeeded |
| JobDisplay.Percentage | components/job-polling-display.tsx:35 | a share of the steps as a percentage lies in [0, 100], and is 0 or 100 exactly for none or all of them |
| JobDisplay.FirstFailing | components/job-polling-display.tsx:46 | the step found is the first failed/error step, and none is found exactly when no step fails |
| JobDisplay.Derive | components/job-polling-display.tsx:32-62 | the status is error exactly when there is a polling error or a failing step; success exactly when there is none, the last step succeeded and polling stopped; polling, idle and loading exactly in their remaining cases; the error title and message follow the result-title / step-title / default and jobError / result-detail / default chains |
| JobDisplay.FailurePrecedence | components/job-polling-display.tsx:41-49 | any failing step forces the error status whatever the other steps and isPolling, and a polling error becomes the message |
| JobDisplay.AllDoneIsSuccess | components/job-polling-display.tsx:35-53 | all steps succeeded, polling stopped and no error: success at 100 percent |
| JobDisplay.SuccessIgnoresEarlierSteps | components/job-polling-display.tsx:42-50 | example: a job whose last step succeeded while an earlier one is pending shows success at 50 percent, an instance of the rule in `JobDisplay.Derive` |
| JobDisplay.FailedStepDetailScenario | components/job-polling-display.tsx:46-49 | example: a failed step with a result detail and no result title gives the step's title and the detail as message, an instance of the chains in `JobDisplay.Derive` |
| JobDisplay.StepStatusClass | components/job-polling-display.tsx:80-94 | success/completed map to completed, active/in-progress to active, failed/error to failed, every other status to pending |
| JobDisplay.StepClassAgreesWithFailure | components/job-polling-display.tsx:41-94 | the failed class marks exactly the steps the panel counts as failing, and a succeeded step is always shown completed |
| JobPolling.Classify | hooks/use-basiq-job-polling.ts:44-81 | the checks of one response in order: a thrown fetch, a body error field, a non-ok status (message, first detail, default), status success (the same job), failed/error ("Job failed: " plus message, first detail, default); only an ok non-terminal job continues |
| JobPolling.Poll | hooks/use-basiq-job-polling.ts:42-91 | between 1 and max(budget, 1) fetches; every fetch before the last was undecided; the run resolves exactly when the last fetch finished, rejects with the last error, or times out with the fixed message once the budget is used |
| JobPolling.PollJobStatus | hooks/use-basiq-job-polling.ts:37-106 | polling is off when the call settles; a resolution leaves no error and displays the job; a rejection records its message as jobError |
| JobPolling.NeverDecidedTimesOut | hooks/use-basiq-job-polling.ts:83-88 | a job that never decides is fetched exactly max(budget, 1) times and ends with the timeout message |
| JobPolling.DefaultBudget | hooks/use-basiq-job-polling.ts:37-88 | with the default budget an undecided job is fetched 30 times and leaves the timeout message as jobError |
| JobPolling.SucceedsAt | hooks/use-basiq-job-polling.ts:69-91 | a job that succeeds at attempt k within the budget resolves to that job after exactly k + 1 fetches |
| JobPolling.StartResetsState | hooks/use-basiq-job-polling.ts:38-39 | the run does not depend on the polling flag or error held before it starts |
| Dashboard.MonthAgoBeforeWeekAgo | app/dashboard/page.tsx:127-171 | the week and two-week bounds are 7 and 14 days back, and the month bound lies 28 to 31 days back, so the month window contains the week window |
| Dashboard.SavingsRate | app/dashboard/page.tsx:145-156 | the rate lies in [0, 100]; it is 100 exactly when there is income and no spending, and 0 exactly when there is no income or spending reaches income |
| Dashboard.CalculateTrends | app/dashboard/page.tsx:125-160 | month spending and income and week spending are the debit and credit sums of the month and week windows; week spending never exceeds month spending; the savings rate is positive exactly when month spending is below month income |
| Dashboard.SpendingEntries | app/dashboard/page.tsx:178-198 | one positive item per debit, at most one per transaction, whose total is the debit total |
| Dashboard.Alerts | app/dashboard/page.tsx:205-223 | every alert emitted has previous > 0 and current > 1.2 times previous |
| Dashboard.AlertsExactly | app/dashboard/page.tsx:205-223 | a category gets an alert exactly when it has this-week spending and that spending passes the 20 percent test against last week's |
| Dashboard.IncomeInsights | app/dashboard/page.tsx:226-240 | the income insight exists exactly when some amount is positive, and carries the credit total and the number of credits, whose quotient is the average shown |
| Dashboard.GenerateInsights | app/dashboard/page.tsx:164-167 | an empty transaction list gives no insights |
| Dashboard.InsightsIncome | app/dashboard/page.tsx:226-240 | the generated insights include the income insight exactly when some transaction is a credit |
| Dashboard.InsightsBudget | app/dashboard/page.tsx:245-259 | the budget insight appears exactly when there are transactions and this week's spending is below $800 |
| Dashboard.InsightsAlert | app/dashboard/page.tsx:167-223 | a category is flagged exactly when there are transactions and its this-week spending exceeds last week's positive spending by more than 20 percent |
| Dashboard.AlertsOfGroups | app/dashboard/page.tsx:194-209 | alerting on grouped totals is alerting on the per-category sums of the raw items |
| Dashboard.AlertsUnaffected | app/dashboard/page.tsx:225-259 | appending the income and budget insights never adds or removes an alert |
| Dashboard.WaitForJob | app/dashboard/page.tsx:278-291 | the loop stops at the first fetch whose steps are non-empty and all "success", within ten fetches; it is incomplete exactly when all ten fetches answered without that; a thrown fetch aborts with its message, and every fetch before it answered without completing |
| Dashboard.Normalize | app/dashboard/page.tsx:310-320 | the account is kept; the type is class.type when truthy, else "unknown" (never empty); the number is accountNo, else accountNumber, and empty exactly when both are falsy |
| Dashboard.NormalizeAccounts | app/dashboard/page.tsx:310-320 | one account per payload account, in order, for a bare array or the data field of an envelope (none when that field is missing), with `type` the class type or "unknown" and `accountNo` the first truthy of `accountNo` and `accountNumber`, else "" |
| Dashboard.NetWorthAppend | app/dashboard/page.tsx:325 | net worth adds up over any split of the account list |
| Dashboard.ChooseInsights | app/dashboard/page.tsx:323 | an insight array from the server is used as is, so an empty one shows no insights; only its absence falls back to the generated insights |
| Dashboard.EmptyServerInsightsHideGenerated | app/dashboard/page.tsx:323 | an empty server array hides generated insights that would otherwise be non-empty |
| Dashboard.Load | app/dashboard/page.tsx:265-340 | no stored user goes home; a thrown job fetch shows its message and an incomplete wait the fixed error; after the wait a rejected `Promise.all` shows its rejection before any body is parsed; then the first body that fails to parse, in the order accounts, transactions, reports, shows its error; then a `null` body shows the TypeError of reading `data` or `insights` off it; the dashboard loads exactly when none of these happens, naming the user by the e-mail part before "@", with the net worth, the payload accounts in order, the transactions or [], the server or generated insights and the trends of those transactions |
| Dashboard.RejectionBeatsParseFailure | app/dashboard/page.tsx:300-308 | a rejected fetch is shown whatever the bodies hold, and an accounts body that does not parse is shown only once all three fetches have answered |
| Dashboard.NoJobIdSkipsWait | app/dashboard/page.tsx:273-278 | without a usable job id the job endpoint's answers make no difference |
| Dashboard.NeverCompleteBlocks | app/dashboard/page.tsx:279-296 | ten answers without steps block the dashboard with "Job failed to complete. Please try again." |
| Categories.ResolvedCategory | app/dashboard/components/Transactions.tsx:203-210 | a category is resolved exactly when one of the seven candidates is non-empty, and it is the first such candidate |
| Categories.DisplayCategory | app/dashboard/components/Reports.tsx:64-72 | the displayed category is never empty: the resolved category when there is one, "Uncategorized" when all seven candidates are empty |
| Categories.SubclassFirst | app/dashboard/components/Reports.tsx:65 | a non-empty ANZSIC subclass title is always the category |
| Categories.UnenrichedFallback | app/dashboard/components/Reports.tsx:70-72 | with no enrichment the category is class.title, else subClass.title, else "Uncategorized" |
| Ledger.IndexOf | app/dashboard/components/Reports.tsx:76 | the first position holding the key, or -1 exactly when the key is absent |
| Ledger.TotalAppend | app/dashboard/components/CategorySpending.tsx:81 | the total of a concatenation is the sum of the totals |
| Ledger.SumForAppend | app/dashboard/components/CategorySpending.tsx:66 | a key's sum over a concatenation is the sum of its sums |
| Ledger.TotalUpdate | app/dashboard/components/CategorySpending.tsx:66 | replacing one entry changes the total by the difference of the two values |
| Ledger.GetIsSumFor | app/dashboard/components/CategorySpending.tsx:66 | with distinct keys, reading a key gives the sum recorded under it |
| Ledger.NoKeyNoSum | app/dashboard/components/CategorySpending.tsx:66 | an absent key sums to 0 |
| Ledger.SumForUpdate | app/dashboard/components/CategorySpending.tsx:66 | replacing the entry at one position changes a key's sum by losing the old value when the old entry has that key and gaining the new value when the new entry has it; every other key's sum is unchanged |
| Ledger.AddNewKey | app/dashboard/components/CategorySpending.tsx:66 | accumulating under a new key keeps keys distinct, adds the amount to the total and to that key's sum only, and adds the key |
| Ledger.AddExistingKey | app/dashboard/components/CategorySpending.tsx:66 | accumulating under a present key keeps keys distinct, adds the amount to the total and to that key's sum only, and adds no key |
| Ledger.AddCorrect | app/dashboard/components/CategorySpending.tsx:66 | one accumulation step keeps keys distinct and adds the amount to the total and to that key's sum only |
| Ledger.GroupCorrect | app/dashboard/components/CategorySpending.tsx:54-67 | grouping gives one entry per distinct key of the items, each holding the sum of that key's amounts, with the grand total kept |
| Ledger.HasKeyInit | app/dashboard/components/Reports.tsx:83-85 | a key is present exactly when it is in the prefix or is the last item's key |
| Ledger.PutCorrect | app/dashboard/components/Reports.tsx:83-85 | `acc[key] = value` on distinct keys keeps them distinct, adds the key with its value, and keeps every entry of another key |
| Ledger.AssignCorrect | app/dashboard/components/Reports.tsx:83-85 | assigning keeps one entry per key of the items, each holding the value of that key's last item |
| Ledger.InsertDescCorrect | app/dashboard/components/CategorySpending.tsx:71 | inserting into a descending list keeps it descending and adds exactly the new entry |
| Ledger.SortDescCorrect | app/dashboard/components/CategorySpending.tsx:69-71 | sorting gives a descending permutation of the input |
| Ledger.SortDescStable | app/dashboard/components/Reports.tsx:99-100 | the sort is stable: for every value, the entries holding it come out in the order they went in, so ties keep insertion order when the top three or the eight named slices are taken |
| Ledger.SortDescDistinct | app/dashboard/components/Reports.tsx:99-100 | sorting keeps keys distinct and keeps the same keys |
| Ledger.InsertDescDistinct | app/dashboard/components/Reports.tsx:99-100 | inserting an entry with a new key into a distinct-keyed list keeps keys distinct |
| Ledger.TotalOfPermutation | app/dashboard/components/CategorySpending.tsx:69-81 | two lists holding the same entries have the same total |
| Flows.CreditCount | app/dashboard/page.tsx:226-227 | the credit count is at most the list length and is 0 exactly when no amount is positive |
| Flows.SpendingOne | app/dashboard/page.tsx:133-135 | one transaction spends its debit |
| Flows.SpendingAppend | app/dashboard/page.tsx:133-135 | spending adds up over a concatenation |
| Flows.IncomeAppend | app/dashboard/page.tsx:137-139 | income adds up over a concatenation |
| Flows.FlowSigns | app/dashboard/page.tsx:133-143 | spending is 0 exactly when no amount is negative, income is 0 exactly when no amount is positive, so zero amounts fall in neither |
| Flows.Window | app/dashboard/page.tsx:130-176 | a window keeps exactly the transactions posted within its bounds |
| Flows.WindowOne | app/dashboard/page.tsx:173-176 | one transaction is kept exactly when it falls in the window |
| Flows.WindowAppend | app/dashboard/page.tsx:173-176 | the window of a concatenation is the concatenation of the windows, so order and repeats are kept |
| Flows.LaterWindowSpendsLess | app/dashboard/page.tsx:130-143 | a later lower bound can only reduce the spending of an open window |
| Flows.WindowSplit | app/dashboard/page.tsx:173-176 | the spending from a lower bound splits into the spending before and from any later bound |
| Calendar.ShiftMonth | app/dashboard/components/SpendingChart.tsx:30-49 | the month shifted by k, with negative offsets rolled into earlier years, is a month from 1 to 12 exactly k months away |
| Calendar.DayNumberOfMonthShift | app/dashboard/components/SpendingChart.tsx:30-49 | new Date(y, m - 1 + k, 1) is the first day of the month k months away |
| Calendar.YearLength | app/dashboard/components/SpendingChart.tsx:30 | a year has 366 days when it is a leap year and 365 otherwise |
| Calendar.NextMonthStart | app/dashboard/components/SpendingChart.tsx:49 | the next month starts exactly the month's length after this one |
| Calendar.MonthStartGrows | app/dashboard/components/SpendingChart.tsx:34 | a later month starts after every day of an earlier month |
| Calendar.OnOrAfterMonthStart | app/dashboard/components/Budget.tsx:30-45 | a valid date is on or after the first of a month exactly when it lies in that month or later |
| Calendar.OrdinalMonotone | app/dashboard/components/Transactions.tsx:213-219 | valid dates are ordered by their day numbers exactly as in the calendar |
| TransactionList.CategoryOptions | app/dashboard/components/Transactions.tsx:176-192 | the options are strictly ascending (so duplicate-free) and are exactly the labels the chain resolves to, so never "Uncategorized" by default and never empty |
| TransactionList.Resolved | app/dashboard/components/Transactions.tsx:178-190 | the collected labels are exactly the resolved categories of the transactions |
| TransactionList.Filter | app/dashboard/components/Transactions.tsx:194-220 | the result keeps exactly the input transactions that pass the search, category and date filters, and is no longer than the input |
| TransactionList.FilterOne | app/dashboard/components/Transactions.tsx:194-220 | one transaction is kept exactly when it passes all three filters |
| TransactionList.FilterAppend | app/dashboard/components/Transactions.tsx:194-220 | filtering a concatenation concatenates the filtered parts, so order and repeats are kept |
| TransactionList.UnparsablePostDatePasses | app/dashboard/components/Transactions.tsx:215-217 | a post date that is present but not a date passes every date range, whatever the transaction date |
| TransactionList.MissingPostDateFallsBack | app/dashboard/components/Transactions.tsx:215-217 | only a missing post date falls back to the transaction date, which then decides the range test |
| TransactionList.FilterIdempotent | app/dashboard/components/Transactions.tsx:194-220 | filtering the filtered list again changes nothing |
| TransactionList.ClearedFilters | app/dashboard/components/Transactions.tsx:197-214 | with empty search, no category and no dates, exactly the transactions with a description or a merchant name remain |
| TransactionList.OptionSelectsSomething | app/dashboard/components/Transactions.tsx:176-212 | every offered category matches at least one transaction |
| TransactionList.Visible | app/dashboard/components/Transactions.tsx:222-224 | the view is a prefix of the filtered list of length min(count, filtered length) |
| TransactionList.ShowMoreExactlyWhenHidden | app/dashboard/components/Transactions.tsx:471 | "Show More" is offered exactly when the view hides some filtered transaction |
| TransactionList.CountAfter | app/dashboard/components/Transactions.tsx:171 | the visible count is a positive multiple of 5 |
| TransactionList.EnoughPressesShowAll | app/dashboard/components/Transactions.tsx:223 | once 5 plus 5 per press reaches the list length, the whole filtered list is shown |
| TransactionList.CountAfterValue | app/dashboard/components/Transactions.tsx:171 | after k presses the count is 5 (k + 1) |
| TransactionList.TransactionType | app/dashboard/components/Transactions.tsx:227-229 | a transaction is a debit exactly when its amount is negative, so 0 is a credit |
| TransactionList.CategoryColor | app/dashboard/components/Transactions.tsx:138-164 | each listed label maps to its colour group case-insensitively (the shopping, transport, home, food, income and transfer groups), and every other label is gray |
| TransactionList.ColorIgnoresCase | app/dashboard/components/Transactions.tsx:139 | a label and its lower-case form get the same colour |
| TransactionList.RowCategory | app/dashboard/components/Transactions.tsx:334-342 | the row label is the resolved category, or "Uncategorized" when none resolves; selecting it as category keeps the row exactly when the row resolves to a category |
| CategorySpending.ChartCategory | app/dashboard/components/CategorySpending.tsx:55-63 | the label is never empty: the first non-empty enrichment title, else the class string |
| CategorySpending.Expenses | app/dashboard/components/CategorySpending.tsx:48-66 | the filter throws exactly when some debit has an object-shaped class; otherwise every item is positive and the items total the payment debits' spending |
| CategorySpending.TopWithOther | app/dashboard/components/CategorySpending.tsx:73-75 | at most n + 1 slices; a list of at most n is kept as is; a longer one keeps its first n entries |
| CategorySpending.TopWithOtherTotal | app/dashboard/components/CategorySpending.tsx:73-75 | folding the tail into "Other" keeps the total |
| CategorySpending.TotalNonNegative | app/dashboard/components/CategorySpending.tsx:74-75 | non-negative values have a non-negative total |
| CategorySpending.CategoryData | app/dashboard/components/CategorySpending.tsx:45-78 | the chart throws exactly when a debit has an object-shaped class, and has at most nine slices otherwise |
| CategorySpending.ChartTotalIsPaymentSpending | app/dashboard/components/CategorySpending.tsx:66-81 | the sum of the slices is the total of all payment debits |
| CategorySpending.SumForNonNegative | app/dashboard/components/CategorySpending.tsx:66 | non-negative values give non-negative per-key sums |
| CategorySpending.TopSlicesDescend | app/dashboard/components/CategorySpending.tsx:69-73 | the top slices come in descending order of value |
| CategorySpending.CategorySlices | app/dashboard/components/CategorySpending.tsx:66-78 | each named slice is a distinct category of the payment debits showing that category's spending, no category left out spends more than any named slice, and a ninth slice is "Other" |
| CategorySpending.SlicesAreCategorySums | app/dashboard/components/CategorySpending.tsx:66-78 | each named slice is a category of the payment debits and shows that category's total spending |
| CategorySpending.SlicesDistinct | app/dashboard/components/CategorySpending.tsx:66-78 | no two named slices share a category |
| CategorySpending.SlicesDominate | app/dashboard/components/CategorySpending.tsx:66-78 | a category left out of the named slices spends no more than any named slice |
| CategorySpending.NinthIsOther | app/dashboard/components/CategorySpending.tsx:72-78 | a slice after the eight named ones is the folded "Other" slice |
| CategorySpending.NeverUncategorized | app/dashboard/components/CategorySpending.tsx:61-63 | a payment debit is labelled "Uncategorized" only when a title or its class literally says so |
| Reports.IncomeItems | app/dashboard/components/Reports.tsx:74-76 | every income item is positive |
| Reports.ExpenseItems | app/dashboard/components/Reports.tsx:77-79 | every expense item is non-negative, zero amounts included |
| Reports.ItemTotals | app/dashboard/components/Reports.tsx:74-80 | the income items add up to the credits and the expense items to the absolute debits |
| Reports.IncomeKeys | app/dashboard/components/Reports.tsx:74-76 | a category has income exactly when some positive transaction resolves to it |
| Reports.ExpenseKeys | app/dashboard/components/Reports.tsx:77-79 | a category has expenses exactly when some non-positive transaction resolves to it |
| Reports.SplitLast | app/dashboard/components/Reports.tsx:74-80 | the last transaction adds its category to the income side when positive and to the expense side otherwise |
| Reports.Summarize | app/dashboard/components/Reports.tsx:74-87 | the totals are the credits and the absolute debits, each side's categories are distinct, total that side, and hold each category's item sum, account names are distinct, and netFlow is income minus expenses |
| Reports.NetFlowIsAmountSum | app/dashboard/components/Reports.tsx:74-87 | the net flow is the plain sum of all amounts |
| Reports.ReportCategoriesAgree | app/dashboard/components/Reports.tsx:74-80 | each side's categories are distinct, total that side's total, and are exactly the categories some transaction of that side resolves to |
| Reports.CategoryIncome | app/dashboard/components/Reports.tsx:76-79 | a category's total on each side is the sum of its items on that side |
| Reports.BalancesLastWins | app/dashboard/components/Reports.tsx:83-85 | each account name appears once and holds the balance of the last account with that name |
| Reports.TopThree | app/dashboard/components/Reports.tsx:99-100 | the top min(3, n) categories, sorted descending, drawn from the list, none smaller than a category left out |
| SpendingChart.MonthName | app/dashboard/components/SpendingChart.tsx:36-39 | a month's short name has three letters |
| SpendingChart.Label | app/dashboard/components/SpendingChart.tsx:36-50 | a "Mon YY" label has six characters |
| SpendingChart.LabelInjective | app/dashboard/components/SpendingChart.tsx:36-50 | two labels agree exactly when the months agree and the years agree modulo 100 |
| SpendingChart.ChartItems | app/dashboard/components/SpendingChart.tsx:32-45 | every bucketed item is a positive debit |
| SpendingChart.ChartData | app/dashboard/components/SpendingChart.tsx:27-57 | exactly monthsBack bars (none for a non-positive count), bar j labelled with its month |
| SpendingChart.BarsAreConsecutive | app/dashboard/components/SpendingChart.tsx:48-50 | the bars run through consecutive months, oldest first, and the last is the current month |
| SpendingChart.SameMonthCount | app/dashboard/components/SpendingChart.tsx:49 | equal month counts mean the same year and month |
| SpendingChart.InBar | app/dashboard/components/SpendingChart.tsx:30-36 | a debit dated no later than today is counted in bar j exactly when it falls in bar j's month, for spans of at most a century |
| SpendingChart.CenturyApart | app/dashboard/components/SpendingChart.tsx:38 | years less than a century apart with the same last two digits are equal |
| SpendingChart.BarIsBucket | app/dashboard/components/SpendingChart.tsx:53-55 | a bar holds its label's bucket total, 0 when the bucket is empty |
| SpendingChart.BucketIsMonthSpending | app/dashboard/components/SpendingChart.tsx:32-45 | with no future-dated transaction, a bar's bucket is exactly the debits of its month |
| SpendingChart.ItemsStep | app/dashboard/components/SpendingChart.tsx:42-44 | a transaction adds its debit to its own bucket only when it is counted |
| SpendingChart.CountedIffInMonth | app/dashboard/components/SpendingChart.tsx:33-36 | the per-transaction form of the bar rule, with unparsable dates never matching a month |
| SpendingChart.ChartShowsMonthSpending | app/dashboard/components/SpendingChart.tsx:27-57 | with no future-dated transaction, each bar is labelled with its month and shows exactly that month's spending |
| SpendingChart.CenturyAheadCollides | app/dashboard/components/SpendingChart.tsx:34-43 | a debit dated a century ahead shares the current month's label and is counted in it |
| Budget.BudgetCategory | app/dashboard/components/Budget.tsx:37 | the category is class.title, else subClass.title, else "Uncategorized", and never empty |
| Budget.BudgetFor | app/dashboard/components/Budget.tsx:59-72 | the budget is positive: the table value when listed, else 100 dollars |
| Budget.StartOfMonth | app/dashboard/components/Budget.tsx:30 | the bound is the first day of the current month |
| Budget.BudgetItems | app/dashboard/components/Budget.tsx:35-45 | every item is a positive debit of this month |
| Budget.Rows | app/dashboard/components/Budget.tsx:69-108 | one row per category entry, carrying its spending and its budget |
| Budget.ItemsAreCategorySpent | app/dashboard/components/Budget.tsx:40-45 | a category's items add up to its month spending, and all items to the month's spending |
| Budget.ItemKeys | app/dashboard/components/Budget.tsx:40-45 | a category has items exactly when some debit of it was posted this month |
| Budget.SpentInLast | app/dashboard/components/Budget.tsx:35-45 | the last transaction adds its category exactly when it is a counted debit |
| Budget.BudgetCategoriesCorrect | app/dashboard/components/Budget.tsx:28-110 | the rows are sorted by spending, name each category once, and carry its positive month spending and its budget |
| Budget.IndexOfDistinct | app/dashboard/components/Budget.tsx:69-71 | with distinct keys each entry is found at its own position |
| Budget.GroupPositive | app/dashboard/components/Budget.tsx:43-44 | grouping positive items gives positive totals |
| Budget.SumForPositive | app/dashboard/components/Budget.tsx:43-44 | a key present among positive items has a positive sum |
| Budget.BudgetCategoryShown | app/dashboard/components/Budget.tsx:42-69 | a category is shown exactly when some debit of it was posted this month |
| Budget.TotalSpentIsMonthSpending | app/dashboard/components/Budget.tsx:112 | totalSpent is this month's spending |
| Budget.TotalBudgetShown | app/dashboard/components/Budget.tsx:113 | totalBudget is the sum of the table budgets of the shown categories, between 50 and 500 dollars per category, and positive exactly when some debit was posted this month |
| Budget.RowTotals | app/dashboard/components/Budget.tsx:112 | the row spending adds up to the entries' total |
| Budget.Classify | app/dashboard/components/Budget.tsx:154-156 | over budget exactly when the percentage exceeds 100, near the limit exactly when it lies in (80, 100], fine otherwise |
| Budget.BarValue | app/dashboard/components/Budget.tsx:154-197 | the bar shows the percentage capped at 100 |
| Budget.FullBar | app/dashboard/components/Budget.tsx:155-197 | the bar never passes 100, is full exactly when spending reaches the budget, and is non-negative for non-negative spending |
| Text.FirstTruthy | app/auth/callback/page.tsx:21 | `a \|\| b \|\| …` yields something exactly when some candidate is truthy, and then the first truthy one |
| Text.LowerIdempotent | app/dashboard/components/Transactions.tsx:198-199 | the case folding used by the search is idempotent |
| Text.Contains | app/page.tsx:168 | `includes` holds exactly when the substring occurs at some position |
| Text.Before | app/dashboard/page.tsx:330 | the prefix before the first separator holds no separator, and is all of the string or is followed by the separator |
| Text.LessTransitive | app/dashboard/components/Transactions.tsx:177-191 | the default sort order on strings is transitive |
| Text.LessTotal | app/dashboard/components/Transactions.tsx:177-191 | any two distinct strings are ordered one way or the other |
| Text.LessIrreflexive | app/dashboard/components/Transactions.tsx:177-191 | no string sorts before itself |
| Text.SortedDistinct | app/dashboard/components/Transactions.tsx:177-191 | `[...new Set(xs)].sort()` is strictly ascending and holds exactly the elements of `xs` |
| Text.InsertSorted | app/dashboard/components/Transactions.tsx:177-191 | inserting keeps the list strictly ascending and adds exactly the new element |
| Text.StrictlyAscendingDistinct | app/dashboard/components/Transactions.tsx:177-191 | a strictly ascending list has no repeated entry |
| Json.Get | app/api/basiq/users/route.ts:46 | a property read finds a field with that key, and is undefined only when no field has it |
| Json.Lookup | app/api/basiq/users/route.ts:46 | of repeated keys, the last one wins, as after `JSON.parse` |
| Json.GetAt | app/api/basiq/users/route.ts:64-70 | a field no later field shadows is what reading its key returns |
| Json.FirstItem | app/api/basiq/basiq-report/route.ts:74 | `a?.[0]` of a non-empty array is its first element, and undefined for undefined, null, booleans and numbers |
| Json.Or | app/api/basiq/transactions/route.ts:52 | `a \|\| fallback` is `a` exactly when `a` is truthy |
| Json.NatToString | app/api/basiq/basiq-report/route.ts:23-24 | a number prints as a non-empty run of decimal digits |
| Json.NatToStringValue | app/api/basiq/basiq-report/route.ts:23-24 | reading back a printed number gives the number |
| Json.ErrorBody | app/api/basiq/data-jobs/route.ts:10 | `{ error: message }` carries the message under `error` |
| Http.ErrorResponse | app/api/basiq/data-jobs/route.ts:10 | the response has the given status and the message under `error` |
| Http.Detailed | app/api/basiq/users/route.ts:73-79 | the response carries both the fixed message under `error` and the cause under `details` |
| Http.RequestFields | app/api/basiq/users/route.ts:6 | destructuring the request body succeeds exactly when it parsed and is not `null`, and then yields the parsed body |
| Utf8.EncodeChar | lib/basiq-token.ts:82 | a character encodes to one to four bytes, a single byte exactly for ASCII, with continuation bytes after the lead |
| Utf8.DecodeEncode | lib/basiq-token.ts:82 | decoding the UTF-8 encoding of a string gives the string back |
| Utf8.DecodeFirstOfEncoding | lib/basiq-token.ts:82 | decoding reads back exactly the character an encoding starts with, and its length |
| Utf8.AsciiEncoding | lib/basiq-token.ts:82 | an ASCII string encodes to its character codes, one byte each |
| Utf8.EncodeAppend | lib/basiq-token.ts:82 | encoding distributes over concatenation |
| Base64.Encode | lib/basiq-token.ts:82 | every three bytes, or a final partial group, become four characters |
| Base64.DecodeEncode | lib/basiq-token.ts:82 | decoding an encoding gives the bytes back |
| Base64.EncodeDecode | lib/basiq-token.ts:82 | whatever decodes is exactly the encoding of what it decodes to, so the encoding is canonical |
| Base64.EncodingAlphabet | lib/basiq-token.ts:82 | an encoding holds only alphabet characters and padding |
| Base64.IndexOfAlphabet | lib/basiq-token.ts:82 | the alphabet's characters are distinct, each mapping back to its own position |
| Uri.DecodeEncode | app/api/basiq/users/route.ts:54 | `decodeURIComponent(encodeURIComponent(s)) == s` |
| Uri.EncodeUnreserved | app/api/basiq/consent/route.ts:16 | a string of unreserved characters is left as it is |
| Uri.EncodeAlphabet | app/api/basiq/consent/route.ts:16 | an encoded component holds only unreserved characters, `%` and hexadecimal digits |
| Uri.DecodeEncodedChar | app/api/basiq/users/route.ts:54 | decoding reads one encoded character off the front and continues with the rest |
| Email.MatchesIffPattern | app/api/basiq/users/route.ts:12-13 | the direct scan accepts exactly the strings of `^[^\s@]+@[^\s@]+\.[^\s@]+$` |
| Email.Rejects | app/api/basiq/users/route.ts:12-13 | an address with white space or without `@` is refused |
| TokenProvider.PreEncodedSimplified | lib/basiq-token.ts:75 | a key counts as pre-encoded exactly when it has a colon or ends in `=` |
| TokenProvider.AuthValue | lib/basiq-token.ts:75-83 | a pre-encoded key is sent as it is, and any other key as base 64 of the UTF-8 of `key:` |
| TokenProvider.RawKeyCredentials | lib/basiq-token.ts:82 | for a raw key, decoding the header value gives back exactly `key:` |
| TokenProvider.BuildRequest | lib/basiq-token.ts:50-100 | a missing or empty key fails before any request; otherwise `Basic` authorization with the scope field, plus `userId` exactly for a client token with a truthy user id |
| TokenProvider.ErrorItems | lib/basiq-token.ts:121 | one `title: detail` item per error entry, and a null entry makes the error path itself throw |
| TokenProvider.FirstTruthyJson | lib/basiq-token.ts:119 | `a \|\| b \|\| c` is the first truthy value, if any |
| TokenProvider.NewToken | lib/basiq-token.ts:49-135 | a token exactly when the key is set and an ok JSON answer has a truthy `access_token`; otherwise the thrown fetch, the invalid-JSON text, the API error, or the missing-token message |
| TokenProvider.ApiErrorItems | lib/basiq-token.ts:120-122 | an error body with a `data` array reports each entry as `title: detail`, joined by commas |
| TokenProvider.ErrorItemsValue | lib/basiq-token.ts:121 | each entry's text is its title and detail |
| TokenProvider.ApiErrorStatus | lib/basiq-token.ts:119-124 | without a `data` array the error is `HTTP status: message`, or the unknown-error text when no message field is truthy |
| TokenProvider.ServerToken | lib/basiq-token.ts:12-39 | fetches exactly when the cache is empty or older than thirty minutes; on success caches the token with the fetch's completion time; a failure leaves the cache alone |
| TokenProvider.ClientToken | lib/basiq-token.ts:27-30 | a client token is always freshly requested and is the `access_token` of an ok answer |
| TokenProvider.CachedWithinWindow | lib/basiq-token.ts:3-13 | within thirty minutes of a refresh, a second call returns the same token without fetching |
| TokenProvider.ExpiredRefetches | lib/basiq-token.ts:13 | past thirty minutes it fetches again; at exactly thirty minutes it does not |
| TokenProvider.FirstCallFetches | lib/basiq-token.ts:4-13 | the first call always fetches |
| UsersRoute.Handle | app/api/basiq/users/route.ts:4-81 | no outside call unless an e-mail is present and well-formed; 400s for a missing or malformed address; the server token is requested first, and a failed request is a 500 crash while a falsy token is a 500 "Failed to get server access token", each after that one call; with a token, the user is created with it and everything after is `AfterCreate` with those two calls |
| UsersRoute.AfterCreate | app/api/basiq/users/route.ts:39-70 | at most the client-token request is added; a thrown creation is a 500, a non-ok one forwards its status with "Failed to create user"; an unparsable or `null` body is a 500 crash, and an ok answer without a truthy id a 500 "Failed to create user"; an id `decodeURIComponent` rejects is a 500 crash; for an id that decodes, the client token is requested for the decoded id, a failed request is a 500 crash, a falsy token a 500 "Failed to generate client access token", and a truthy one the 200 sign-up body with the raw id, the decoded id, the e-mail and the token |
| UsersRoute.CreatedFields | app/api/basiq/users/route.ts:64-70 | the sign-up body carries id, userId, email, clientAccessToken and status "created" |
| UsersRoute.DecodedUserId | app/api/basiq/users/route.ts:46-70 | an id that arrives percent-encoded is returned raw as `id`, decoded as `userId`, and the client token is requested for the decoded id |
| TokenRoute.UserIdOrEmpty | app/api/basiq/token/route.ts:10 | `userId ?? ""` is the empty string exactly for an undefined or null id |
| TokenRoute.Handle | app/api/basiq/token/route.ts:4-25 | never asks for a server token; a client token is requested exactly for scope CLIENT_ACCESS, anything else is a 400; token failures become 500 with their message |
| TokenRoute.GrantedFields | app/api/basiq/token/route.ts:11 | a granted token is a bearer token lasting 3600 seconds |
| TokenRoute.ServerScopeRefused | app/api/basiq/token/route.ts:14-15 | a server-scope request is refused with no token request |
| ConnectMoreRoute.Handle | app/api/basiq/connect-more/route.ts:4-27 | a missing user id is a 400 with no call; otherwise one client-token request for it and a body with only `connectUrl` |
| ConnectMoreRoute.ConnectUrlShape | app/api/basiq/connect-more/route.ts:16 | the link is the consent page, then the token, then `&action=connect` |
| ConsentRoute.RedirectUri | app/api/basiq/consent/route.ts:12-13 | the redirect address always ends in `/auth/callback` |
| ConsentRoute.Handle | app/api/basiq/consent/route.ts:3-38 | makes no outside call; both fields required (400 otherwise); the ready body echoes the inputs with the link and redirect address |
| ConsentRoute.RedirectRecoverable | app/api/basiq/consent/route.ts:16 | the link splits back into the page, the token, and a `redirect_uri` value free of `&`, `=` and `#` that decodes to the redirect address |
| ConsentRoute.NoSeparators | app/api/basiq/consent/route.ts:16 | an encoded component holds no query separator |
| ConsentRoute.ReadyFields | app/api/basiq/consent/route.ts:21-27 | the ready body carries consentUrl, userId, clientAccessToken, redirectUri and status "ready" |
| DataJobsRoute.Handle | app/api/basiq/data-jobs/route.ts:4-51 | no call without a usable id (absent, empty or "null" is a 400); otherwise the server token, then the job fetch with it |
| DataJobsRoute.GuardFirst | app/api/basiq/data-jobs/route.ts:9-11 | without a usable id the answer does not depend on the token service or the upstream |
| DataJobsRoute.PassThrough | app/api/basiq/data-jobs/route.ts:27-43 | the upstream body is returned unchanged, with its status on error and 200 otherwise |
| ReportsRoute.Handle | app/api/basiq/reports/route.ts:4-41 | no call without a user id; otherwise the token then the insights fetch; an error status yields the empty insights with 200 |
| ReportsRoute.NeverForwardsErrorStatus | app/api/basiq/reports/route.ts:25-33 | once the upstream body parses, the answer is always 200, with empty insights on an upstream error |
| ReportsRoute.GuardFirst | app/api/basiq/reports/route.ts:9-11 | without a user id nothing is asked of the token service or the upstream |
| TransactionsRoute.TransactionsUrl | app/api/basiq/transactions/route.ts:13-25 | a URL exists exactly when a direct URL or a user id is given, and a direct URL wins |
| TransactionsRoute.ListUrl | app/api/basiq/transactions/route.ts:8-23 | the list URL names the user and the limit, 500 when none or an empty one is given |
| TransactionsRoute.Handle | app/api/basiq/transactions/route.ts:4-72 | the server token is always requested first; 400 when no URL can be built; unparsable JSON is a 502; an upstream error forwards its status with its message or the fallback |
| TransactionsRoute.TokenBeforeGuard | app/api/basiq/transactions/route.ts:11-22 | a failing token service turns even the missing-parameter answer into a 500 |
| AccountsRoute.AccountsUrl | app/api/basiq/accounts/route.ts:13-28 | a URL exists exactly when a direct URL or a user id is given, and a direct URL wins |
| AccountsRoute.AccountSegment | app/api/basiq/accounts/route.ts:23-26 | an account id adds one path segment after the list URL |
| AccountsRoute.SummaryError | app/api/basiq/accounts/route.ts:47-51 | the log line throws for a null body, and for a `data` array exactly when it holds a null account |
| AccountsRoute.Handle | app/api/basiq/accounts/route.ts:4-68 | the token is requested first; 400 without a URL; an upstream error becomes a 500 with its message; a 200 only after an ok, parsable, summarisable body |
| AccountsRoute.ResponseShape | app/api/basiq/accounts/route.ts:54-60 | a single account returns the whole body, a list returns `data` or an empty array |
| AccountsRoute.ErrorsAreInternal | app/api/basiq/accounts/route.ts:42-66 | an upstream error status never reaches the client: it is always a 500 |
| ReportJobRoute.YearEarlier | app/api/basiq/basiq-report/route.ts:19-21 | one year back keeps the month and day, except 29 February of a leap year |
| ReportJobRoute.YearEarlierSpan | app/api/basiq/basiq-report/route.ts:19-21 | the report period spans 365 or 366 days, as the leap days in it decide |
| ReportJobRoute.LeapDayRollsOver | app/api/basiq/basiq-report/route.ts:21 | 29 February moved to a common year rolls over to 1 March |
| ReportJobRoute.IsoDateFields | app/api/basiq/basiq-report/route.ts:23-24 | for years 0 to 9999 the date text is `YYYY-MM-DD` and its fields read back as the date |
| ReportJobRoute.PadValue | app/api/basiq/basiq-report/route.ts:23-24 | zero padding does not change the value the digits spell |
| ReportJobRoute.Classify | app/api/basiq/basiq-report/route.ts:72-85 | only the first step's status decides: success with a source link gives the URL, success without it or "failed" stops with an error, anything else continues |
| ReportJobRoute.Poll | app/api/basiq/basiq-report/route.ts:62-91 | at most ten fetches; every fetch but the last was undecided; the run ends with the last decision or times out after the tenth |
| ReportJobRoute.UndecidedTimesOut | app/api/basiq/basiq-report/route.ts:63-90 | a job that never decides is fetched exactly ten times and times out |
| ReportJobRoute.DecidesAt | app/api/basiq/basiq-report/route.ts:63-85 | a job deciding at attempt k stops there with that decision after k + 1 fetches |
| ReportJobRoute.JobFetches | app/api/basiq/basiq-report/route.ts:64 | every job fetch goes to the same job URL with the same token |
| ReportJobRoute.Handle | app/api/basiq/basiq-report/route.ts:7-108 | no call without both required fields (a 400); the creation request carries the type, the title or its default and the year's filters; at most twelve calls; a failed creation forwards its status |
| ReportJobRoute.AfterCreate | app/api/basiq/basiq-report/route.ts:50-100 | after a successful creation, one fetch per poll and a 200 with the job id and the link exactly when the poll found one, else a 500 with its error |
| ReportJobRoute.GuardFirst | app/api/basiq/basiq-report/route.ts:12-17 | without both fields nothing is asked of the token service or the upstream |
| ReportJobRoute.OnlyFirstStep | app/api/basiq/basiq-report/route.ts:74 | two jobs whose first steps and links agree poll alike, whatever their other steps |
| ReportJobRoute.ReadyAt | app/api/basiq/basiq-report/route.ts:76-100 | when the first step succeeds at fetch k, the route answers 200 with that link after k + 3 calls |
| ReportJobRoute.TimesOut | app/api/basiq/basiq-report/route.ts:90-96 | a job that never settles ends in a 500 with the timeout message after twelve calls |
| AuthCallback.JobId | app/auth/callback/page.tsx:21 | the page has a job id exactly when `jobId` or `jobIds` is non-empty, and `jobId` wins when it is |
| AuthCallback.JobIdFallback | app/auth/callback/page.tsx:21 | the job id is the first non-empty of the two parameters |
| AuthCallback.MarkConnected | app/auth/callback/page.tsx:49-86 | the stored user becomes connected, takes the final job id when one is given, and keeps every other field |
| AuthCallback.Handle | app/auth/callback/page.tsx:25-95 | an error parameter wins; the job-id cookie is written exactly when there is no error and a job id; success exactly when the job resolved with status "success", and only then is the stored user changed and the dashboard opened; the incomplete and failed messages; without a job id success exactly for `success=true` |
| AuthCallback.Effect | app/auth/callback/page.tsx:97-104 | the handler runs exactly when there is a job id and no poll is running, or an error parameter |
| AuthCallback.ErrorFirst | app/auth/callback/page.tsx:26-31 | an error parameter decides the page whatever the job id, the poll, or the hook's error |
| AuthCallback.FallbacksUnreachable | app/auth/callback/page.tsx:75-104 | since the effect only runs with an error or a job id, the success-without-job and "nothing found" messages are never shown |
| AuthCallback.PolledJobSucceeded | hooks/use-basiq-job-polling.ts:62-88 | a job the poll resolves with has status "success" |
| AuthCallback.PolledHandle | app/auth/callback/page.tsx:39-74 | with a real poll, the page succeeds exactly when the poll resolved, and otherwise shows the hook's earlier error or the poll's |
| Onboarding.Progress | app/page.tsx:24-25 | the bar's width is step / 3 of 100 percent |
| Onboarding.ProgressBounds | app/page.tsx:24-25 | the bar grows strictly with the step, stays within (0, 100], and is full exactly on the last step |
| Onboarding.Next | app/page.tsx:27-31 | one step on, error and debug lines cleared, nothing else changed |
| Onboarding.Prev | app/page.tsx:33-37 | one step back, error and debug lines cleared, nothing else changed |
| Onboarding.NextPrev | app/page.tsx:27-37 | forward then back, or back then forward, returns to the same step |
| Onboarding.Present | app/page.tsx:72-79 | the serialised record answers every key as the last field with a defined value does |
| Onboarding.PresentAt | app/page.tsx:72-79 | a field with its own key yields its value |
| Onboarding.PresentAbsent | app/page.tsx:72-79 | a key no field carries is absent |
| Onboarding.Without | app/page.tsx:124-130 | dropping a key leaves every other key's value as it was |
| Onboarding.Merge | app/page.tsx:124-130 | `{ ...user, key: v }` has `v` at `key` and every other key of `user` unchanged |
| Onboarding.Failed | app/page.tsx:83-139 | a failure stays on the step and shows the message as the error |
| Onboarding.ErrorOf | app/page.tsx:69-121 | the route's string error, or the fallback when the error is not truthy |
| Onboarding.CreateUser | app/page.tsx:46-92 | the step advances exactly on an ok, non-null answer, which stores the typed e-mail with the returned userId and client token; otherwise the step and the stored record are kept and the route's error, or what was thrown, is shown |
| Onboarding.StoredFields | app/page.tsx:72-79 | the stored sign-up record carries the e-mail, userId and clientAccessToken |
| Onboarding.Consent | app/page.tsx:94-143 | without a stored user it fails before any request; it posts the stored id and token exactly when a record is stored; it leaves for the returned link exactly on an ok, non-null answer, after merging the link into the record and keeping every other field |
| Onboarding.ConsentPayload | app/page.tsx:112-115 | the posted body carries the stored userId and clientAccessToken |
| Onboarding.Test | app/page.tsx:145-176 | the test passes exactly on an ok answer with a token under either name, closing the help; a failure reports the route's error and opens the help when it mentions authorization; a thrown request is a connection error |
| Onboarding.InvalidAuthorization | app/page.tsx:168 | the second `includes` test is implied by the first |
| Onboarding.HelpIffAuthorization | app/page.tsx:164-170 | from a closed help, a failed test with a string error opens it exactly when the error mentions authorization |
| Onboarding.Apply | app/page.tsx:212-245 | a control the current step does not render changes nothing |
| Onboarding.ApplyInRange | app/page.tsx:212-245 | every event keeps the page on one of its three steps |
| Onboarding.StepsInRange | app/page.tsx:13-25 | over any sequence of events the page shows one of its three steps and the bar stays within its track |
| Onboarding.FromStart | app/page.tsx:212-245 | starting from the welcome step, no sequence of events leaves the three steps |

## Left out

- Network, storage, cookies, navigation and timers are parameters or results, not effects. This covers `fetch`, `localStorage`, `js-cookie`, `router.push`, `window.location` and `setTimeout`. The pauses are not modelled: five seconds between client polls, three seconds between report polls, and the three-second redirect delays. Nor are the cookie's seven-day lifetime or the callback's `connectedAt` time stamp.
- Rendering, animation, icons and styling are not modelled. Only the pure mappings they display are: progress, status, colours and labels.
- Floating point is not modelled. Amounts are integer cents, so `parseFloat`, `toFixed`, `Math.round` and `toLocaleString` formatting are left out.
- The random "previous period" trends of the dashboard and of the budget panel are placeholders and are left out.
- Time of day and time zones are left out. `new Date()` is a calendar date parameter, and `toISOString` is taken in the same zone as the date.
- Concurrency is not modelled. The server-token cache is modelled for sequential calls only, because the code has no guard against two refreshes in flight. React's effect and state scheduling is also out: each client handler is modelled as the state it leaves once it has settled, and `isLoading` and the transient "polling" status are not tracked.
- Text.Lower: case folding covers ASCII letters only, while `toLowerCase` also folds other scripts.
- Text.Less: the sort order compares characters by Unicode code point, while JavaScript compares UTF-16 code units. The two orders differ only for characters outside the Basic Multilingual Plane.
- JavaScript strings can hold lone surrogates, which `Utf8` cannot represent. `encodeURIComponent` and `Buffer` treat them specially, and that case is not modelled.
- Object key order is not modelled. An object is a list of fields in which the last field with a key wins. `JSON.stringify` output order and the integer-like key ordering of JavaScript objects are ignored.
- Onboarding.Merge: a stored record that parses to something other than an object is spread as if it had no fields.
- Reading the stored record back with `JSON.parse` is not modelled, including its failure on corrupted storage. The stored value is given as parsed JSON.
- The text of a thrown `TypeError` follows V8's wording (`NullRead`, `DestructureNull`, `Onboarding.NotAFunction`). Other engines word it differently.
- UsersRoute.Handle: the text body of a failed creation is read and logged only, so it is not modelled.
- CategorySpending.TopWithOther: a real category named "Other" among the top eight and the folded "Other" slice both appear, under the same name, as in the code. The contract does not single this case out.
- AuthCallback.Handle: the hook's `jobError` is the value the effect saw when it last ran, because the effect omits it from its dependencies. It is a parameter rather than being read back from the poll.
- Onboarding.Test: the contract states the string-error and missing-error cases. For an error that is an array, `includes` looks for an equal element (`HasItem`). For any other value the call throws, which the model gives as a fixed TypeError message. Neither case has a lemma of its own.
- SpendingChart.InBar: the bar rule is proved for debits dated no later than today and spans of at most a century. Labels repeat every hundred years, so a debit dated a century ahead lands in the current month's bar (`CenturyAheadCollides`).
- ReportJobRoute.IsoDateFields: proved for years 0 to 9999. Outside that range `toISOString` writes a signed six-digit year, which `IsoDate` models but no lemma reads back.
- Reports.EmptyState: the empty-state condition is a predicate with no lemma of its own, since it is exactly the condition the page tests.
- The `user` proxy route, the transaction map and the presentational components (header, net-worth card, accounts list, footer, loaders, onboarding step views) are not part of this model. They hold no logic beyond rendering.
- Dashboard.Load: which fetch's rejection `Promise.all` reports depends on which rejects first in time, so the rejection message is an input. The `reports: reportsJson.reports || {}` field is stored by the page but never read, and `DashboardData` leaves it out. A `data` field that is truthy but not an array is not modelled: transactions are a list or absent.
- Ledger.Group: the code groups into plain `{}` objects, so a category named after an `Object.prototype` member reads an inherited value. For example, `acc["constructor"] || 0` is the `Object` function, which turns the total into a string, and in the budget panel such a category drops out of `Object.keys`. Keys naming `Object.prototype` members are not modelled, here or in `Ledger.Assign`: each key starts from no value.
- Base 64 decoding and `decodeURIComponent` exist in the model only to state the round trips. The app itself decodes only percent-encoded user ids.
