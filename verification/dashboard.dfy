/**
 * The dashboard page: the summary trends and generated insights it derives from the
 * transaction list, and the load sequence (stored user, optional job wait, data fetches).
 * `today` is the clock reading the page takes with `new Date()`.
 */
module Dashboard {
  import opened Wrappers
  import opened Text
  import opened Calendar
  import opened Records
  import opened Categories
  import opened Ledger
  import opened Flows
  import Json

  /** 80% of the hypothetical $1000 weekly budget, in cents. */
  const AchievementLimit := 80000
  const JobWaitAttempts := 10
  const JobIncompleteMessage := "Job failed to complete. Please try again."

  /** `new Date(y, m, d - 7)`. */
  function WeekAgo(today: CalendarDate): int {
    DayNumber(today.year, today.month - 1, today.day - 7)
  }

  /** `new Date(y, m, d - 14)`. */
  function TwoWeeksAgo(today: CalendarDate): int {
    DayNumber(today.year, today.month - 1, today.day - 14)
  }

  /** `new Date(y, m - 1, d)`: the same day number in the previous month, normalised. */
  function MonthAgo(today: CalendarDate): int {
    DayNumber(today.year, today.month - 2, today.day)
  }

  /** The month window reaches back one whole previous month, so it always contains the week window. */
  lemma MonthAgoBeforeWeekAgo(today: CalendarDate)
    ensures WeekAgo(today) == Ordinal(today) - 7 && TwoWeeksAgo(today) == Ordinal(today) - 14
    ensures 28 <= Ordinal(today) - MonthAgo(today) <= 31
  {
    WeekWindows(today);
    MonthWindow(today);
  }

  lemma WeekWindows(today: CalendarDate)
    ensures WeekAgo(today) == Ordinal(today) - 7 && TwoWeeksAgo(today) == Ordinal(today) - 14
  {
    var m := today.month;
    assert (m - 1) / 12 == 0 && (m - 1) % 12 == m - 1;
  }

  lemma MonthWindow(today: CalendarDate)
    ensures 28 <= Ordinal(today) - MonthAgo(today) <= 31
  {
    var y, m, d := today.year, today.month, today.day;
    assert Ordinal(today) == MonthStart(y, m) + d - 1 by {
      assert (m - 1) / 12 == 0 && (m - 1) % 12 == m - 1;
    }
    if m == 1 {
      JanuaryMonthAgo(today);
    } else {
      LaterMonthAgo(today);
    }
  }

  /** In January the month window starts in December of the year before. */
  lemma JanuaryMonthAgo(today: CalendarDate)
    requires today.month == 1
    ensures 28 <= MonthStart(today.year, 1) + today.day - 1 - MonthAgo(today) <= 31
  {
    var y, d := today.year, today.day;
    assert MonthAgo(today) == MonthStart(y - 1, 12) + d - 1 by {
      assert -1 / 12 == -1 && -1 % 12 == 11;
    }
    YearLength(y - 1);
    assert MonthStart(y, 1) - MonthStart(y - 1, 12) == 31;
  }

  /** After January the month window starts in the previous month of the same year. */
  lemma LaterMonthAgo(today: CalendarDate)
    requires today.month > 1
    ensures 28 <= MonthStart(today.year, today.month) + today.day - 1 - MonthAgo(today) <= 31
  {
    var y, m, d := today.year, today.month, today.day;
    assert MonthAgo(today) == MonthStart(y, m - 1) + d - 1 by {
      assert (m - 2) / 12 == 0 && (m - 2) % 12 == m - 2;
    }
    PreviousMonthLength(y, m);
  }

  /** Month `m - 1` of a year is between 28 and 31 days long and ends where month `m` starts. */
  lemma PreviousMonthLength(y: int, m: int)
    requires 1 < m <= 12
    ensures 28 <= MonthStart(y, m) - MonthStart(y, m - 1) <= 31
  {
    assert MonthStart(y, m) - MonthStart(y, m - 1) == DaysInMonth(y, m - 1);
  }

  datatype Trends = Trends(spendingMonth: nat, incomeMonth: nat, spendingWeek: nat, savingsRate: real)

  /** `max(0, (income - spending) / income * 100)` when there is income, else 0. */
  function SavingsRate(income: nat, spending: nat): (r: real)
    ensures 0.0 <= r <= 100.0
    ensures r == 100.0 <==> income > 0 && spending == 0
    ensures r == 0.0 <==> income == 0 || spending >= income
  {
    if income > 0 && spending < income then
      var r := (income - spending) as real * 100.0 / income as real;
      assert r * income as real == (income - spending) as real * 100.0;
      r
    else 0.0
  }

  /**
   * `calculateTrends`: spending and income over the last month, spending over the last
   * week, and the savings rate of the month.
   */
  function CalculateTrends(ts: seq<Transaction>, today: CalendarDate): (r: Trends)
    ensures r.spendingWeek <= r.spendingMonth
    ensures r.spendingMonth == Spending(Window(ts, MonthAgo(today), None))
    ensures r.incomeMonth == Income(Window(ts, MonthAgo(today), None))
    ensures r.spendingWeek == Spending(Window(ts, Ordinal(today) - 7, None))
    ensures 0.0 <= r.savingsRate <= 100.0
    ensures r.savingsRate > 0.0 <==> r.spendingMonth < r.incomeMonth
  {
    MonthAgoBeforeWeekAgo(today);
    LaterWindowSpendsLess(ts, MonthAgo(today), WeekAgo(today));
    var month := Window(ts, MonthAgo(today), None);
    var week := Window(ts, WeekAgo(today), None);
    Trends(Spending(month), Income(month), Spending(week), SavingsRate(Income(month), Spending(month)))
  }

  /** One `(category, |amount|)` item per debit, in order, keyed by the display category. */
  function SpendingEntries(ts: seq<Transaction>): (r: seq<Entry<int>>)
    ensures |r| <= |ts|
    ensures Total(r) == Spending(ts)
    ensures forall i :: 0 <= i < |r| ==> r[i].value > 0
  {
    if |ts| == 0 then []
    else
      var t := ts[|ts| - 1];
      var init := SpendingEntries(ts[..|ts| - 1]);
      if t.amount < 0 then
        var r := init + [Entry(DisplayCategory(t), -t.amount)];
        assert r[..|r| - 1] == init;
        r
      else init
  }

  /** What a set of transactions spent on one category. */
  function CategorySpend(ts: seq<Transaction>, category: string): int {
    SumFor(SpendingEntries(ts), category)
  }

  datatype Insight =
    | SpendingAlert(category: string, current: int, previous: int)
    | IncomePattern(total: nat, count: nat)
    | BudgetAchievement
    | ServerInsight(id: string)

  /** `prev > 0 && cur > prev * 1.2`, exact in cents. */
  predicate Alarming(cur: int, prev: int) {
    prev > 0 && 5 * cur > 6 * prev
  }

  predicate HasAlert(r: seq<Insight>, category: string) {
    exists i :: 0 <= i < |r| && r[i].SpendingAlert? && r[i].category == category
  }

  /** One alert per category of this week whose spending rose more than 20% over last week's. */
  function Alerts(cur: seq<Entry<int>>, prev: seq<Entry<int>>): (r: seq<Insight>)
    ensures forall i :: 0 <= i < |r| ==> r[i].SpendingAlert? && Alarming(r[i].current, r[i].previous)
  {
    if |cur| == 0 then []
    else
      var e := cur[|cur| - 1];
      var p := Get(prev, e.key);
      Alerts(cur[..|cur| - 1], prev) + (if Alarming(e.value, p) then [SpendingAlert(e.key, e.value, p)] else [])
  }

  lemma {:induction false} AlertsExactly(cur: seq<Entry<int>>, prev: seq<Entry<int>>, k: string)
    requires DistinctKeys(cur)
    ensures HasAlert(Alerts(cur, prev), k) <==> HasKey(cur, k) && Alarming(SumFor(cur, k), Get(prev, k))
  {
    if |cur| > 0 {
      var init := cur[..|cur| - 1];
      var e := cur[|cur| - 1];
      assert DistinctKeys(init) by {
        forall i, j | 0 <= i < j < |init| ensures init[i].key != init[j].key { assert init[i] == cur[i] && init[j] == cur[j]; }
      }
      AlertsExactly(init, prev, k);
      HasKeyInit(cur, k);
      var a := Alerts(init, prev);
      var extra := if Alarming(e.value, Get(prev, e.key)) then [SpendingAlert(e.key, e.value, Get(prev, e.key))] else [];
      assert Alerts(cur, prev) == a + extra;
      if e.key == k {
        assert !HasKey(init, k) by {
          forall j | 0 <= j < |init| ensures init[j].key != k { assert init[j] == cur[j]; }
        }
        NoKeyNoSum(init, k);
        assert !HasAlert(a, k);
        if Alarming(e.value, Get(prev, k)) {
          assert (a + extra)[|a|] == extra[0];
        } else {
          assert a + extra == a;
        }
      } else {
        if HasAlert(a, k) {
          var i :| 0 <= i < |a| && a[i].SpendingAlert? && a[i].category == k;
          assert (a + extra)[i] == a[i];
        }
        if HasAlert(a + extra, k) {
          var i :| 0 <= i < |a + extra| && (a + extra)[i].SpendingAlert? && (a + extra)[i].category == k;
          assert i < |a|;
          assert a[i] == (a + extra)[i];
        }
      }
    }
  }

  /** This week's transactions: posted on or after seven days ago. */
  function CurrentWeek(ts: seq<Transaction>, today: CalendarDate): seq<Transaction> {
    Window(ts, WeekAgo(today), None)
  }

  /** Last week's transactions: posted in the seven days before that. */
  function PreviousWeek(ts: seq<Transaction>, today: CalendarDate): seq<Transaction> {
    Window(ts, TwoWeeksAgo(today), Some(WeekAgo(today)))
  }

  /** This week's category totals, in first-seen order. */
  function CurrentSpending(ts: seq<Transaction>, today: CalendarDate): seq<Entry<int>> {
    Group(SpendingEntries(CurrentWeek(ts, today)))
  }

  /** Last week's category totals. */
  function PreviousSpending(ts: seq<Transaction>, today: CalendarDate): seq<Entry<int>> {
    Group(SpendingEntries(PreviousWeek(ts, today)))
  }

  function IncomeInsights(ts: seq<Transaction>): (r: seq<Insight>)
    ensures HasIncomePattern(r) <==> exists i :: 0 <= i < |ts| && ts[i].amount > 0
    ensures forall i :: 0 <= i < |r| ==> r[i].IncomePattern? && r[i].total == Income(ts) && r[i].count > 0
    ensures forall i :: 0 <= i < |r| ==> r[i].count == CreditCount(ts)
  {
    var n := CreditCount(ts);
    if n > 0 then
      var r := [IncomePattern(Income(ts), n)];
      assert r[0].IncomePattern?;
      r
    else []
  }

  /**
   * `generateInsights`: nothing for an empty list; otherwise the week-over-week category
   * alerts, an income insight when there is any credit, and a budget insight when this
   * week's spending stays under 80% of the hypothetical budget. The income insight carries
   * the total and count of credits, whose quotient the page shows as the average.
   */
  function GenerateInsights(ts: seq<Transaction>, today: CalendarDate): (r: seq<Insight>)
    ensures |ts| == 0 ==> r == []
  {
    if |ts| == 0 then []
    else
      var cur := CurrentSpending(ts, today);
      Alerts(cur, PreviousSpending(ts, today)) + IncomeInsights(ts)
      + (if Total(cur) < AchievementLimit then [BudgetAchievement] else [])
  }

  /** The income insight appears exactly when some transaction is a credit. */
  lemma InsightsIncome(ts: seq<Transaction>, today: CalendarDate)
    ensures HasIncomePattern(GenerateInsights(ts, today)) <==> exists i :: 0 <= i < |ts| && ts[i].amount > 0
  {
    if |ts| > 0 {
      var a := Alerts(CurrentSpending(ts, today), PreviousSpending(ts, today));
      var inc := IncomeInsights(ts);
      var b := if Total(CurrentSpending(ts, today)) < AchievementLimit then [BudgetAchievement] else [];
      var r := a + inc + b;
      assert r == GenerateInsights(ts, today);
      if HasIncomePattern(inc) {
        assert r[|a|] == inc[0];
      }
      if HasIncomePattern(r) {
        var i :| 0 <= i < |r| && r[i].IncomePattern?;
        assert |a| <= i < |a| + |inc| && r[i] == inc[i - |a|];
      }
    }
  }

  /** The budget insight appears exactly when this week's spending is under $800. */
  lemma InsightsBudget(ts: seq<Transaction>, today: CalendarDate)
    ensures BudgetAchievement in GenerateInsights(ts, today) <==>
              |ts| > 0 && Spending(CurrentWeek(ts, today)) < AchievementLimit
  {
    if |ts| > 0 {
      GroupCorrect(SpendingEntries(CurrentWeek(ts, today)));
      var a := Alerts(CurrentSpending(ts, today), PreviousSpending(ts, today));
      var inc := IncomeInsights(ts);
      var b := if Total(CurrentSpending(ts, today)) < AchievementLimit then [BudgetAchievement] else [];
      var r := a + inc + b;
      assert r == GenerateInsights(ts, today);
      assert BudgetAchievement !in a && BudgetAchievement !in inc;
    }
  }

  /**
   * A category is flagged exactly when last week's spending on it was positive and this
   * week's exceeds it by more than 20%.
   */
  lemma InsightsAlert(ts: seq<Transaction>, today: CalendarDate, category: string)
    ensures HasAlert(GenerateInsights(ts, today), category) <==>
              |ts| > 0 && Alarming(CategorySpend(CurrentWeek(ts, today), category), CategorySpend(PreviousWeek(ts, today), category))
  {
    if |ts| > 0 {
      var cur := CurrentSpending(ts, today);
      var a := Alerts(cur, PreviousSpending(ts, today));
      var inc := IncomeInsights(ts);
      var b := if Total(cur) < AchievementLimit then [BudgetAchievement] else [];
      var rest := inc + b;
      assert GenerateInsights(ts, today) == a + rest;
      forall i | 0 <= i < |rest| ensures !rest[i].SpendingAlert? {
        if i < |inc| {
          assert rest[i] == inc[i];
        } else {
          assert rest[i] == b[i - |inc|];
        }
      }
      AlertsUnaffected(a, rest, category);
      AlertsOfGroups(SpendingEntries(CurrentWeek(ts, today)), SpendingEntries(PreviousWeek(ts, today)), category);
    }
  }

  /** Alerting on grouped totals is alerting on the per-category sums of the ungrouped items. */
  lemma AlertsOfGroups(curItems: seq<Entry<int>>, prevItems: seq<Entry<int>>, category: string)
    ensures HasAlert(Alerts(Group(curItems), Group(prevItems)), category) <==>
              Alarming(SumFor(curItems, category), SumFor(prevItems, category))
  {
    var cur := Group(curItems);
    GroupCorrect(curItems);
    GroupCorrect(prevItems);
    assert Get(Group(prevItems), category) == SumFor(prevItems, category);
    GetIsSumFor(cur, category);
    assert SumFor(cur, category) == SumFor(curItems, category);
    assert HasKey(cur, category) <==> HasKey(curItems, category);
    AlertsExactly(cur, Group(prevItems), category);
    if !HasKey(curItems, category) {
      NoKeyNoSum(curItems, category);
    }
  }

  lemma AlertsUnaffected(a: seq<Insight>, rest: seq<Insight>, category: string)
    requires forall i :: 0 <= i < |rest| ==> !rest[i].SpendingAlert?
    ensures HasAlert(a + rest, category) <==> HasAlert(a, category)
  {
    if HasAlert(a + rest, category) {
      var i :| 0 <= i < |a + rest| && (a + rest)[i].SpendingAlert? && (a + rest)[i].category == category;
      assert i < |a|;
    }
    if HasAlert(a, category) {
      var i :| 0 <= i < |a| && a[i].SpendingAlert? && a[i].category == category;
      assert (a + rest)[i] == a[i];
    }
  }

  predicate HasIncomePattern(r: seq<Insight>) {
    exists i :: 0 <= i < |r| && r[i].IncomePattern?
  }

  /** The dashboard's own job check: the job has steps and every one of them succeeded; the overall status is not read. */
  predicate StepsComplete(r: FetchResult) {
    r.Fetched? && |r.job.steps| > 0 && forall i :: 0 <= i < |r.job.steps| ==> r.job.steps[i].status == "success"
  }

  datatype Wait = Complete(fetches: nat) | Incomplete | Threw(msg: string)

  /**
   * The page's wait loop from attempt `attempt` on: up to ten fetches, stopping at the first
   * complete job; a thrown fetch or unparsable body aborts the load with its message.
   */
  function WaitForJob(fetch: nat -> FetchResult, attempt: nat): (w: Wait)
    decreases JobWaitAttempts - attempt
    ensures w.Complete? ==> attempt < w.fetches <= JobWaitAttempts && StepsComplete(fetch(w.fetches - 1))
    ensures w.Complete? ==> forall i :: attempt <= i < w.fetches - 1 ==> fetch(i).Fetched? && !StepsComplete(fetch(i))
    ensures w.Incomplete? <==> forall i :: attempt <= i < JobWaitAttempts ==> fetch(i).Fetched? && !StepsComplete(fetch(i))
    ensures w.Threw? ==> exists k :: attempt <= k < JobWaitAttempts && fetch(k) == FetchFailed(w.msg)
                                     && forall i :: attempt <= i < k ==> fetch(i).Fetched? && !StepsComplete(fetch(i))
  {
    if attempt >= JobWaitAttempts then Incomplete
    else if fetch(attempt).FetchFailed? then Threw(fetch(attempt).reason)
    else if StepsComplete(fetch(attempt)) then Complete(attempt + 1)
    else WaitForJob(fetch, attempt + 1)
  }

  /** The accounts body: a bare array, or an object whose `data` may be missing. */
  datatype AccountsPayload = AccountArray(items: seq<Account>) | AccountEnvelope(data: Option<seq<Account>>)

  /** An account as the dashboard keeps it, with its derived `type` and `accountNo`. */
  datatype ShownAccount = ShownAccount(account: Account, kind: string, number: string)

  function PayloadAccounts(p: AccountsPayload): seq<Account> {
    match p
    case AccountArray(items) => items
    case AccountEnvelope(data) => if data.Some? then data.value else []
  }

  /** `type: class?.type || "unknown"`, `accountNo: accountNo || accountNumber || ""`. */
  function Normalize(a: Account): (s: ShownAccount)
    ensures s.account == a
    ensures s.kind != ""
    ensures Truthy(a.classType) ==> s.kind == a.classType.value
    ensures s.number == "" <==> !Truthy(a.accountNo) && !Truthy(a.accountNumber)
    ensures Truthy(a.accountNo) ==> s.number == a.accountNo.value
  {
    ShownAccount(a, OrElse(a.classType, "unknown"), OrElse(a.accountNo, OrElse(a.accountNumber, "")))
  }

  /**
   * The accounts of the payload, in order, each with `type` taken from `class.type` or
   * "unknown" and `accountNo` from `accountNo`, then `accountNumber`, then "". An envelope
   * without `data` gives no accounts.
   */
  function NormalizeAccounts(p: AccountsPayload): (r: seq<ShownAccount>)
    ensures |r| == |PayloadAccounts(p)|
    ensures p.AccountArray? ==> |r| == |p.items|
    ensures p.AccountEnvelope? && p.data.None? ==> r == []
    ensures forall i :: 0 <= i < |r| ==> r[i].account == PayloadAccounts(p)[i]
    ensures forall i :: 0 <= i < |r| ==>
              r[i].kind == (if Truthy(r[i].account.classType) then r[i].account.classType.value else "unknown")
    ensures forall i :: 0 <= i < |r| ==>
              r[i].number == (if Truthy(r[i].account.accountNo) then r[i].account.accountNo.value
                              else if Truthy(r[i].account.accountNumber) then r[i].account.accountNumber.value
                              else "")
  {
    var xs := PayloadAccounts(p);
    seq(|xs|, i requires 0 <= i < |xs| => Normalize(xs[i]))
  }

  /** `parseFloat(balance || "0")`: a missing balance counts as zero. */
  function Balance(a: Account): int {
    if a.balance.Some? then a.balance.value else 0
  }

  /** The sum of all balances. */
  function NetWorth(accounts: seq<Account>): int {
    if |accounts| == 0 then 0 else NetWorth(accounts[..|accounts| - 1]) + Balance(accounts[|accounts| - 1])
  }

  /** Net worth adds up over any split of the account list. */
  lemma {:induction false} NetWorthAppend(a: seq<Account>, b: seq<Account>)
    ensures NetWorth(a + b) == NetWorth(a) + NetWorth(b)
    decreases |b|
  {
    if |b| == 0 {
      assert a + b == a;
    } else {
      assert (a + b)[..|a + b| - 1] == a + b[..|b| - 1];
      NetWorthAppend(a, b[..|b| - 1]);
    }
  }

  /** `reportsJson.insights || generateInsights(...)`: any array from the server, even an empty one, wins. */
  function ChooseInsights(server: Option<seq<Insight>>, ts: seq<Transaction>, today: CalendarDate): (r: seq<Insight>)
    ensures server.Some? ==> r == server.value
    ensures server.None? ==> r == GenerateInsights(ts, today)
    ensures server == Some([]) ==> r == []
    ensures server.None? && |ts| == 0 ==> r == []
  {
    if server.Some? then server.value else GenerateInsights(ts, today)
  }

  /** An empty insight list from the server suppresses the generated ones, however many there would be. */
  lemma EmptyServerInsightsHideGenerated(ts: seq<Transaction>, today: CalendarDate)
    requires |ts| > 0 && exists i :: 0 <= i < |ts| && ts[i].amount > 0
    ensures ChooseInsights(Some([]), ts, today) == []
    ensures ChooseInsights(None, ts, today) != []
  {
    InsightsIncome(ts, today);
  }

  datatype DashboardData = DashboardData(
    name: string,
    email: string,
    connectionStatus: Option<string>,
    netWorth: int,
    accounts: seq<ShownAccount>,
    transactions: seq<Transaction>,
    insights: seq<Insight>,
    trends: Trends)

  datatype LoadOutcome = GoHome | ShowError(message: string) | Loaded(data: DashboardData)

  /** `jobId && jobId !== "null"`. */
  predicate ValidJobId(jobId: Option<string>) {
    Truthy(jobId) && jobId.value != "null"
  }

  /**
   * A parsed response body: JSON `null`, or a value of the expected shape. Reading `.data` or
   * `.insights` off a `null` body throws a TypeError.
   */
  datatype JsonBody<T> = NullBody | Body(body: T)

  /**
   * The three bodies once `Promise.all` has delivered every response. Each is `Failure` when its
   * `.json()` threw, with that error's message.
   */
  datatype Payloads = Payloads(
    accounts: Result<JsonBody<AccountsPayload>, string>,
    transactions: Result<JsonBody<Option<seq<Transaction>>>, string>,
    insights: Result<JsonBody<Option<seq<Insight>>>, string>)

  /** Every `.json()` call returned. */
  predicate AllParsed(p: Payloads) {
    p.accounts.Success? && p.transactions.Success? && p.insights.Success?
  }

  /** Every body parsed to something other than `null`. */
  predicate Usable(p: Payloads) {
    AllParsed(p) && p.accounts.value.Body? && p.transactions.value.Body? && p.insights.value.Body?
  }

  /** The job wait was skipped or saw every step succeed. */
  predicate WaitPassed(jobId: Option<string>, jobFetch: nat -> FetchResult) {
    !ValidJobId(jobId) || WaitForJob(jobFetch, 0).Complete?
  }

  /**
   * `fetchDashboardContent`: without a stored user go home; with a usable job id wait for the
   * job first; then fetch the three payloads together. `fetched` is what `Promise.all` settles
   * to: `Failure` with the rejection's message when any fetch rejected, before any body is
   * parsed. Otherwise the bodies are parsed in the order accounts, transactions, reports, and
   * only then is `.data` or `.insights` read off each. The first error thrown is shown.
   */
  function Load(user: Option<StoredUser>, jobId: Option<string>, jobFetch: nat -> FetchResult,
                fetched: Result<Payloads, string>, today: CalendarDate): (r: LoadOutcome)
    ensures r == GoHome <==> user.None?
    ensures r.Loaded? && ValidJobId(jobId) ==> WaitForJob(jobFetch, 0).Complete?
    ensures user.Some? && ValidJobId(jobId) && WaitForJob(jobFetch, 0).Incomplete? ==> r == ShowError(JobIncompleteMessage)
    ensures user.Some? && ValidJobId(jobId) && WaitForJob(jobFetch, 0).Threw? ==> r == ShowError(WaitForJob(jobFetch, 0).msg)
    ensures r.Loaded? <==> user.Some? && WaitPassed(jobId, jobFetch) && fetched.Success? && Usable(fetched.value)
    ensures user.Some? && WaitPassed(jobId, jobFetch) && fetched.Failure? ==> r == ShowError(fetched.error)
    ensures (user.Some? && WaitPassed(jobId, jobFetch) && fetched.Success?
             && fetched.value.accounts.Failure?) ==>
              r == ShowError(fetched.value.accounts.error)
    ensures (user.Some? && WaitPassed(jobId, jobFetch) && fetched.Success?
             && fetched.value.accounts.Success? && fetched.value.transactions.Failure?) ==>
              r == ShowError(fetched.value.transactions.error)
    ensures (user.Some? && WaitPassed(jobId, jobFetch) && fetched.Success?
             && fetched.value.accounts.Success? && fetched.value.transactions.Success? && fetched.value.insights.Failure?) ==>
              r == ShowError(fetched.value.insights.error)
    ensures (user.Some? && WaitPassed(jobId, jobFetch) && fetched.Success? && AllParsed(fetched.value)
             && (fetched.value.accounts.value.NullBody? || fetched.value.transactions.value.NullBody?)) ==>
              r == ShowError(Json.NullRead("data"))
    ensures (user.Some? && WaitPassed(jobId, jobFetch) && fetched.Success? && AllParsed(fetched.value)
             && fetched.value.accounts.value.Body? && fetched.value.transactions.value.Body?
             && fetched.value.insights.value.NullBody?) ==>
              r == ShowError(Json.NullRead("insights"))
    ensures r.Loaded? ==>
              var accounts := fetched.value.accounts.value.body;
              var transactions := fetched.value.transactions.value.body;
              && r.data.name == Before(user.value.email, '@')
              && r.data.email == user.value.email
              && r.data.connectionStatus == user.value.connectionStatus
              && r.data.netWorth == NetWorth(PayloadAccounts(accounts))
              && |r.data.accounts| == |PayloadAccounts(accounts)|
              && (forall i :: 0 <= i < |r.data.accounts| ==> r.data.accounts[i].account == PayloadAccounts(accounts)[i])
              && r.data.transactions == (if transactions.Some? then transactions.value else [])
              && r.data.insights == ChooseInsights(fetched.value.insights.value.body, r.data.transactions, today)
              && r.data.trends == CalculateTrends(r.data.transactions, today)
              && r.data.trends.spendingWeek <= r.data.trends.spendingMonth
  {
    if user.None? then GoHome
    else
      var wait := if ValidJobId(jobId) then WaitForJob(jobFetch, 0) else Complete(0);
      if wait.Threw? then ShowError(wait.msg)
      else if wait.Incomplete? then ShowError(JobIncompleteMessage)
      else if fetched.Failure? then ShowError(fetched.error)
      else
        var p := fetched.value;
        if p.accounts.Failure? then ShowError(p.accounts.error)
        else if p.transactions.Failure? then ShowError(p.transactions.error)
        else if p.insights.Failure? then ShowError(p.insights.error)
        else if p.accounts.value.NullBody? then ShowError(Json.NullRead("data"))
        else if p.transactions.value.NullBody? then ShowError(Json.NullRead("data"))
        else if p.insights.value.NullBody? then ShowError(Json.NullRead("insights"))
        else
          var u := user.value;
          var accounts := p.accounts.value.body;
          var ts := if p.transactions.value.body.Some? then p.transactions.value.body.value else [];
          Loaded(DashboardData(
            Before(u.email, '@'), u.email, u.connectionStatus,
            NetWorth(PayloadAccounts(accounts)),
            NormalizeAccounts(accounts),
            ts,
            ChooseInsights(p.insights.value.body, ts, today),
            CalculateTrends(ts, today)))
  }

  /**
   * A rejected fetch is reported even when another body would not have parsed: `Promise.all`
   * settles before any `.json()` runs, so the parse is never reached.
   */
  lemma RejectionBeatsParseFailure(user: StoredUser, jobId: Option<string>, jobFetch: nat -> FetchResult,
                                   reason: string, today: CalendarDate)
    requires !ValidJobId(jobId)
    ensures Load(Some(user), jobId, jobFetch, Failure(reason), today) == ShowError(reason)
    ensures forall p: Payloads :: p.accounts.Failure? ==>
              Load(Some(user), jobId, jobFetch, Success(p), today) == ShowError(p.accounts.error)
  {
  }

  /** Without a usable job id the job endpoint is never consulted. */
  lemma NoJobIdSkipsWait(user: Option<StoredUser>, jobId: Option<string>, f1: nat -> FetchResult, f2: nat -> FetchResult,
                         fetched: Result<Payloads, string>, today: CalendarDate)
    requires !ValidJobId(jobId)
    ensures Load(user, jobId, f1, fetched, today) == Load(user, jobId, f2, fetched, today)
  {
  }

  /** A job that never shows all-successful steps within ten fetches blocks the dashboard. */
  lemma NeverCompleteBlocks(user: StoredUser, jobId: string, fetch: nat -> FetchResult,
                            fetched: Result<Payloads, string>, today: CalendarDate)
    requires jobId != "" && jobId != "null"
    requires forall i :: 0 <= i < JobWaitAttempts ==> fetch(i).Fetched? && |fetch(i).job.steps| == 0
    ensures Load(Some(user), Some(jobId), fetch, fetched, today) == ShowError(JobIncompleteMessage)
  {
  }
}
