/**
 * The reports panel: income and expense totals, per-category totals for each side,
 * the net flow, the balance of each account by name, and the top three categories.
 * A transaction with a positive amount is income; every other one, zero included,
 * is an expense counted by its absolute value.
 */
module Reports {
  import opened Wrappers
  import opened Records
  import opened Categories
  import opened Ledger
  import opened Flows

  const TopCategories := 3

  datatype Report = Report(
    totalIncome: nat,
    totalExpenses: nat,
    netFlow: int,
    incomeCategories: seq<Entry<int>>,
    expenseCategories: seq<Entry<int>>,
    accountBalances: seq<Entry<Option<int>>>)

  /** The `(category, amount)` item of each income transaction, in order. */
  function IncomeItems(ts: seq<Transaction>): (r: seq<Entry<int>>)
    ensures forall i :: 0 <= i < |r| ==> r[i].value > 0
  {
    if |ts| == 0 then []
    else
      var t := ts[|ts| - 1];
      IncomeItems(ts[..|ts| - 1]) + (if t.amount > 0 then [Entry(DisplayCategory(t), t.amount)] else [])
  }

  /** The `(category, |amount|)` item of each expense transaction, in order. */
  function ExpenseItems(ts: seq<Transaction>): (r: seq<Entry<int>>)
    ensures forall i :: 0 <= i < |r| ==> r[i].value >= 0
  {
    if |ts| == 0 then []
    else
      var t := ts[|ts| - 1];
      ExpenseItems(ts[..|ts| - 1]) + (if t.amount <= 0 then [Entry(DisplayCategory(t), -t.amount)] else [])
  }

  /** The items of each side add up to that side's total. */
  lemma {:induction false} ItemTotals(ts: seq<Transaction>)
    ensures Total(IncomeItems(ts)) == Income(ts)
    ensures Total(ExpenseItems(ts)) == Spending(ts)
  {
    if |ts| > 0 {
      var init := ts[..|ts| - 1];
      var t := ts[|ts| - 1];
      ItemTotals(init);
      if t.amount > 0 {
        var r := IncomeItems(init) + [Entry(DisplayCategory(t), t.amount)];
        assert r[..|r| - 1] == IncomeItems(init);
        assert ExpenseItems(ts) == ExpenseItems(init);
      } else {
        var r := ExpenseItems(init) + [Entry(DisplayCategory(t), -t.amount)];
        assert r[..|r| - 1] == ExpenseItems(init);
        assert IncomeItems(ts) == IncomeItems(init);
      }
    }
  }

  predicate IncomeIn(ts: seq<Transaction>, k: string) {
    exists i :: 0 <= i < |ts| && ts[i].amount > 0 && DisplayCategory(ts[i]) == k
  }

  predicate ExpenseIn(ts: seq<Transaction>, k: string) {
    exists i :: 0 <= i < |ts| && ts[i].amount <= 0 && DisplayCategory(ts[i]) == k
  }

  /** A category has income items exactly when some income transaction resolves to it. */
  lemma {:induction false} IncomeKeys(ts: seq<Transaction>, k: string)
    ensures HasKey(IncomeItems(ts), k) <==> IncomeIn(ts, k)
  {
    if |ts| > 0 {
      var init := ts[..|ts| - 1];
      var t := ts[|ts| - 1];
      IncomeKeys(init, k);
      var r := IncomeItems(ts);
      if t.amount > 0 {
        assert r[..|r| - 1] == IncomeItems(init);
        HasKeyInit(r, k);
      } else {
        assert r == IncomeItems(init);
      }
      SplitLast(ts, k);
    }
  }

  /** A category has expense items exactly when some expense transaction resolves to it. */
  lemma {:induction false} ExpenseKeys(ts: seq<Transaction>, k: string)
    ensures HasKey(ExpenseItems(ts), k) <==> ExpenseIn(ts, k)
  {
    if |ts| > 0 {
      var init := ts[..|ts| - 1];
      var t := ts[|ts| - 1];
      ExpenseKeys(init, k);
      var r := ExpenseItems(ts);
      if t.amount <= 0 {
        assert r[..|r| - 1] == ExpenseItems(init);
        HasKeyInit(r, k);
      } else {
        assert r == ExpenseItems(init);
      }
      SplitLast(ts, k);
    }
  }

  lemma SplitLast(ts: seq<Transaction>, k: string)
    requires |ts| > 0
    ensures var init, t := ts[..|ts| - 1], ts[|ts| - 1];
            && (IncomeIn(ts, k) <==> IncomeIn(init, k) || (t.amount > 0 && DisplayCategory(t) == k))
            && (ExpenseIn(ts, k) <==> ExpenseIn(init, k) || (t.amount <= 0 && DisplayCategory(t) == k))
  {
    var init := ts[..|ts| - 1];
    assert forall i :: 0 <= i < |init| ==> init[i] == ts[i];
  }

  /** The `(name, parseFloat(balance))` item of each account; a missing balance parses to `NaN`, here `None`. */
  function BalanceItems(accounts: seq<Account>): (r: seq<Entry<Option<int>>>)
    ensures |r| == |accounts|
    ensures forall i :: 0 <= i < |r| ==> r[i] == Entry(accounts[i].name, accounts[i].balance)
  {
    seq(|accounts|, i requires 0 <= i < |accounts| => Entry(accounts[i].name, accounts[i].balance))
  }

  /** The report of a transaction and account list. */
  function Summarize(ts: seq<Transaction>, accounts: seq<Account>): (r: Report)
    ensures r.netFlow == r.totalIncome - r.totalExpenses
    ensures r.totalIncome == Income(ts) && r.totalExpenses == Spending(ts)
    ensures DistinctKeys(r.incomeCategories) && DistinctKeys(r.expenseCategories)
    ensures Total(r.incomeCategories) == r.totalIncome && Total(r.expenseCategories) == r.totalExpenses
    ensures forall k :: Get(r.incomeCategories, k) == SumFor(IncomeItems(ts), k)
    ensures forall k :: Get(r.expenseCategories, k) == SumFor(ExpenseItems(ts), k)
    ensures DistinctKeys(r.accountBalances)
  {
    GroupCorrect(IncomeItems(ts));
    GroupCorrect(ExpenseItems(ts));
    ItemTotals(ts);
    AssignCorrect(BalanceItems(accounts));
    Report(Income(ts), Spending(ts), Income(ts) - Spending(ts),
           Group(IncomeItems(ts)), Group(ExpenseItems(ts)), Assign(BalanceItems(accounts)))
  }

  /** The sum of all amounts. */
  function AmountSum(ts: seq<Transaction>): int {
    if |ts| == 0 then 0 else AmountSum(ts[..|ts| - 1]) + ts[|ts| - 1].amount
  }

  /** Income less expenses is the plain sum of the amounts. */
  lemma {:induction false} NetFlowIsAmountSum(ts: seq<Transaction>)
    ensures Summarize(ts, []).netFlow == AmountSum(ts)
    ensures Income(ts) - Spending(ts) == AmountSum(ts)
  {
    if |ts| > 0 {
      NetFlowIsAmountSum(ts[..|ts| - 1]);
    }
  }

  /**
   * Each side's category totals add up to that side's total, each category appears once,
   * and a category appears exactly when some transaction of that side resolves to it.
   */
  lemma ReportCategoriesAgree(ts: seq<Transaction>, accounts: seq<Account>)
    ensures var r := Summarize(ts, accounts);
            && DistinctKeys(r.incomeCategories) && DistinctKeys(r.expenseCategories)
            && Total(r.incomeCategories) == r.totalIncome
            && Total(r.expenseCategories) == r.totalExpenses
            && (forall k :: HasKey(r.incomeCategories, k) <==> IncomeIn(ts, k))
            && (forall k :: HasKey(r.expenseCategories, k) <==> ExpenseIn(ts, k))
  {
    GroupCorrect(IncomeItems(ts));
    GroupCorrect(ExpenseItems(ts));
    ItemTotals(ts);
    forall k ensures HasKey(IncomeItems(ts), k) <==> IncomeIn(ts, k) {
      IncomeKeys(ts, k);
    }
    forall k ensures HasKey(ExpenseItems(ts), k) <==> ExpenseIn(ts, k) {
      ExpenseKeys(ts, k);
    }
  }

  /** A category's income total is the sum of that category's income items. */
  lemma CategoryIncome(ts: seq<Transaction>, k: string)
    ensures Get(Summarize(ts, []).incomeCategories, k) == SumFor(IncomeItems(ts), k)
    ensures Get(Summarize(ts, []).expenseCategories, k) == SumFor(ExpenseItems(ts), k)
  {
    GroupCorrect(IncomeItems(ts));
    GroupCorrect(ExpenseItems(ts));
  }

  /** Each account name appears once and shows the balance of the last account with that name. */
  lemma BalancesLastWins(ts: seq<Transaction>, accounts: seq<Account>, j: int)
    requires 0 <= j < |accounts|
    requires forall l :: j < l < |accounts| ==> accounts[l].name != accounts[j].name
    ensures DistinctKeys(Summarize(ts, accounts).accountBalances)
    ensures Entry(accounts[j].name, accounts[j].balance) in Summarize(ts, accounts).accountBalances
  {
    var items := BalanceItems(accounts);
    AssignCorrect(items);
    assert forall l :: j < l < |items| ==> items[l].key != items[j].key;
  }

  /** The empty state is shown only when there are neither transactions nor accounts. */
  predicate EmptyState(ts: seq<Transaction>, accounts: seq<Account>) {
    |ts| == 0 && |accounts| == 0
  }

  /** The top three categories of a side, largest first. */
  function TopThree(categories: seq<Entry<int>>): (r: seq<Entry<int>>)
    ensures |r| == if |categories| < TopCategories then |categories| else TopCategories
    ensures SortedDesc(r)
    ensures multiset(r) <= multiset(categories)
    ensures forall i, e :: 0 <= i < |r| && e in categories && e !in r ==> r[i].value >= e.value
  {
    var s := SortDesc(categories);
    SortDescCorrect(categories);
    var n := if |s| < TopCategories then |s| else TopCategories;
    assert s == s[..n] + s[n..];
    forall i, e | 0 <= i < n && e in categories && e !in s[..n] ensures s[i].value >= e.value {
      assert e in multiset(s);
      assert e in s[n..];
      var j :| 0 <= j < |s[n..]| && s[n..][j] == e;
      assert s[n + j] == e;
    }
    s[..n]
  }
}
