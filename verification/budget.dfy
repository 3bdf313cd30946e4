/**
 * The monthly budget panel: this month's debits grouped by a short category chain
 * (class title, then sub-class title, then "Uncategorized"), each category paired with
 * a budget from a fixed table, sorted by spending, and classified as over budget, near
 * the limit, or fine. Amounts are in cents.
 */
module Budget {
  import opened Wrappers
  import opened Calendar
  import opened Records
  import opened Text
  import opened Ledger
  import opened Flows

  /** The budget of a category missing from the table: 100 dollars. */
  const FallbackBudget := 10000

  /** `t.class?.title || t.subClass?.title || "Uncategorized"`: no enrichment titles here. */
  function BudgetCategory(t: Transaction): (r: string)
    ensures r != ""
    ensures Truthy(ClassTitle(t)) ==> r == ClassTitle(t).value
    ensures !Truthy(ClassTitle(t)) && Truthy(t.subClassTitle) ==> r == t.subClassTitle.value
    ensures !Truthy(ClassTitle(t)) && !Truthy(t.subClassTitle) ==> r == "Uncategorized"
  {
    OrElse(ClassTitle(t), OrElse(t.subClassTitle, "Uncategorized"))
  }

  /** The hypothetical budget table, in cents. */
  function TableBudget(category: string): Option<nat> {
    match category
    case "Groceries" => Some(50000)
    case "Dining" => Some(20000)
    case "Transport" => Some(15000)
    case "Entertainment" => Some(10000)
    case "Utilities" => Some(12000)
    case "Shopping" => Some(30000)
    case "Uncategorized" => Some(5000)
    case _ => None
  }

  /** `defaultBudgets[category] || 100`: every table entry is non-zero, so the fallback applies only to absent names. */
  function BudgetFor(category: string): (r: nat)
    ensures r > 0
    ensures TableBudget(category).Some? ==> r == TableBudget(category).value
    ensures TableBudget(category).None? ==> r == FallbackBudget
  {
    match TableBudget(category)
    case Some(b) => if b != 0 then b else FallbackBudget
    case None => FallbackBudget
  }

  /** `new Date(now.getFullYear(), now.getMonth(), 1)` as a day number. */
  function StartOfMonth(today: CalendarDate): (r: int)
    ensures r == MonthStart(today.year, today.month)
  {
    DayNumberOfMonthShift(today.year, today.month, 0);
    assert (today.month - 1) / 12 == 0 && (today.month - 1) % 12 == today.month - 1;
    assert ShiftMonth(today.year, today.month, 0) == (today.year, today.month);
    DayNumber(today.year, today.month - 1, 1)
  }

  /** A debit posted on or after `start`; an unparsable date falls in the earlier bucket. */
  predicate Counted(t: Transaction, start: int) {
    t.amount < 0 && PostedOnOrAfter(t, start)
  }

  /** The `(category, |amount|)` item of each counted debit, in order. */
  function BudgetItems(ts: seq<Transaction>, start: int): (r: seq<Entry<int>>)
    ensures forall i :: 0 <= i < |r| ==> r[i].value > 0
  {
    if |ts| == 0 then []
    else
      var t := ts[|ts| - 1];
      BudgetItems(ts[..|ts| - 1], start) + (if Counted(t, start) then [Entry(BudgetCategory(t), -t.amount)] else [])
  }

  /** What this month's debits of category `c` add up to. */
  function CategorySpent(ts: seq<Transaction>, start: int, c: string): int {
    if |ts| == 0 then 0
    else
      var t := ts[|ts| - 1];
      CategorySpent(ts[..|ts| - 1], start, c) + (if Counted(t, start) && BudgetCategory(t) == c then -t.amount else 0)
  }

  datatype BudgetRow = BudgetRow(name: string, spent: int, budget: nat)

  function Rows(es: seq<Entry<int>>): (r: seq<BudgetRow>)
    ensures |r| == |es|
    ensures forall i :: 0 <= i < |r| ==> r[i] == BudgetRow(es[i].key, es[i].value, BudgetFor(es[i].key))
  {
    seq(|es|, i requires 0 <= i < |es| => BudgetRow(es[i].key, es[i].value, BudgetFor(es[i].key)))
  }

  /** `budgetCategories`: one row per category spent in this month, highest spending first. */
  function BudgetCategories(ts: seq<Transaction>, today: CalendarDate): seq<BudgetRow> {
    Rows(SortDesc(Group(BudgetItems(ts, StartOfMonth(today)))))
  }

  /** The spending of a row list, as `totalSpent` reduces it. */
  function TotalSpent(rows: seq<BudgetRow>): int {
    if |rows| == 0 then 0 else TotalSpent(rows[..|rows| - 1]) + rows[|rows| - 1].spent
  }

  /** The budgets of a row list, as `totalBudget` reduces it. */
  function TotalBudget(rows: seq<BudgetRow>): int {
    if |rows| == 0 then 0 else TotalBudget(rows[..|rows| - 1]) + rows[|rows| - 1].budget
  }

  /** The items add up, per category, to the category's spending this month, and in all to the month's spending. */
  lemma ItemsAreCategorySpent(ts: seq<Transaction>, start: int, c: string)
    ensures SumFor(BudgetItems(ts, start), c) == CategorySpent(ts, start, c)
    ensures Total(BudgetItems(ts, start)) == Spending(Window(ts, start, None))
  {
    ItemsSumFor(ts, start, c);
    ItemsTotal(ts, start);
  }

  lemma {:induction false} ItemsSumFor(ts: seq<Transaction>, start: int, c: string)
    ensures SumFor(BudgetItems(ts, start), c) == CategorySpent(ts, start, c)
  {
    if |ts| > 0 {
      var init := ts[..|ts| - 1];
      var t := ts[|ts| - 1];
      ItemsSumFor(init, start, c);
      var before := BudgetItems(init, start);
      var items := BudgetItems(ts, start);
      if Counted(t, start) {
        assert items[..|items| - 1] == before;
      } else {
        assert items == before;
      }
    }
  }

  lemma {:induction false} ItemsTotal(ts: seq<Transaction>, start: int)
    ensures Total(BudgetItems(ts, start)) == Spending(Window(ts, start, None))
  {
    if |ts| > 0 {
      var init := ts[..|ts| - 1];
      var t := ts[|ts| - 1];
      ItemsTotal(init, start);
      var before := BudgetItems(init, start);
      var items := BudgetItems(ts, start);
      if Counted(t, start) {
        assert items[..|items| - 1] == before;
      } else {
        assert items == before;
      }
      var w := Window(ts, start, None);
      if InWindow(t, start, None) {
        assert w[..|w| - 1] == Window(init, start, None);
      } else {
        assert w == Window(init, start, None);
      }
    }
  }

  /** Some debit of category `c` was posted on or after `start`. */
  predicate SpentIn(ts: seq<Transaction>, start: int, c: string) {
    exists i :: 0 <= i < |ts| && Counted(ts[i], start) && BudgetCategory(ts[i]) == c
  }

  /** A category has items exactly when some counted debit resolves to it. */
  lemma {:induction false} ItemKeys(ts: seq<Transaction>, start: int, c: string)
    ensures HasKey(BudgetItems(ts, start), c) <==> SpentIn(ts, start, c)
  {
    if |ts| > 0 {
      var init := ts[..|ts| - 1];
      var t := ts[|ts| - 1];
      ItemKeys(init, start, c);
      var items := BudgetItems(ts, start);
      if Counted(t, start) {
        assert items[..|items| - 1] == BudgetItems(init, start);
        HasKeyInit(items, c);
      } else {
        assert items == BudgetItems(init, start);
      }
      SpentInLast(ts, start, c);
    }
  }

  lemma SpentInLast(ts: seq<Transaction>, start: int, c: string)
    requires |ts| > 0
    ensures var t := ts[|ts| - 1];
            SpentIn(ts, start, c) <==> SpentIn(ts[..|ts| - 1], start, c) || (Counted(t, start) && BudgetCategory(t) == c)
  {
    var init := ts[..|ts| - 1];
    assert forall i :: 0 <= i < |init| ==> init[i] == ts[i];
  }

  /**
   * The rows are sorted by spending, name each category at most once, list exactly the
   * categories with a debit this month, and carry each category's month spending and its
   * budget from the table (100 dollars when absent).
   */
  lemma BudgetCategoriesCorrect(ts: seq<Transaction>, today: CalendarDate)
    ensures var r := BudgetCategories(ts, today);
            (forall i, j :: 0 <= i < j < |r| ==> r[i].spent >= r[j].spent)
            && (forall i, j :: 0 <= i < j < |r| ==> r[i].name != r[j].name)
            && (forall i :: 0 <= i < |r| ==>
                  r[i].spent == CategorySpent(ts, StartOfMonth(today), r[i].name) > 0
                  && r[i].budget == BudgetFor(r[i].name))
  {
    var start := StartOfMonth(today);
    var g := Group(BudgetItems(ts, start));
    GroupCorrect(BudgetItems(ts, start));
    SortDescCorrect(g);
    SortDescDistinct(g);
    var s := SortDesc(g);
    var r := Rows(s);
    forall i | 0 <= i < |r|
      ensures r[i].spent == CategorySpent(ts, start, r[i].name) > 0
    {
      assert s[i] in multiset(g);
      var j :| 0 <= j < |g| && g[j] == s[i];
      IndexOfDistinct(g, j);
      assert Get(g, s[i].key) == s[i].value;
      ItemsAreCategorySpent(ts, start, s[i].key);
      GroupPositive(BudgetItems(ts, start), j);
    }
  }

  /** In a list with distinct keys, an entry is found at its own position. */
  lemma IndexOfDistinct(es: seq<Entry<int>>, j: int)
    requires DistinctKeys(es) && 0 <= j < |es|
    ensures IndexOf(es, es[j].key) == j
  {
  }

  /** Grouping positive items gives positive totals. */
  lemma {:induction false} GroupPositive(items: seq<Entry<int>>, j: int)
    requires forall i :: 0 <= i < |items| ==> items[i].value > 0
    requires 0 <= j < |Group(items)|
    ensures Group(items)[j].value > 0
  {
    var g := Group(items);
    GroupCorrect(items);
    IndexOfDistinct(g, j);
    SumForPositive(items, g[j].key);
  }

  lemma {:induction false} SumForPositive(items: seq<Entry<int>>, k: string)
    requires forall i :: 0 <= i < |items| ==> items[i].value > 0
    requires HasKey(items, k)
    ensures SumFor(items, k) > 0
  {
    var init := items[..|items| - 1];
    HasKeyInit(items, k);
    if HasKey(init, k) {
      SumForPositive(init, k);
    } else {
      NoKeyNoSum(init, k);
    }
  }

  /** A category appears in the panel exactly when some debit of it was posted this month. */
  lemma BudgetCategoryShown(ts: seq<Transaction>, today: CalendarDate, c: string)
    ensures (exists i :: 0 <= i < |BudgetCategories(ts, today)| && BudgetCategories(ts, today)[i].name == c)
            <==> SpentIn(ts, StartOfMonth(today), c)
  {
    var start := StartOfMonth(today);
    var g := Group(BudgetItems(ts, start));
    GroupCorrect(BudgetItems(ts, start));
    SortDescCorrect(g);
    SortDescDistinct(g);
    ItemKeys(ts, start, c);
    var r := BudgetCategories(ts, today);
    var s := SortDesc(g);
    assert forall i :: 0 <= i < |r| ==> r[i].name == s[i].key;
  }

  /** The panel's total spending is this month's spending. */
  lemma TotalSpentIsMonthSpending(ts: seq<Transaction>, today: CalendarDate)
    ensures TotalSpent(BudgetCategories(ts, today)) == Spending(Window(ts, StartOfMonth(today), None))
  {
    var start := StartOfMonth(today);
    var g := Group(BudgetItems(ts, start));
    GroupCorrect(BudgetItems(ts, start));
    SortDescCorrect(g);
    TotalOfPermutation(SortDesc(g), g);
    ItemsAreCategorySpent(ts, start, "");
    RowTotals(SortDesc(g));
  }

  /** Row totals are the totals of the entries they come from. */
  lemma {:induction false} RowTotals(es: seq<Entry<int>>)
    ensures TotalSpent(Rows(es)) == Total(es)
  {
    if |es| > 0 {
      RowTotals(es[..|es| - 1]);
      assert Rows(es)[..|es| - 1] == Rows(es[..|es| - 1]);
    }
  }

  /** The names of a row list, in order. */
  function Names(rows: seq<BudgetRow>): (r: seq<string>)
    ensures |r| == |rows|
    ensures forall i :: 0 <= i < |r| ==> r[i] == rows[i].name
  {
    seq(|rows|, i requires 0 <= i < |rows| => rows[i].name)
  }

  /** The table budgets of a list of categories, added up. */
  function BudgetSum(cs: seq<string>): int {
    if |cs| == 0 then 0 else BudgetSum(cs[..|cs| - 1]) + BudgetFor(cs[|cs| - 1])
  }

  /** Every budget lies between the smallest and the largest table entry, 50 and 500 dollars. */
  lemma BudgetRange(c: string)
    ensures 5000 <= BudgetFor(c) <= 50000
  {
  }

  lemma {:induction false} RowBudgets(rows: seq<BudgetRow>)
    requires forall i :: 0 <= i < |rows| ==> rows[i].budget == BudgetFor(rows[i].name)
    ensures TotalBudget(rows) == BudgetSum(Names(rows))
    ensures 5000 * |rows| <= TotalBudget(rows) <= 50000 * |rows|
  {
    if |rows| > 0 {
      var init := rows[..|rows| - 1];
      RowBudgets(init);
      assert Names(rows)[..|rows| - 1] == Names(init);
      BudgetRange(rows[|rows| - 1].name);
    }
  }

  /** Some debit of the list was posted on or after `start`. */
  predicate AnyCounted(ts: seq<Transaction>, start: int) {
    exists i :: 0 <= i < |ts| && Counted(ts[i], start)
  }

  /** Some item is produced exactly when some debit was posted this month. */
  lemma {:induction false} ItemsNonEmpty(ts: seq<Transaction>, start: int)
    ensures |BudgetItems(ts, start)| > 0 <==> AnyCounted(ts, start)
  {
    if |ts| > 0 {
      var init := ts[..|ts| - 1];
      ItemsNonEmpty(init, start);
      CountedSplit(ts, start);
    }
  }

  lemma CountedSplit(ts: seq<Transaction>, start: int)
    requires |ts| > 0
    ensures AnyCounted(ts, start) <==> AnyCounted(ts[..|ts| - 1], start) || Counted(ts[|ts| - 1], start)
  {
    var init := ts[..|ts| - 1];
    if AnyCounted(init, start) {
      var i :| 0 <= i < |init| && Counted(init[i], start);
      assert ts[i] == init[i];
    }
    if AnyCounted(ts, start) {
      var i :| 0 <= i < |ts| && Counted(ts[i], start);
      if i < |init| {
        assert init[i] == ts[i];
      }
    }
  }

  /**
   * `totalBudget` adds the table budgets of exactly the categories shown, so it lies between
   * 50 and 500 dollars per shown category, and it is positive exactly when some debit was
   * posted this month.
   */
  lemma TotalBudgetShown(ts: seq<Transaction>, today: CalendarDate)
    ensures var r := BudgetCategories(ts, today);
            && TotalBudget(r) == BudgetSum(Names(r))
            && 5000 * |r| <= TotalBudget(r) <= 50000 * |r|
            && (TotalBudget(r) > 0 <==> AnyCounted(ts, StartOfMonth(today)))
  {
    var start := StartOfMonth(today);
    var items := BudgetItems(ts, start);
    var g := Group(items);
    var r := BudgetCategories(ts, today);
    BudgetCategoriesCorrect(ts, today);
    RowBudgets(r);
    SortDescCorrect(g);
    ItemsNonEmpty(ts, start);
    if |items| > 0 {
      GroupCorrect(items);
      assert HasKey(items, items[0].key);
      assert HasKey(g, items[0].key);
    }
    assert |r| == |g|;
  }

  /** The display state of one category. */
  datatype Level = OverBudget | NearLimit | WithinBudget

  /** `spent / budget * 100 > k`, compared without division since the budget is positive. */
  predicate PercentAbove(row: BudgetRow, k: int) {
    row.spent * 100 > k * row.budget
  }

  /**
   * `percentage = spent / budget * 100`: over budget when it exceeds 100, near the limit
   * when it lies in (80, 100].
   */
  function Classify(row: BudgetRow): (r: Level)
    ensures r == OverBudget <==> PercentAbove(row, 100)
    ensures r == NearLimit <==> PercentAbove(row, 80) && !PercentAbove(row, 100)
    ensures r == WithinBudget <==> !PercentAbove(row, 80)
  {
    if row.spent > row.budget then OverBudget
    else if 5 * row.spent > 4 * row.budget then NearLimit
    else WithinBudget
  }

  /** `Math.min(percentage, 100)`: the progress bar never runs past full. */
  function BarValue(row: BudgetRow): (r: real)
    requires row.budget > 0
    ensures r * row.budget as real == (if row.spent >= row.budget then 100 * row.budget else 100 * row.spent) as real
  {
    if row.spent >= row.budget then 100.0 else (100 * row.spent) as real / row.budget as real
  }

  /** The bar is full exactly when the row is over budget or exactly at it, and never past full. */
  lemma FullBar(row: BudgetRow)
    requires row.budget > 0
    ensures BarValue(row) <= 100.0
    ensures BarValue(row) == 100.0 <==> Classify(row) == OverBudget || row.spent == row.budget
    ensures row.spent >= 0 ==> BarValue(row) >= 0.0
  {
    var b := row.budget as real;
    var r := BarValue(row);
    if row.spent < row.budget {
      assert r * b == (100 * row.spent) as real < 100.0 * b;
    }
  }
}
