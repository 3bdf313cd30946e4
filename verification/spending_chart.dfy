/**
 * The monthly spending chart: debits bucketed by their "Mon YY" label since the first
 * day of the month `monthsBack - 1` months ago, then one bar per month up to the
 * current one. The label, not the date, is the bucket key.
 */
module SpendingChart {
  import opened Wrappers
  import opened Calendar
  import opened Records
  import opened Ledger
  import opened Flows

  const MonthsBack := 12
  /** What `toLocaleString` gives for a date that did not parse. */
  const InvalidLabel := "Invalid Date"

  function MonthName(m: int): (r: string)
    requires 1 <= m <= 12
    ensures |r| == 3
  {
    ["Jan", "Feb", "Mar", "Apr", "May", "Jun", "Jul", "Aug", "Sep", "Oct", "Nov", "Dec"][m - 1]
  }

  function Digit(d: int): char
    requires 0 <= d <= 9
  {
    ('0' as int + d) as char
  }

  /** `toLocaleString("en-US", { month: "short", year: "2-digit" })`, e.g. "Mar 24". */
  function Label(y: int, m: int): (r: string)
    requires 1 <= m <= 12
    ensures |r| == 6
  {
    MonthName(m) + " " + [Digit((y % 100) / 10), Digit((y % 100) % 10)]
  }

  /** Two labels agree exactly when the months agree and the years agree in their last two digits. */
  lemma LabelInjective(y1: int, m1: int, y2: int, m2: int)
    requires 1 <= m1 <= 12 && 1 <= m2 <= 12
    ensures Label(y1, m1) == Label(y2, m2) <==> m1 == m2 && y1 % 100 == y2 % 100
  {
    var a, b := Label(y1, m1), Label(y2, m2);
    if a == b {
      assert a[..3] == MonthName(m1) && b[..3] == MonthName(m2);
      assert a[4] == b[4] && a[5] == b[5];
      var t1, t2 := y1 % 100, y2 % 100;
      assert t1 == 10 * (t1 / 10) + t1 % 10 && t2 == 10 * (t2 / 10) + t2 % 10;
    }
  }

  /** The bucket key of a transaction. */
  function DateLabel(d: DateField): string {
    if !d.Parsed? then InvalidLabel else Label(d.date.year, d.date.month)
  }

  /** The first month shown: `monthsBack - 1` months before the current one. */
  function StartMonth(today: CalendarDate, n: int): (int, int) {
    ShiftMonth(today.year, today.month, -(n - 1))
  }

  /** `new Date(y, m - (n - 1), 1)` as a day number. */
  function StartDay(today: CalendarDate, n: int): int {
    DayNumber(today.year, today.month - 1 - (n - 1), 1)
  }

  /** The month of bar `j`, counting from the oldest. */
  function BarMonth(today: CalendarDate, n: int, j: int): (int, int) {
    ShiftMonth(today.year, today.month, j - (n - 1))
  }

  /** The `(label, |amount|)` item of each debit not dated before the start; an unparsable date is kept. */
  function ChartItems(ts: seq<Transaction>, start: int): (r: seq<Entry<int>>)
    ensures forall i :: 0 <= i < |r| ==> r[i].value > 0
  {
    if |ts| == 0 then []
    else
      var t := ts[|ts| - 1];
      ChartItems(ts[..|ts| - 1], start)
      + (if !PostedBefore(t, start) && t.amount < 0 then [Entry(DateLabel(t.postDate), -t.amount)] else [])
  }

  datatype Bar = Bar(name: string, spending: int)

  /** `generateChartData(transactions, n)`: one bar per month, oldest first, each with its bucket's total. */
  function ChartData(ts: seq<Transaction>, today: CalendarDate, n: int): (r: seq<Bar>)
    ensures |r| == if n > 0 then n else 0
    ensures forall j :: 0 <= j < |r| ==> r[j].name == Label(BarMonth(today, n, j).0, BarMonth(today, n, j).1)
  {
    var totals := Group(ChartItems(ts, StartDay(today, n)));
    var count := if n > 0 then n else 0;
    seq(count, j requires 0 <= j < count =>
      var m := BarMonth(today, n, j);
      Bar(Label(m.0, m.1), Get(totals, Label(m.0, m.1))))
  }

  /** The bars run through consecutive months and end at the current one. */
  lemma BarsAreConsecutive(ts: seq<Transaction>, today: CalendarDate, n: int)
    requires n > 0
    ensures var r := ChartData(ts, today, n);
            r[n - 1].name == Label(today.year, today.month)
            && forall j :: 0 <= j < n ==> MonthCount(BarMonth(today, n, j).0, BarMonth(today, n, j).1) == MonthCount(today.year, today.month) - (n - 1) + j
  {
    var m := BarMonth(today, n, n - 1);
    assert MonthCount(m.0, m.1) == MonthCount(today.year, today.month);
    SameMonthCount(m.0, m.1, today.year, today.month);
  }

  lemma SameMonthCount(y1: int, m1: int, y2: int, m2: int)
    requires 1 <= m1 <= 12 && 1 <= m2 <= 12
    requires MonthCount(y1, m1) == MonthCount(y2, m2)
    ensures y1 == y2 && m1 == m2
  {
    assert (y1 - y2) * 12 == m2 - m1;
  }

  /**
   * A debit with a date no later than today lands in bar `j` exactly when it falls in bar
   * `j`'s month, as long as the chart spans at most a hundred years (the two-digit year
   * would otherwise merge months a century apart).
   */
  lemma InBar(t: Transaction, today: CalendarDate, n: int, j: int)
    requires 1 <= n <= 1200 && 0 <= j < n
    requires t.postDate.Parsed? && Ordinal(t.postDate.date) <= Ordinal(today)
    ensures var b := BarMonth(today, n, j);
            (!PostedBefore(t, StartDay(today, n)) && DateLabel(t.postDate) == Label(b.0, b.1))
            <==> MonthCount(t.postDate.date.year, t.postDate.date.month) == MonthCount(b.0, b.1)
  {
    var d := t.postDate.date;
    var b := BarMonth(today, n, j);
    StartBound(d, today, n);
    var md, mb := MonthCount(d.year, d.month), MonthCount(b.0, b.1);
    if md == mb {
      SameMonthCount(d.year, d.month, b.0, b.1);
    }
    if !PostedBefore(t, StartDay(today, n)) && DateLabel(t.postDate) == Label(b.0, b.1) {
      assert -1200 < md - mb < 1200;
      NearbyLabels(d.year, d.month, b.0, b.1);
    }
  }

  /** A date no later than today is on or after the chart's first day exactly when its month is. */
  lemma StartBound(d: CalendarDate, today: CalendarDate, n: int)
    requires n >= 1 && Ordinal(d) <= Ordinal(today)
    ensures var s := StartMonth(today, n);
            && (Ordinal(d) >= StartDay(today, n) <==> MonthCount(d.year, d.month) >= MonthCount(s.0, s.1))
            && MonthCount(d.year, d.month) <= MonthCount(today.year, today.month)
  {
    var s := StartMonth(today, n);
    StartDayIsMonthStart(today, n);
    OnOrAfterMonthStart(d, s.0, s.1);
    assert MonthCount(d.year, d.month) <= MonthCount(today.year, today.month) by {
      OrdinalMonotone(today, d);
    }
  }

  /** The chart's first day is the first day of its first month. */
  lemma StartDayIsMonthStart(today: CalendarDate, n: int)
    ensures StartDay(today, n) == MonthStart(StartMonth(today, n).0, StartMonth(today, n).1)
  {
    DayNumberOfMonthShift(today.year, today.month, -(n - 1));
  }

  /** Two months less than a century apart with the same label are the same month. */
  lemma NearbyLabels(y1: int, m1: int, y2: int, m2: int)
    requires 1 <= m1 <= 12 && 1 <= m2 <= 12
    requires -1200 < MonthCount(y1, m1) - MonthCount(y2, m2) < 1200
    requires Label(y1, m1) == Label(y2, m2)
    ensures y1 == y2 && m1 == m2
  {
    LabelInjective(y1, m1, y2, m2);
    assert MonthCount(y1, m1) - MonthCount(y2, m2) == 12 * (y1 - y2);
    CenturyApart(y1, y2);
  }

  /** Years less than a century apart with the same last two digits are equal. */
  lemma CenturyApart(a: int, b: int)
    requires a % 100 == b % 100 && -100 < a - b < 100
    ensures a == b
  {
    assert a == 100 * (a / 100) + a % 100;
    assert b == 100 * (b / 100) + b % 100;
    assert a - b == 100 * (a / 100 - b / 100);
  }

  /** The debits of transactions whose date falls in month `(y, m)`. */
  function MonthSpending(ts: seq<Transaction>, y: int, m: int): int {
    if |ts| == 0 then 0
    else
      var t := ts[|ts| - 1];
      MonthSpending(ts[..|ts| - 1], y, m)
      + (if t.postDate.Parsed? && MonthCount(t.postDate.date.year, t.postDate.date.month) == MonthCount(y, m)
         then Debit(t) else 0)
  }

  /** Bar `j` holds the bucket total of its label. */
  lemma BarIsBucket(ts: seq<Transaction>, today: CalendarDate, n: int, j: int)
    requires 0 <= j < n
    ensures ChartData(ts, today, n)[j].spending == SumFor(ChartItems(ts, StartDay(today, n)), ChartData(ts, today, n)[j].name)
  {
    GroupCorrect(ChartItems(ts, StartDay(today, n)));
  }

  /**
   * When no transaction is dated after today, bar `j` is exactly the spending of its month
   * (for charts of at most a hundred years).
   */
  lemma {:induction false} BucketIsMonthSpending(ts: seq<Transaction>, today: CalendarDate, n: int, j: int)
    requires 1 <= n <= 1200 && 0 <= j < n
    requires forall i :: 0 <= i < |ts| && ts[i].postDate.Parsed? ==> Ordinal(ts[i].postDate.date) <= Ordinal(today)
    ensures var b := BarMonth(today, n, j);
            SumFor(ChartItems(ts, StartDay(today, n)), Label(b.0, b.1)) == MonthSpending(ts, b.0, b.1)
  {
    if |ts| > 0 {
      var init := ts[..|ts| - 1];
      var t := ts[|ts| - 1];
      assert forall i :: 0 <= i < |init| ==> init[i] == ts[i];
      BucketIsMonthSpending(init, today, n, j);
      var b := BarMonth(today, n, j);
      ItemsStep(ts, StartDay(today, n), Label(b.0, b.1));
      CountedIffInMonth(t, today, n, j);
    }
  }

  /** Adding a transaction adds its debit to its bucket when it is counted. */
  lemma ItemsStep(ts: seq<Transaction>, start: int, key: string)
    requires |ts| > 0
    ensures var t := ts[|ts| - 1];
            SumFor(ChartItems(ts, start), key) == SumFor(ChartItems(ts[..|ts| - 1], start), key)
              + (if !PostedBefore(t, start) && DateLabel(t.postDate) == key then Debit(t) else 0)
  {
    var t := ts[|ts| - 1];
    var before := ChartItems(ts[..|ts| - 1], start);
    var items := ChartItems(ts, start);
    if !PostedBefore(t, start) && t.amount < 0 {
      assert items[..|items| - 1] == before;
    } else {
      assert items == before;
    }
  }

  /** The per-transaction form of `InBar`, also covering unparsable dates. */
  lemma CountedIffInMonth(t: Transaction, today: CalendarDate, n: int, j: int)
    requires 1 <= n <= 1200 && 0 <= j < n
    requires t.postDate.Parsed? ==> Ordinal(t.postDate.date) <= Ordinal(today)
    ensures var b := BarMonth(today, n, j);
            (!PostedBefore(t, StartDay(today, n)) && DateLabel(t.postDate) == Label(b.0, b.1))
            <==> (t.postDate.Parsed? && MonthCount(t.postDate.date.year, t.postDate.date.month) == MonthCount(b.0, b.1))
  {
    var b := BarMonth(today, n, j);
    if t.postDate.Parsed? {
      InBar(t, today, n, j);
    } else {
      assert |DateLabel(t.postDate)| != |Label(b.0, b.1)|;
    }
  }

  /**
   * Combining the two: when no transaction is dated after today, each bar of a chart of at
   * most a hundred years shows exactly the spending of its own month.
   */
  lemma ChartShowsMonthSpending(ts: seq<Transaction>, today: CalendarDate, n: int, j: int, y: int, m: int)
    requires 1 <= n <= 1200 && 0 <= j < n && (y, m) == BarMonth(today, n, j)
    requires forall i :: 0 <= i < |ts| && ts[i].postDate.Parsed? ==> Ordinal(ts[i].postDate.date) <= Ordinal(today)
    ensures ChartData(ts, today, n)[j].name == Label(y, m)
    ensures ChartData(ts, today, n)[j].spending == MonthSpending(ts, y, m)
  {
    BarIsBucket(ts, today, n, j);
    BucketIsMonthSpending(ts, today, n, j);
  }

  /** The items of a single transaction. */
  lemma ItemsOfOne(t: Transaction, start: int)
    ensures ChartItems([t], start) == if !PostedBefore(t, start) && t.amount < 0 then [Entry(DateLabel(t.postDate), -t.amount)] else []
  {
    assert [t][..0] == [];
  }

  /** A date a century ahead shares its label with a shown month and is counted in it. */
  lemma CenturyAheadCollides()
    ensures var today := Date(2024, 3, 15);
            var t := Transaction("x", None, -500, Parsed(Date(2124, 3, 1)), Missing, None, None,
                                 Anzsic(None, None, None, None, None), None);
            ChartData([t], today, MonthsBack)[MonthsBack - 1].spending == 500
  {
    var today := Date(2024, 3, 15);
    var t := Transaction("x", None, -500, Parsed(Date(2124, 3, 1)), Missing, None, None,
                         Anzsic(None, None, None, None, None), None);
    var items := ChartItems([t], StartDay(today, MonthsBack));
    CenturyAheadItem(t, today);
    BarIsBucket([t], today, MonthsBack, MonthsBack - 1);
    var name := ChartData([t], today, MonthsBack)[MonthsBack - 1].name;
    var b := BarMonth(today, MonthsBack, MonthsBack - 1);
    assert b == (2024, 3);
    assert name == Label(2024, 3);
    assert Label(2124, 3) == Label(2024, 3) by {
      assert 2124 % 100 == 2024 % 100;
      LabelInjective(2124, 3, 2024, 3);
    }
    assert SumFor(items, name) == 500 by {
      assert items[..0] == [];
    }
  }

  /** The debit dated a century ahead is a chart item of its own label. */
  lemma CenturyAheadItem(t: Transaction, today: CalendarDate)
    requires today == Date(2024, 3, 15) && t.amount == -500 && t.postDate == Parsed(Date(2124, 3, 1))
    ensures ChartItems([t], StartDay(today, MonthsBack)) == [Entry(Label(2124, 3), 500)]
  {
    var start := StartDay(today, MonthsBack);
    assert !PostedBefore(t, start) by {
      StartDayIsMonthStart(today, MonthsBack);
      assert StartMonth(today, MonthsBack) == (2023, 4);
      OnOrAfterMonthStart(Date(2124, 3, 1), 2023, 4);
    }
    ItemsOfOne(t, start);
  }
}
