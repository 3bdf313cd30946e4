/**
 * The category spending chart: payment debits grouped by category, the largest eight
 * kept and the rest folded into one "Other" slice. This component reads `class` as
 * the plain string the API sends, so a record-shaped `class` on a debit makes it throw.
 */
module CategorySpending {
  import opened Wrappers
  import opened Text
  import opened Records
  import opened Categories
  import opened Ledger
  import opened Flows

  const TopCount := 8
  const OtherLabel := "Other"

  /** `t.class?.toLowerCase()` on a debit: `None` when `class` is an object and the call throws. */
  function ClassLower(t: Transaction): Option<Option<string>> {
    match t.cls
    case None => Some(None)
    case Some(ClassText(text)) => Some(Some(Lower(text)))
    case Some(ClassRecord(_)) => None
  }

  /** A debit whose string class is "payment" in any letter case. */
  predicate IsPaymentDebit(t: Transaction) {
    t.amount < 0 && t.cls.Some? && t.cls.value.ClassText? && Lower(t.cls.value.text) == "payment"
  }

  /** A debit on which the filter throws. */
  predicate Throws(t: Transaction) {
    t.amount < 0 && t.cls.Some? && t.cls.value.ClassRecord?
  }

  /** The chain of this chart: the enrichment titles, then the class string itself. */
  function ChartCategory(t: Transaction): (r: string)
    requires IsPaymentDebit(t)
    ensures r != ""
    ensures FirstTruthy(EnrichedTitles(t)).None? ==> r == t.cls.value.text
    ensures FirstTruthy(EnrichedTitles(t)).Some? ==> r == FirstTruthy(EnrichedTitles(t)).value
  {
    assert Lower(t.cls.value.text) != "";
    OrElse(FirstTruthy(EnrichedTitles(t)), t.cls.value.text)
  }

  /** The `(category, |amount|)` items of the payment debits, in order; `None` if the filter throws. */
  function Expenses(ts: seq<Transaction>): (r: Option<seq<Entry<int>>>)
    ensures r.None? <==> AnyThrows(ts)
    ensures r.Some? ==> forall i :: 0 <= i < |r.value| ==> r.value[i].value > 0
    ensures r.Some? ==> Total(r.value) == Spending(Payments(ts))
  {
    if |ts| == 0 then Some([])
    else
      var init := ts[..|ts| - 1];
      var t := ts[|ts| - 1];
      var prefix := Expenses(init);
      ThrowsSplit(ts);
      if prefix.None? then None
      else if Throws(t) then None
      else if IsPaymentDebit(t) then
        ExpensesStep(ts, prefix.value);
        Some(prefix.value + [Entry(ChartCategory(t), -t.amount)])
      else prefix
  }

  /** Some transaction of `ts` makes the filter throw. */
  predicate AnyThrows(ts: seq<Transaction>) {
    exists i :: 0 <= i < |ts| && Throws(ts[i])
  }

  /** Some transaction throws iff one before the last does or the last one does. */
  lemma ThrowsSplit(ts: seq<Transaction>)
    requires |ts| > 0
    ensures AnyThrows(ts) <==> AnyThrows(ts[..|ts| - 1]) || Throws(ts[|ts| - 1])
  {
    var init := ts[..|ts| - 1];
    assert forall i :: 0 <= i < |init| ==> init[i] == ts[i];
  }

  /** Appending a payment debit's item keeps the items positive and totalling payment spending. */
  lemma ExpensesStep(ts: seq<Transaction>, prefix: seq<Entry<int>>)
    requires |ts| > 0 && IsPaymentDebit(ts[|ts| - 1])
    requires forall i :: 0 <= i < |prefix| ==> prefix[i].value > 0
    requires Total(prefix) == Spending(Payments(ts[..|ts| - 1]))
    ensures var r := prefix + [Entry(ChartCategory(ts[|ts| - 1]), -ts[|ts| - 1].amount)];
            (forall i :: 0 <= i < |r| ==> r[i].value > 0) && Total(r) == Spending(Payments(ts))
  {
    var t := ts[|ts| - 1];
    var r := prefix + [Entry(ChartCategory(t), -t.amount)];
    assert r[..|r| - 1] == prefix;
    SpendingAppend(Payments(ts[..|ts| - 1]), [t]);
    SpendingOne(t);
  }

  /** The payment debits, in order. */
  function Payments(ts: seq<Transaction>): seq<Transaction> {
    if |ts| == 0 then []
    else if IsPaymentDebit(ts[|ts| - 1]) then Payments(ts[..|ts| - 1]) + [ts[|ts| - 1]]
    else Payments(ts[..|ts| - 1])
  }

  /** The first `n` entries, followed by an "Other" entry holding the rest's total when that is positive. */
  function TopWithOther(sorted: seq<Entry<int>>, n: nat): (r: seq<Entry<int>>)
    ensures |r| <= n + 1
    ensures |sorted| <= n ==> r == sorted
    ensures |sorted| > n ==> |r| >= n && r[..n] == sorted[..n]
  {
    if |sorted| <= n then sorted
    else
      var other := Total(sorted[n..]);
      if other > 0 then sorted[..n] + [Entry(OtherLabel, other)] else sorted[..n]
  }

  /** Folding the tail into "Other" loses nothing when no value is negative. */
  lemma {:induction false} TopWithOtherTotal(sorted: seq<Entry<int>>, n: nat)
    requires forall i :: 0 <= i < |sorted| ==> sorted[i].value >= 0
    ensures Total(TopWithOther(sorted, n)) == Total(sorted)
  {
    if |sorted| > n {
      var top, tail := sorted[..n], sorted[n..];
      forall i | 0 <= i < |tail| ensures tail[i].value >= 0 {
        assert tail[i] == sorted[n + i];
      }
      TotalNonNegative(tail);
      assert sorted == top + tail;
      TotalAppend(top, tail);
      var other := Total(tail);
      if other > 0 {
        var r := top + [Entry(OtherLabel, other)];
        assert r[..|r| - 1] == top;
        assert TopWithOther(sorted, n) == r;
      } else {
        assert TopWithOther(sorted, n) == top;
      }
    }
  }

  lemma {:induction false} TotalNonNegative(es: seq<Entry<int>>)
    requires forall i :: 0 <= i < |es| ==> es[i].value >= 0
    ensures Total(es) >= 0
  {
    if |es| > 0 {
      TotalNonNegative(es[..|es| - 1]);
    }
  }

  /** `categoryData`: the chart slices, or `None` when rendering throws. */
  function CategoryData(ts: seq<Transaction>): (r: Option<seq<Entry<int>>>)
    ensures r.None? <==> AnyThrows(ts)
    ensures r.Some? ==> |r.value| <= TopCount + 1
  {
    var items := Expenses(ts);
    if items.None? then None
    else Some(TopWithOther(SortDesc(Group(items.value)), TopCount))
  }

  /**
   * The chart's total (the sum its percentages divide by) is the total of all payment
   * debits: the "Other" slice accounts for every category beyond the top eight.
   */
  lemma ChartTotalIsPaymentSpending(ts: seq<Transaction>)
    requires CategoryData(ts).Some?
    ensures Total(CategoryData(ts).value) == Spending(Payments(ts))
  {
    var items := Expenses(ts).value;
    var g := Group(items);
    GroupCorrect(items);
    SortDescCorrect(g);
    TotalOfPermutation(SortDesc(g), g);
    var s := SortDesc(g);
    forall i | 0 <= i < |s| ensures s[i].value >= 0 {
      assert s[i] in multiset(g);
      var j :| 0 <= j < |g| && g[j] == s[i];
      assert HasKey(g, s[i].key);
      GetIsSumFor(g, s[i].key);
      assert IndexOf(g, s[i].key) == j;
      SumForNonNegative(items, s[i].key);
    }
    TopWithOtherTotal(s, TopCount);
  }

  lemma {:induction false} SumForNonNegative(es: seq<Entry<int>>, k: string)
    requires forall i :: 0 <= i < |es| ==> es[i].value >= 0
    ensures SumFor(es, k) >= 0
  {
    if |es| > 0 {
      SumForNonNegative(es[..|es| - 1], k);
    }
  }

  /** The top slices come in descending order of spending. */
  lemma TopSlicesDescend(ts: seq<Transaction>)
    requires CategoryData(ts).Some?
    ensures var r := CategoryData(ts).value;
            forall i, j :: 0 <= i < j < |r| && j < TopCount ==> r[i].value >= r[j].value
  {
    var g := Group(Expenses(ts).value);
    SortDescCorrect(g);
    var s := SortDesc(g);
    var r := CategoryData(ts).value;
    var n := if TopCount < |s| then TopCount else |s|;
    assert r[..n] == s[..n];
    forall i, j | 0 <= i < j < |r| && j < TopCount ensures r[i].value >= r[j].value {
      assert r[i] == r[..n][i] == s[i];
      assert r[j] == r[..n][j] == s[j];
    }
  }

  /** Each entry of the sorted grouping is a category of the items holding that category's sum. */
  lemma SortedGroupEntry(items: seq<Entry<int>>, i: int)
    requires 0 <= i < |SortDesc(Group(items))|
    ensures var e := SortDesc(Group(items))[i];
            HasKey(items, e.key) && e.value == SumFor(items, e.key)
  {
    var g := Group(items);
    GroupCorrect(items);
    SortDescCorrect(g);
    var e := SortDesc(g)[i];
    assert e in multiset(g);
    var j :| 0 <= j < |g| && g[j] == e;
    assert HasKey(g, e.key);
    assert IndexOf(g, e.key) == j;
  }

  /**
   * The named slices are the largest categories: each is a distinct category of the
   * payment debits showing that category's spending, no category left out spends more
   * than any of them, and a ninth slice is "Other".
   */
  lemma CategorySlices(ts: seq<Transaction>)
    requires CategoryData(ts).Some?
    ensures var items := Expenses(ts).value;
            var r := CategoryData(ts).value;
            var n := NamedCount(r);
            && (forall i :: 0 <= i < n ==> HasKey(items, r[i].key) && r[i].value == SumFor(items, r[i].key))
            && (forall i, j :: 0 <= i < j < n ==> r[i].key != r[j].key)
            && (forall i, k :: 0 <= i < n && HasKey(items, k) && (forall j :: 0 <= j < n ==> r[j].key != k) ==>
                  SumFor(items, k) <= r[i].value)
            && (|r| > TopCount ==> r[TopCount].key == OtherLabel)
  {
    SlicesAreCategorySums(ts);
    SlicesDistinct(ts);
    SlicesDominate(ts);
    NinthIsOther(ts);
  }

  /** The number of named (non-"Other") slices among `r`. */
  function NamedCount(r: seq<Entry<int>>): nat {
    if |r| < TopCount then |r| else TopCount
  }

  /** The named slices are the leading entries of the categories sorted by spending. */
  lemma NamedSlicesLead(ts: seq<Transaction>)
    requires CategoryData(ts).Some?
    ensures var r := CategoryData(ts).value;
            var s := SortDesc(Group(Expenses(ts).value));
            NamedCount(r) <= |s| && forall j :: 0 <= j < NamedCount(r) ==> r[j] == s[j]
  {
    var s := SortDesc(Group(Expenses(ts).value));
    var r := CategoryData(ts).value;
    var n := NamedCount(r);
    assert n <= |s| && r[..n] == s[..n];
    forall j | 0 <= j < n ensures r[j] == s[j] {
      assert r[j] == r[..n][j];
    }
  }

  /** Each named slice is a category of the payment debits showing that category's spending. */
  lemma SlicesAreCategorySums(ts: seq<Transaction>)
    requires CategoryData(ts).Some?
    ensures var items := Expenses(ts).value;
            var r := CategoryData(ts).value;
            forall i :: 0 <= i < NamedCount(r) ==> HasKey(items, r[i].key) && r[i].value == SumFor(items, r[i].key)
  {
    var items := Expenses(ts).value;
    var r := CategoryData(ts).value;
    NamedSlicesLead(ts);
    forall i | 0 <= i < NamedCount(r) ensures HasKey(items, r[i].key) && r[i].value == SumFor(items, r[i].key) {
      SortedGroupEntry(items, i);
    }
  }

  /** No two named slices share a category. */
  lemma SlicesDistinct(ts: seq<Transaction>)
    requires CategoryData(ts).Some?
    ensures var r := CategoryData(ts).value;
            forall i, j :: 0 <= i < j < NamedCount(r) ==> r[i].key != r[j].key
  {
    var g := Group(Expenses(ts).value);
    GroupCorrect(Expenses(ts).value);
    SortDescDistinct(g);
    NamedSlicesLead(ts);
  }

  /** A category left out of the named slices spends no more than any of them. */
  lemma SlicesDominate(ts: seq<Transaction>)
    requires CategoryData(ts).Some?
    ensures var items := Expenses(ts).value;
            var r := CategoryData(ts).value;
            forall i, k :: 0 <= i < NamedCount(r) && HasKey(items, k) && (forall j :: 0 <= j < NamedCount(r) ==> r[j].key != k) ==>
              SumFor(items, k) <= r[i].value
  {
    var items := Expenses(ts).value;
    var g := Group(items);
    GroupCorrect(items);
    SortDescCorrect(g);
    SortDescDistinct(g);
    var s := SortDesc(g);
    var r := CategoryData(ts).value;
    var n := NamedCount(r);
    NamedSlicesLead(ts);
    forall i, k | 0 <= i < n && HasKey(items, k) && (forall j :: 0 <= j < n ==> r[j].key != k)
      ensures SumFor(items, k) <= r[i].value
    {
      assert HasKey(s, k);
      var m :| 0 <= m < |s| && s[m].key == k;
      assert n <= m;
      SortedGroupEntry(items, m);
    }
  }

  /** A slice after the eight named ones is the folded "Other" slice. */
  lemma NinthIsOther(ts: seq<Transaction>)
    requires CategoryData(ts).Some?
    ensures var r := CategoryData(ts).value;
            |r| > TopCount ==> r[TopCount].key == OtherLabel
  {
  }

  /** A payment debit never lands in "Uncategorized": its class string is always a truthy fallback. */
  lemma NeverUncategorized(t: Transaction)
    requires IsPaymentDebit(t)
    ensures ChartCategory(t) == Uncategorized ==>
              FirstTruthy(EnrichedTitles(t)) == Some(Uncategorized) || t.cls.value.text == Uncategorized
  {
  }
}
