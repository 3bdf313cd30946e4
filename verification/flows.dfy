/**
 * Money flows over transaction lists: the debit and credit totals and the date
 * windows the dashboard's summaries filter on. A debit is a negative amount and
 * counts by its absolute value.
 */
module Flows {
  import opened Wrappers
  import opened Calendar
  import opened Records

  /** `Math.abs(amount)` for a debit, 0 otherwise. */
  function Debit(t: Transaction): nat {
    if t.amount < 0 then -t.amount else 0
  }

  /** The amount of a credit, 0 otherwise. */
  function Credit(t: Transaction): nat {
    if t.amount > 0 then t.amount else 0
  }

  /** Total spending: the absolute values of the debits. */
  function Spending(ts: seq<Transaction>): nat {
    if |ts| == 0 then 0 else Spending(ts[..|ts| - 1]) + Debit(ts[|ts| - 1])
  }

  /** Total income: the credits. */
  function Income(ts: seq<Transaction>): nat {
    if |ts| == 0 then 0 else Income(ts[..|ts| - 1]) + Credit(ts[|ts| - 1])
  }

  /** The number of credits. */
  function CreditCount(ts: seq<Transaction>): (n: nat)
    ensures n <= |ts|
    ensures n == 0 <==> forall i :: 0 <= i < |ts| ==> ts[i].amount <= 0
  {
    if |ts| == 0 then 0
    else
      assert forall i :: 0 <= i < |ts| - 1 ==> ts[..|ts| - 1][i] == ts[i];
      CreditCount(ts[..|ts| - 1]) + (if ts[|ts| - 1].amount > 0 then 1 else 0)
  }

  lemma SpendingOne(t: Transaction)
    ensures Spending([t]) == Debit(t)
  {
    assert [t][..0] == [];
  }

  lemma {:induction false} SpendingAppend(a: seq<Transaction>, b: seq<Transaction>)
    ensures Spending(a + b) == Spending(a) + Spending(b)
    decreases |b|
  {
    if |b| == 0 {
      assert a + b == a;
    } else {
      var init := b[..|b| - 1];
      assert (a + b)[..|a + b| - 1] == a + init;
      SpendingAppend(a, init);
    }
  }

  lemma {:induction false} IncomeAppend(a: seq<Transaction>, b: seq<Transaction>)
    ensures Income(a + b) == Income(a) + Income(b)
    decreases |b|
  {
    if |b| == 0 {
      assert a + b == a;
    } else {
      var init := b[..|b| - 1];
      assert (a + b)[..|a + b| - 1] == a + init;
      IncomeAppend(a, init);
    }
  }

  /** Spending is zero exactly when there is no debit, and positive income exactly when there is a credit. */
  lemma {:induction false} FlowSigns(ts: seq<Transaction>)
    ensures Spending(ts) == 0 <==> forall i :: 0 <= i < |ts| ==> ts[i].amount >= 0
    ensures Income(ts) == 0 <==> forall i :: 0 <= i < |ts| ==> ts[i].amount <= 0
  {
    if |ts| > 0 {
      var init := ts[..|ts| - 1];
      FlowSigns(init);
      assert forall i :: 0 <= i < |init| ==> init[i] == ts[i];
    }
  }

  /** `new Date(postDate) >= bound`: an unparsable date compares false. */
  predicate PostedOnOrAfter(t: Transaction, bound: int) {
    t.postDate.Parsed? && Ordinal(t.postDate.date) >= bound
  }

  /** `new Date(postDate) < bound`: an unparsable date compares false. */
  predicate PostedBefore(t: Transaction, bound: int) {
    t.postDate.Parsed? && Ordinal(t.postDate.date) < bound
  }

  /** The transactions posted on or after day `lo` and, when `hi` is given, before day `hi`, in order. */
  function Window(ts: seq<Transaction>, lo: int, hi: Option<int>): (r: seq<Transaction>)
    ensures |r| <= |ts|
    ensures forall t {:trigger t in r} :: t in r <==> t in ts && InWindow(t, lo, hi)
  {
    if |ts| == 0 then []
    else
      var init := ts[..|ts| - 1];
      var last := ts[|ts| - 1];
      assert ts == init + [last];
      Window(init, lo, hi) + (if InWindow(last, lo, hi) then [last] else [])
  }

  predicate InWindow(t: Transaction, lo: int, hi: Option<int>) {
    PostedOnOrAfter(t, lo) && (hi.None? || PostedBefore(t, hi.value))
  }

  /** One transaction is in the window's list exactly when it falls in the window. */
  lemma WindowOne(t: Transaction, lo: int, hi: Option<int>)
    ensures Window([t], lo, hi) == if InWindow(t, lo, hi) then [t] else []
  {
    assert [t][..0] == [];
  }

  /** `filter` distributes over concatenation: the window keeps order and repeats. */
  lemma {:induction false} WindowAppend(a: seq<Transaction>, b: seq<Transaction>, lo: int, hi: Option<int>)
    ensures Window(a + b, lo, hi) == Window(a, lo, hi) + Window(b, lo, hi)
    decreases |b|
  {
    if |b| == 0 {
      assert a + b == a;
    } else {
      var init, last := b[..|b| - 1], b[|b| - 1];
      var tail := if InWindow(last, lo, hi) then [last] else [];
      calc {
        Window(a + b, lo, hi);
        { assert a + b == (a + init) + [last]; }
        Window((a + init) + [last], lo, hi);
        { WindowSnoc(a + init, last, lo, hi); }
        Window(a + init, lo, hi) + tail;
        { WindowAppend(a, init, lo, hi); }
        (Window(a, lo, hi) + Window(init, lo, hi)) + tail;
        Window(a, lo, hi) + (Window(init, lo, hi) + tail);
        { WindowSnoc(init, last, lo, hi); assert b == init + [last]; }
        Window(a, lo, hi) + Window(b, lo, hi);
      }
    }
  }

  lemma WindowSnoc(xs: seq<Transaction>, x: Transaction, lo: int, hi: Option<int>)
    ensures Window(xs + [x], lo, hi) == Window(xs, lo, hi) + (if InWindow(x, lo, hi) then [x] else [])
  {
    var ys := xs + [x];
    assert ys[..|ys| - 1] == xs;
  }

  /** Moving the lower bound later can only drop spending from an open-ended window. */
  lemma {:induction false} LaterWindowSpendsLess(ts: seq<Transaction>, early: int, late: int)
    requires early <= late
    ensures Spending(Window(ts, late, None)) <= Spending(Window(ts, early, None))
  {
    if |ts| > 0 {
      var init := ts[..|ts| - 1];
      var last := ts[|ts| - 1];
      LaterWindowSpendsLess(init, early, late);
      SpendingAppend(Window(init, late, None), if InWindow(last, late, None) then [last] else []);
      SpendingAppend(Window(init, early, None), if InWindow(last, early, None) then [last] else []);
      SpendingOne(last);
    }
  }

  /** Splitting at `mid` divides the spending of `[lo, ∞)` between `[lo, mid)` and `[mid, ∞)`. */
  lemma {:induction false} WindowSplit(ts: seq<Transaction>, lo: int, mid: int)
    requires lo <= mid
    ensures Spending(Window(ts, lo, None)) == Spending(Window(ts, lo, Some(mid))) + Spending(Window(ts, mid, None))
  {
    if |ts| > 0 {
      var init := ts[..|ts| - 1];
      var last := ts[|ts| - 1];
      WindowSplit(init, lo, mid);
      SpendingOne(last);
      SpendingAppend(Window(init, lo, None), if InWindow(last, lo, None) then [last] else []);
      SpendingAppend(Window(init, lo, Some(mid)), if InWindow(last, lo, Some(mid)) then [last] else []);
      SpendingAppend(Window(init, mid, None), if InWindow(last, mid, None) then [last] else []);
    }
  }
}
