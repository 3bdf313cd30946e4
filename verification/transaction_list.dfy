/**
 * The transaction list panel: the category options, the search, category and date
 * filters, the paged view that grows five rows at a time, and the row labels.
 */
module TransactionList {
  import opened Wrappers
  import opened Text
  import opened Calendar
  import opened Records
  import opened Categories

  const PageSize := 5

  /**
   * The category options: every label the category chain resolves to (no
   * "Uncategorized"), without repeats, in ascending order.
   */
  function CategoryOptions(ts: seq<Transaction>): (r: seq<string>)
    ensures StrictlyAscending(r)
    ensures forall c :: c in r <==> exists i :: 0 <= i < |ts| && ResolvedCategory(ts[i]) == Some(c)
  {
    var labels := Resolved(ts);
    SortedDistinct(labels)
  }

  /** The resolved labels of the transactions that have one, in order. */
  function Resolved(ts: seq<Transaction>): (r: seq<string>)
    ensures forall c :: c in r <==> exists i :: 0 <= i < |ts| && ResolvedCategory(ts[i]) == Some(c)
  {
    if |ts| == 0 then []
    else
      var init := ts[..|ts| - 1];
      var last := ts[|ts| - 1];
      var rc := ResolvedCategory(last);
      assert ts == init + [last];
      ResolvedStep(init, last, Resolved(init));
      Resolved(init) + (if rc.Some? then [rc.value] else [])
  }

  /** Appending one transaction adds its resolved label, if any, to the collected labels. */
  lemma ResolvedStep(init: seq<Transaction>, last: Transaction, prefix: seq<string>)
    requires forall c :: c in prefix <==> exists i :: 0 <= i < |init| && ResolvedCategory(init[i]) == Some(c)
    ensures var rc := ResolvedCategory(last);
            var ts := init + [last];
            forall c :: c in prefix + (if rc.Some? then [rc.value] else []) <==>
              exists i :: 0 <= i < |ts| && ResolvedCategory(ts[i]) == Some(c)
  {
    var ts := init + [last];
    var n := |init|;
    assert forall i :: 0 <= i < n ==> ts[i] == init[i];
    var rc := ResolvedCategory(last);
    var r := prefix + (if rc.Some? then [rc.value] else []);
    forall c ensures c in r <==> exists i :: 0 <= i < |ts| && ResolvedCategory(ts[i]) == Some(c) {
      if c in r && c !in prefix {
        assert rc == Some(c) && ts[n] == last;
      }
      if exists i :: 0 <= i < |ts| && ResolvedCategory(ts[i]) == Some(c) {
        var i :| 0 <= i < |ts| && ResolvedCategory(ts[i]) == Some(c);
        if i == n {
          assert c in r;
        }
      }
    }
  }

  /** The panel's filter state; `from` and `to` are day numbers of the picked dates. */
  datatype Filters = Filters(search: string, category: Option<string>, from: Option<int>, to: Option<int>)

  const NoFilters := Filters("", None, None, None)

  /**
   * The search matches the description or the merchant name, case-insensitively. A
   * transaction with neither field fails even the empty search.
   */
  predicate MatchesSearch(t: Transaction, search: string) {
    (t.description.Some? && Contains(Lower(t.description.value), Lower(search)))
    || (t.businessName.Some? && Contains(Lower(t.businessName.value), Lower(search)))
  }

  /** With a category selected, the resolved label must equal it. */
  predicate MatchesCategory(t: Transaction, selected: Option<string>) {
    !Truthy(selected) || ResolvedCategory(t) == selected
  }

  /**
   * `new Date(postDate || transactionDate || "")`: the transaction date is read only when
   * the post date is missing; a post date that is present but unparsable is kept.
   */
  function ShownDate(t: Transaction): DateField {
    if !t.postDate.Missing? then t.postDate else t.transactionDate
  }

  /** A shown date that is not a calendar date compares false against both bounds and so always passes. */
  predicate MatchesDates(t: Transaction, from: Option<int>, to: Option<int>) {
    var d := ShownDate(t);
    !d.Parsed? || ((from.None? || Ordinal(d.date) >= from.value) && (to.None? || Ordinal(d.date) <= to.value))
  }

  /**
   * A post date that is present but not a date hides the transaction date: the row passes
   * every date range, whatever its transaction date.
   */
  lemma UnparsablePostDatePasses(t: Transaction, from: Option<int>, to: Option<int>)
    requires t.postDate.Unparsable?
    ensures MatchesDates(t, from, to)
  {
  }

  /** Only a missing post date falls back to the transaction date. */
  lemma MissingPostDateFallsBack(t: Transaction, from: Option<int>, to: Option<int>)
    requires t.postDate.Missing? && t.transactionDate.Parsed?
    ensures MatchesDates(t, from, to) <==>
              (from.None? || Ordinal(t.transactionDate.date) >= from.value)
              && (to.None? || Ordinal(t.transactionDate.date) <= to.value)
  {
  }

  predicate Matches(t: Transaction, f: Filters) {
    MatchesSearch(t, f.search) && MatchesCategory(t, f.category) && MatchesDates(t, f.from, f.to)
  }

  /** The three filters applied in turn; the kept transactions keep their order. */
  function Filter(ts: seq<Transaction>, f: Filters): (r: seq<Transaction>)
    ensures |r| <= |ts|
    ensures forall t {:trigger t in r} :: t in r <==> t in ts && Matches(t, f)
  {
    if |ts| == 0 then []
    else
      var init := ts[..|ts| - 1];
      var last := ts[|ts| - 1];
      assert ts == init + [last];
      Filter(init, f) + (if Matches(last, f) then [last] else [])
  }

  /** One transaction is kept exactly when it matches. */
  lemma FilterOne(t: Transaction, f: Filters)
    ensures Filter([t], f) == if Matches(t, f) then [t] else []
  {
    assert [t][..0] == [];
  }

  /**
   * Filtering distributes over concatenation, so the kept transactions keep their order
   * and their repeats.
   */
  lemma {:induction false} FilterAppend(a: seq<Transaction>, b: seq<Transaction>, f: Filters)
    ensures Filter(a + b, f) == Filter(a, f) + Filter(b, f)
    decreases |b|
  {
    if |b| == 0 {
      assert a + b == a;
    } else {
      var init, last := b[..|b| - 1], b[|b| - 1];
      assert b == init + [last];
      assert a + b == (a + init) + [last];
      FilterSnoc(a + init, last, f);
      FilterAppend(a, init, f);
      FilterSnoc(init, last, f);
    }
  }

  lemma FilterSnoc(xs: seq<Transaction>, x: Transaction, f: Filters)
    ensures Filter(xs + [x], f) == Filter(xs, f) + (if Matches(x, f) then [x] else [])
  {
    var ys := xs + [x];
    assert ys[..|ys| - 1] == xs;
  }

  /** Filtering twice with the same filters changes nothing. */
  lemma {:induction false} FilterIdempotent(ts: seq<Transaction>, f: Filters)
    ensures Filter(Filter(ts, f), f) == Filter(ts, f)
  {
    if |ts| > 0 {
      var init := ts[..|ts| - 1];
      var last := ts[|ts| - 1];
      FilterIdempotent(init, f);
      var fi := Filter(init, f);
      if Matches(last, f) {
        var r := fi + [last];
        assert Filter(ts, f) == r;
        assert r[..|r| - 1] == fi && r[|r| - 1] == last;
        assert Filter(r, f) == Filter(fi, f) + [last];
      } else {
        assert Filter(ts, f) == fi;
      }
    }
  }

  /** With the filters cleared, exactly the transactions carrying a description or a merchant name remain. */
  lemma ClearedFilters(ts: seq<Transaction>, t: Transaction)
    ensures t in Filter(ts, NoFilters) <==> t in ts && (t.description.Some? || t.businessName.Some?)
  {
    if t.description.Some? {
      assert OccursAt(Lower(t.description.value), Lower(""), 0);
    }
    if t.businessName.Some? {
      assert OccursAt(Lower(t.businessName.value), Lower(""), 0);
    }
  }

  /** Every offered category selects at least one transaction when it is the only filter. */
  lemma OptionSelectsSomething(ts: seq<Transaction>, c: string)
    requires c in CategoryOptions(ts)
    ensures exists i :: 0 <= i < |ts| && MatchesCategory(ts[i], Some(c))
  {
  }

  /** `slice(0, visibleCount)`: the first `count` filtered transactions, or all of them. */
  function Visible(filtered: seq<Transaction>, count: nat): (r: seq<Transaction>)
    ensures |r| == if count < |filtered| then count else |filtered|
    ensures r <= filtered
  {
    if count < |filtered| then filtered[..count] else filtered
  }

  /** The "Show More" button is offered exactly while some filtered transaction is hidden. */
  lemma ShowMoreExactlyWhenHidden(filtered: seq<Transaction>, count: nat)
    ensures count < |filtered| <==> Visible(filtered, count) != filtered
  {
  }

  /** After `k` presses of "Show More" the view holds `5 + 5k` rows, capped by the list. */
  function CountAfter(presses: nat): (n: nat)
    ensures n >= PageSize && n % PageSize == 0
  {
    if presses == 0 then PageSize else CountAfter(presses - 1) + PageSize
  }

  lemma {:induction false} EnoughPressesShowAll(filtered: seq<Transaction>, presses: nat)
    requires PageSize * (presses + 1) >= |filtered|
    ensures Visible(filtered, CountAfter(presses)) == filtered
  {
    CountAfterValue(presses);
  }

  lemma {:induction false} CountAfterValue(presses: nat)
    ensures CountAfter(presses) == PageSize * (presses + 1)
  {
    if presses > 0 {
      CountAfterValue(presses - 1);
    }
  }

  datatype Direction = Debit | Credit

  /** A negative amount is a debit; zero and positive amounts are credits. */
  function TransactionType(t: Transaction): (d: Direction)
    ensures d == Debit <==> t.amount < 0
  {
    if t.amount < 0 then Debit else Credit
  }

  datatype Palette = Purple | Blue | Orange | Green | Emerald | Indigo | Gray

  /** `getCategoryColor`: the colour of a category label, matched case-insensitively. */
  function CategoryColor(category: string): (p: Palette)
    ensures p == Gray <==> Lower(category) !in ColourKeys()
    ensures p == Purple <==> Lower(category) in {"shopping", "retail trade", "supermarket and grocery stores"}
    ensures p == Blue <==> Lower(category) in {"transport", "automotive", "ride share"}
    ensures p == Orange <==> Lower(category) in {"home", "utilities", "loan repayment"}
    ensures p == Green <==> Lower(category) in {"food", "dining", "groceries"}
    ensures p == Emerald <==> Lower(category) == "income"
    ensures p == Indigo <==> Lower(category) in {"transfer", "credit card payment"}
  {
    match Lower(category)
    case "shopping" => Purple
    case "retail trade" => Purple
    case "supermarket and grocery stores" => Purple
    case "transport" => Blue
    case "automotive" => Blue
    case "ride share" => Blue
    case "home" => Orange
    case "utilities" => Orange
    case "loan repayment" => Orange
    case "food" => Green
    case "dining" => Green
    case "groceries" => Green
    case "income" => Emerald
    case "transfer" => Indigo
    case "credit card payment" => Indigo
    case _ => Gray
  }

  function ColourKeys(): set<string> {
    {"shopping", "retail trade", "supermarket and grocery stores", "transport", "automotive", "ride share",
     "home", "utilities", "loan repayment", "food", "dining", "groceries", "income", "transfer",
     "credit card payment"}
  }

  /** The colour ignores letter case. */
  lemma ColorIgnoresCase(category: string)
    ensures CategoryColor(Lower(category)) == CategoryColor(category)
  {
    LowerIdempotent(category);
  }

  /** The label shown on a row: the full chain ending in "Uncategorized". */
  function RowCategory(t: Transaction): (r: string)
    ensures r != ""
    ensures MatchesCategory(t, Some(r)) <==> ResolvedCategory(t).Some?
    ensures ResolvedCategory(t).Some? ==> r == ResolvedCategory(t).value
    ensures ResolvedCategory(t).None? ==> r == Uncategorized
  {
    DisplayCategory(t)
  }
}
