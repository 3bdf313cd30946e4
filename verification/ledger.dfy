/**
 * Keyed accumulators in insertion order: the `Record<string, number>` objects the
 * dashboard components build with `acc[key] = (acc[key] || 0) + amount`, read back
 * with `Object.entries`, and sorted by value.
 */
module Ledger {

  datatype Entry<V> = Entry(key: string, value: V)

  predicate DistinctKeys<V>(es: seq<Entry<V>>) {
    forall i, j :: 0 <= i < j < |es| ==> es[i].key != es[j].key
  }

  predicate HasKey<V>(es: seq<Entry<V>>, key: string) {
    exists i :: 0 <= i < |es| && es[i].key == key
  }

  /** The position of the first entry for `key`, or -1 when there is none. */
  function IndexOf<V>(es: seq<Entry<V>>, key: string): (r: int)
    ensures -1 <= r < |es|
    ensures r >= 0 ==> es[r].key == key && forall j :: 0 <= j < r ==> es[j].key != key
    ensures r < 0 <==> !HasKey(es, key)
  {
    if |es| == 0 then -1
    else if es[|es| - 1].key == key && IndexOf(es[..|es| - 1], key) < 0 then |es| - 1
    else
      var r := IndexOf(es[..|es| - 1], key);
      assert r < 0 ==> forall j :: 0 <= j < |es| ==> es[j].key != key by {
        if r < 0 {
          forall j | 0 <= j < |es| ensures es[j].key != key {
            if j < |es| - 1 { assert es[j] == es[..|es| - 1][j]; }
          }
        }
      }
      r
  }

  /** The sum of all values. */
  function Total(es: seq<Entry<int>>): int {
    if |es| == 0 then 0 else Total(es[..|es| - 1]) + es[|es| - 1].value
  }

  /** The sum of the values recorded under `key`. */
  function SumFor(es: seq<Entry<int>>, key: string): int {
    if |es| == 0 then 0
    else SumFor(es[..|es| - 1], key) + (if es[|es| - 1].key == key then es[|es| - 1].value else 0)
  }

  /** `acc[key] || 0`. */
  function Get(es: seq<Entry<int>>, key: string): int {
    var i := IndexOf(es, key);
    if i < 0 then 0 else es[i].value
  }

  /** `acc[key] = (acc[key] || 0) + amount`: an existing entry keeps its place, a new key goes last. */
  function Add(es: seq<Entry<int>>, key: string, amount: int): seq<Entry<int>> {
    var i := IndexOf(es, key);
    if i < 0 then es + [Entry(key, amount)] else es[i := Entry(key, es[i].value + amount)]
  }

  /** Accumulates `(key, amount)` items in order, as a `forEach` over them does. */
  function Group(items: seq<Entry<int>>): seq<Entry<int>> {
    if |items| == 0 then []
    else Add(Group(items[..|items| - 1]), items[|items| - 1].key, items[|items| - 1].value)
  }

  lemma {:induction false} TotalAppend(a: seq<Entry<int>>, b: seq<Entry<int>>)
    ensures Total(a + b) == Total(a) + Total(b)
    decreases |b|
  {
    if |b| > 0 {
      assert (a + b)[..|a + b| - 1] == a + b[..|b| - 1];
      assert (a + b)[|a + b| - 1] == b[|b| - 1];
      TotalAppend(a, b[..|b| - 1]);
    } else {
      assert a + b == a;
    }
  }

  lemma {:induction false} SumForAppend(a: seq<Entry<int>>, b: seq<Entry<int>>, key: string)
    ensures SumFor(a + b, key) == SumFor(a, key) + SumFor(b, key)
    decreases |b|
  {
    if |b| > 0 {
      assert (a + b)[..|a + b| - 1] == a + b[..|b| - 1];
      assert (a + b)[|a + b| - 1] == b[|b| - 1];
      SumForAppend(a, b[..|b| - 1], key);
    } else {
      assert a + b == a;
    }
  }

  lemma TotalUpdate(es: seq<Entry<int>>, i: int, e: Entry<int>)
    requires 0 <= i < |es|
    ensures Total(es[i := e]) == Total(es) - es[i].value + e.value
  {
    assert es == es[..i] + [es[i]] + es[i + 1..];
    assert es[i := e] == es[..i] + [e] + es[i + 1..];
    TotalAppend(es[..i] + [es[i]], es[i + 1..]);
    TotalAppend(es[..i], [es[i]]);
    TotalAppend(es[..i] + [e], es[i + 1..]);
    TotalAppend(es[..i], [e]);
  }

  /** For a ledger with distinct keys, `Get` is the sum under that key. */
  lemma {:induction false} GetIsSumFor(es: seq<Entry<int>>, key: string)
    requires DistinctKeys(es)
    ensures Get(es, key) == SumFor(es, key)
    decreases |es|
  {
    if |es| > 0 {
      var init := es[..|es| - 1];
      GetIsSumFor(init, key);
      var i := IndexOf(es, key);
      if es[|es| - 1].key == key {
        assert !HasKey(init, key);
        assert SumFor(init, key) == 0 by { NoKeyNoSum(init, key); }
      } else {
        assert IndexOf(init, key) == i by {
          if HasKey(init, key) { } else {
            assert !HasKey(es, key);
          }
        }
        if i >= 0 { assert es[i] == init[i]; }
      }
    }
  }

  lemma {:induction false} NoKeyNoSum(es: seq<Entry<int>>, key: string)
    requires !HasKey(es, key)
    ensures SumFor(es, key) == 0
    decreases |es|
  {
    if |es| > 0 {
      assert es[..|es| - 1] + [es[|es| - 1]] == es;
      assert !HasKey(es[..|es| - 1], key);
      NoKeyNoSum(es[..|es| - 1], key);
    }
  }

  lemma SumForUpdate(es: seq<Entry<int>>, i: int, e: Entry<int>, k: string)
    requires 0 <= i < |es|
    ensures SumFor(es[i := e], k) == SumFor(es, k)
              - (if es[i].key == k then es[i].value else 0) + (if e.key == k then e.value else 0)
  {
    assert es == es[..i] + [es[i]] + es[i + 1..];
    assert es[i := e] == es[..i] + [e] + es[i + 1..];
    SumForAppend(es[..i] + [es[i]], es[i + 1..], k);
    SumForAppend(es[..i], [es[i]], k);
    SumForAppend(es[..i] + [e], es[i + 1..], k);
    SumForAppend(es[..i], [e], k);
    assert SumFor([es[i]], k) == (if es[i].key == k then es[i].value else 0);
    assert SumFor([e], k) == (if e.key == k then e.value else 0);
  }

  /** Adding under a new key appends one entry. */
  lemma AddNewKey(es: seq<Entry<int>>, key: string, amount: int)
    requires DistinctKeys(es) && !HasKey(es, key)
    ensures DistinctKeys(Add(es, key, amount))
    ensures Total(Add(es, key, amount)) == Total(es) + amount
    ensures forall k :: SumFor(Add(es, key, amount), k) == SumFor(es, k) + (if k == key then amount else 0)
    ensures forall k :: HasKey(Add(es, key, amount), k) <==> HasKey(es, k) || k == key
  {
    var r := Add(es, key, amount);
    assert r == es + [Entry(key, amount)];
    TotalAppend(es, [Entry(key, amount)]);
    assert Total([Entry(key, amount)]) == amount;
    forall k ensures SumFor(r, k) == SumFor(es, k) + (if k == key then amount else 0) {
      SumForAppend(es, [Entry(key, amount)], k);
      assert SumFor([Entry(key, amount)], k) == (if k == key then amount else 0);
    }
    forall k ensures HasKey(r, k) <==> HasKey(es, k) || k == key {
      if HasKey(es, k) {
        var j :| 0 <= j < |es| && es[j].key == k;
        assert r[j] == es[j];
      }
      if k == key { assert r[|es|].key == key; }
      if HasKey(r, k) && k != key {
        var j :| 0 <= j < |r| && r[j].key == k;
        assert es[j] == r[j];
      }
    }
  }

  /** Adding under a key already present changes that entry only. */
  lemma AddExistingKey(es: seq<Entry<int>>, key: string, amount: int)
    requires DistinctKeys(es) && HasKey(es, key)
    ensures DistinctKeys(Add(es, key, amount))
    ensures Total(Add(es, key, amount)) == Total(es) + amount
    ensures forall k :: SumFor(Add(es, key, amount), k) == SumFor(es, k) + (if k == key then amount else 0)
    ensures forall k :: HasKey(Add(es, key, amount), k) <==> HasKey(es, k)
  {
    var i := IndexOf(es, key);
    var r := Add(es, key, amount);
    assert r == es[i := Entry(key, es[i].value + amount)];
    TotalUpdate(es, i, Entry(key, es[i].value + amount));
    forall k ensures SumFor(r, k) == SumFor(es, k) + (if k == key then amount else 0) {
      SumForUpdate(es, i, Entry(key, es[i].value + amount), k);
    }
    forall k ensures HasKey(r, k) <==> HasKey(es, k) {
      if HasKey(es, k) {
        var j :| 0 <= j < |es| && es[j].key == k;
        assert r[j].key == k;
      }
      if HasKey(r, k) {
        var j :| 0 <= j < |r| && r[j].key == k;
        assert es[j].key == k;
      }
    }
  }

  /** One `Add` keeps keys distinct, adds `amount` to the total and to the sum under `key` only. */
  lemma AddCorrect(es: seq<Entry<int>>, key: string, amount: int)
    requires DistinctKeys(es)
    ensures DistinctKeys(Add(es, key, amount))
    ensures Total(Add(es, key, amount)) == Total(es) + amount
    ensures forall k :: SumFor(Add(es, key, amount), k) == SumFor(es, k) + (if k == key then amount else 0)
    ensures forall k :: HasKey(Add(es, key, amount), k) <==> HasKey(es, k) || k == key
  {
    if HasKey(es, key) {
      AddExistingKey(es, key, amount);
    } else {
      AddNewKey(es, key, amount);
    }
  }

  /**
   * Grouping a list of `(key, amount)` items gives one entry per distinct key, in order
   * of first appearance, holding the sum of that key's amounts; the grand total is kept.
   */
  lemma {:induction false} GroupCorrect(items: seq<Entry<int>>)
    ensures DistinctKeys(Group(items))
    ensures Total(Group(items)) == Total(items)
    ensures forall k :: Get(Group(items), k) == SumFor(items, k)
    ensures forall k :: HasKey(Group(items), k) <==> HasKey(items, k)
    decreases |items|
  {
    if |items| > 0 {
      var init := items[..|items| - 1];
      GroupCorrect(init);
      GroupStep(items, Group(init));
    }
  }

  /** One more item updates a correct grouping of the earlier items into one of all of them. */
  lemma GroupStep(items: seq<Entry<int>>, g0: seq<Entry<int>>)
    requires |items| > 0
    requires DistinctKeys(g0) && Total(g0) == Total(items[..|items| - 1])
    requires forall k :: Get(g0, k) == SumFor(items[..|items| - 1], k)
    requires forall k :: HasKey(g0, k) <==> HasKey(items[..|items| - 1], k)
    ensures var g := Add(g0, items[|items| - 1].key, items[|items| - 1].value);
            && DistinctKeys(g)
            && Total(g) == Total(items)
            && (forall k :: Get(g, k) == SumFor(items, k))
            && (forall k :: HasKey(g, k) <==> HasKey(items, k))
  {
    var last := items[|items| - 1];
    var g := Add(g0, last.key, last.value);
    AddCorrect(g0, last.key, last.value);
    forall k ensures Get(g, k) == SumFor(items, k) {
      GetIsSumFor(g, k);
      GetIsSumFor(g0, k);
    }
    forall k ensures HasKey(g, k) <==> HasKey(items, k) {
      HasKeyInit(items, k);
    }
  }

  lemma HasKeyInit<V>(items: seq<Entry<V>>, k: string)
    requires |items| > 0
    ensures HasKey(items, k) <==> HasKey(items[..|items| - 1], k) || items[|items| - 1].key == k
  {
    if HasKey(items[..|items| - 1], k) {
      var j :| 0 <= j < |items| - 1 && items[..|items| - 1][j].key == k;
      assert items[j].key == k;
    }
    if HasKey(items, k) && items[|items| - 1].key != k {
      var j :| 0 <= j < |items| && items[j].key == k;
      assert items[..|items| - 1][j].key == k;
    }
  }

  /** `acc[key] = value`: an existing entry is overwritten in place, a new key goes last. */
  function Put<V>(es: seq<Entry<V>>, key: string, value: V): seq<Entry<V>> {
    var i := IndexOf(es, key);
    if i < 0 then es + [Entry(key, value)] else es[i := Entry(key, value)]
  }

  /** Assigns `(key, value)` items in order, so that a later item overwrites an earlier one. */
  function Assign<V>(items: seq<Entry<V>>): seq<Entry<V>> {
    if |items| == 0 then []
    else Put(Assign(items[..|items| - 1]), items[|items| - 1].key, items[|items| - 1].value)
  }

  /** Putting into a distinct-keyed list keeps keys distinct, adds the key, and keeps every entry of another key. */
  lemma PutCorrect<V>(es: seq<Entry<V>>, key: string, value: V)
    requires DistinctKeys(es)
    ensures DistinctKeys(Put(es, key, value))
    ensures forall k :: HasKey(Put(es, key, value), k) <==> HasKey(es, k) || k == key
    ensures Entry(key, value) in Put(es, key, value)
    ensures forall e :: e in es && e.key != key ==> e in Put(es, key, value)
  {
    var r := Put(es, key, value);
    var i := IndexOf(es, key);
    if i < 0 {
      assert r[|es|] == Entry(key, value);
      assert forall m :: 0 <= m < |es| ==> r[m] == es[m];
    } else {
      assert r[i] == Entry(key, value);
      assert forall m :: 0 <= m < |es| && m != i ==> r[m] == es[m];
      forall k | HasKey(es, k) ensures HasKey(r, k) {
        var m :| 0 <= m < |es| && es[m].key == k;
        assert r[m].key == k;
      }
    }
  }

  /** After assigning, each key of the items appears once and holds the value of its last item. */
  lemma {:induction false} AssignCorrect<V>(items: seq<Entry<V>>)
    ensures DistinctKeys(Assign(items))
    ensures forall k :: HasKey(Assign(items), k) <==> HasKey(items, k)
    ensures forall j :: 0 <= j < |items| && (forall l :: j < l < |items| ==> items[l].key != items[j].key) ==>
              Entry(items[j].key, items[j].value) in Assign(items)
    decreases |items|
  {
    if |items| > 0 {
      var init := items[..|items| - 1];
      var last := items[|items| - 1];
      AssignCorrect(init);
      PutCorrect(Assign(init), last.key, last.value);
      forall k ensures HasKey(Assign(items), k) <==> HasKey(items, k) {
        HasKeyInit(items, k);
      }
      forall j | 0 <= j < |items| - 1 && (forall l :: j < l < |items| ==> items[l].key != items[j].key)
        ensures Entry(items[j].key, items[j].value) in Assign(items)
      {
        assert init[j] == items[j] && items[|items| - 1].key != items[j].key;
        assert forall l :: j < l < |init| ==> init[l].key != init[j].key by {
          forall l | j < l < |init| ensures init[l].key != init[j].key { assert init[l] == items[l]; }
        }
      }
    }
  }

  /** Every value is at least the value that follows it. */
  predicate SortedDesc(es: seq<Entry<int>>) {
    forall i, j :: 0 <= i < j < |es| ==> es[i].value >= es[j].value
  }

  /** Places `e` after every entry whose value is at least its own. */
  function InsertDesc(e: Entry<int>, s: seq<Entry<int>>): seq<Entry<int>> {
    if |s| == 0 then [e]
    else if s[0].value < e.value then [e] + s
    else [s[0]] + InsertDesc(e, s[1..])
  }

  lemma {:induction false} InsertDescCorrect(e: Entry<int>, s: seq<Entry<int>>)
    requires SortedDesc(s)
    ensures SortedDesc(InsertDesc(e, s))
    ensures multiset(InsertDesc(e, s)) == multiset(s) + multiset{e}
    ensures |InsertDesc(e, s)| == |s| + 1
    decreases |s|
  {
    if |s| > 0 && s[0].value >= e.value {
      InsertDescCorrect(e, s[1..]);
      var rest := InsertDesc(e, s[1..]);
      assert s == [s[0]] + s[1..];
      assert rest[0] == e || rest[0] == s[1];
      SortedCons(s[0], rest);
    } else if |s| > 0 {
      SortedCons(e, s);
    }
  }

  /** An entry no smaller than the head of a descending list extends it. */
  lemma SortedCons(x: Entry<int>, rest: seq<Entry<int>>)
    requires SortedDesc(rest)
    requires |rest| > 0 ==> x.value >= rest[0].value
    ensures SortedDesc([x] + rest)
  {
    var r := [x] + rest;
    forall i, j | 0 <= i < j < |r| ensures r[i].value >= r[j].value {
      assert r[j] == rest[j - 1];
      if i > 0 { assert r[i] == rest[i - 1]; }
    }
  }

  /**
   * `sort((a, b) => b.value - a.value)`: descending by value; entries with equal values
   * keep their original order because `Array.prototype.sort` is stable.
   */
  function SortDesc(es: seq<Entry<int>>): seq<Entry<int>> {
    if |es| == 0 then [] else InsertDesc(es[|es| - 1], SortDesc(es[..|es| - 1]))
  }

  /** Sorting yields a descending permutation of its input. */
  lemma {:induction false} SortDescCorrect(es: seq<Entry<int>>)
    ensures SortedDesc(SortDesc(es))
    ensures multiset(SortDesc(es)) == multiset(es)
    ensures |SortDesc(es)| == |es|
    decreases |es|
  {
    if |es| > 0 {
      SortDescCorrect(es[..|es| - 1]);
      InsertDescCorrect(es[|es| - 1], SortDesc(es[..|es| - 1]));
      assert es == es[..|es| - 1] + [es[|es| - 1]];
    }
  }

  /** The entries whose value is `v`, in their order in `es`. */
  function WithValue(es: seq<Entry<int>>, v: int): seq<Entry<int>> {
    if |es| == 0 then []
    else (if es[0].value == v then [es[0]] else []) + WithValue(es[1..], v)
  }

  lemma {:induction false} WithValueAppend(a: seq<Entry<int>>, b: seq<Entry<int>>, v: int)
    ensures WithValue(a + b, v) == WithValue(a, v) + WithValue(b, v)
    decreases |a|
  {
    if |a| == 0 {
      assert a + b == b;
    } else {
      var head := if a[0].value == v then [a[0]] else [];
      assert (a + b)[0] == a[0] && (a + b)[1..] == a[1..] + b;
      assert WithValue(a + b, v) == head + WithValue(a[1..] + b, v);
      WithValueAppend(a[1..], b, v);
      assert WithValue(a, v) == head + WithValue(a[1..], v);
    }
  }

  lemma {:induction false} WithValueAbove(s: seq<Entry<int>>, v: int)
    requires forall i :: 0 <= i < |s| ==> s[i].value < v
    ensures WithValue(s, v) == []
    decreases |s|
  {
    if |s| > 0 {
      WithValueAbove(s[1..], v);
    }
  }

  /** Insertion puts `e` after every entry of value `e.value` already in the sorted list. */
  lemma {:induction false} InsertDescStable(e: Entry<int>, s: seq<Entry<int>>, v: int)
    requires SortedDesc(s)
    ensures WithValue(InsertDesc(e, s), v) == WithValue(s, v) + (if e.value == v then [e] else [])
    decreases |s|
  {
    if |s| == 0 {
    } else if s[0].value < e.value {
      assert ([e] + s)[1..] == s;
      if e.value == v {
        WithValueAbove(s, v);
      }
    } else {
      assert SortedDesc(s[1..]);
      InsertDescStable(e, s[1..], v);
      assert ([s[0]] + InsertDesc(e, s[1..]))[1..] == InsertDesc(e, s[1..]);
    }
  }

  /**
   * The sort is stable: for every value, the entries holding it come out in the order
   * they went in.
   */
  lemma {:induction false} SortDescStable(es: seq<Entry<int>>, v: int)
    ensures WithValue(SortDesc(es), v) == WithValue(es, v)
    decreases |es|
  {
    if |es| > 0 {
      var init, e := es[..|es| - 1], es[|es| - 1];
      var tail := if e.value == v then [e] else [];
      var sorted := SortDesc(init);
      assert SortDesc(es) == InsertDesc(e, sorted);
      assert WithValue(InsertDesc(e, sorted), v) == WithValue(sorted, v) + tail by {
        SortDescCorrect(init);
        InsertDescStable(e, sorted, v);
      }
      SortDescStable(init, v);
      assert WithValue(es, v) == WithValue(init, v) + tail by {
        assert es == init + [e];
        WithValueAppend(init, [e], v);
        assert [e][1..] == [];
      }
    }
  }

  /** Sorting keeps keys distinct. */
  lemma {:induction false} SortDescDistinct(es: seq<Entry<int>>)
    requires DistinctKeys(es)
    ensures DistinctKeys(SortDesc(es))
    ensures forall k :: HasKey(SortDesc(es), k) <==> HasKey(es, k)
    decreases |es|
  {
    if |es| > 0 {
      var init := es[..|es| - 1];
      var e := es[|es| - 1];
      assert DistinctKeys(init);
      SortDescDistinct(init);
      SortDescCorrect(es);
      SortDescCorrect(init);
      var s := SortDesc(init);
      var r := SortDesc(es);
      assert !HasKey(init, e.key) by {
        forall j | 0 <= j < |init| ensures init[j].key != e.key {
          assert init[j] == es[j];
        }
      }
      InsertDescDistinct(e, s);
      forall k ensures HasKey(r, k) <==> HasKey(es, k) {
        HasKeyInit(es, k);
        if HasKey(r, k) {
          var j :| 0 <= j < |r| && r[j].key == k;
          assert r[j] in multiset(es);
        }
        if HasKey(es, k) {
          var j :| 0 <= j < |es| && es[j].key == k;
          assert es[j] in multiset(r);
          var m :| 0 <= m < |r| && r[m] == es[j];
        }
      }
    }
  }

  lemma {:induction false} InsertDescDistinct(e: Entry<int>, s: seq<Entry<int>>)
    requires SortedDesc(s) && DistinctKeys(s) && !HasKey(s, e.key)
    ensures DistinctKeys(InsertDesc(e, s))
    decreases |s|
  {
    if |s| > 0 && s[0].value >= e.value {
      InsertDescCorrect(e, s[1..]);
      assert !HasKey(s[1..], e.key) by {
        forall j | 0 <= j < |s[1..]| ensures s[1..][j].key != e.key {
          assert s[1..][j] == s[j + 1];
        }
      }
      InsertDescDistinct(e, s[1..]);
      var rest := InsertDesc(e, s[1..]);
      forall i | 0 <= i < |rest| ensures rest[i].key != s[0].key {
        assert rest[i] in multiset(rest);
        if rest[i] != e {
          assert rest[i] in multiset(s[1..]);
          var j :| 0 <= j < |s[1..]| && s[1..][j] == rest[i];
          assert s[j + 1] == rest[i];
        } else {
          assert s[0].key != e.key;
        }
      }
    } else if |s| > 0 {
      forall j | 0 <= j < |s| ensures s[j].key != e.key { }
    }
  }

  /** Two lists holding the same entries have the same total. */
  lemma {:induction false} TotalOfPermutation(a: seq<Entry<int>>, b: seq<Entry<int>>)
    requires multiset(a) == multiset(b)
    ensures Total(a) == Total(b)
    decreases |a|
  {
    if |a| > 0 {
      var x := a[|a| - 1];
      assert a == a[..|a| - 1] + [x];
      assert x in multiset(b);
      var i :| 0 <= i < |b| && b[i] == x;
      assert b == b[..i] + [x] + b[i + 1..];
      var b' := b[..i] + b[i + 1..];
      assert multiset(b') == multiset(b) - multiset{x} by {
        assert multiset(b) == multiset(b[..i]) + multiset{x} + multiset(b[i + 1..]);
      }
      assert multiset(a[..|a| - 1]) == multiset(a) - multiset{x} by {
        assert multiset(a) == multiset(a[..|a| - 1]) + multiset{x};
      }
      TotalOfPermutation(a[..|a| - 1], b');
      TotalAppend(a[..|a| - 1], [x]);
      TotalRemove(b, i);
    }
  }

  /** Taking one entry out of a list lowers its total by that entry's value. */
  lemma TotalRemove(b: seq<Entry<int>>, i: int)
    requires 0 <= i < |b|
    ensures Total(b) == Total(b[..i] + b[i + 1..]) + b[i].value
  {
    var p, x, q := b[..i], b[i], b[i + 1..];
    assert b[i..] == [x] + q;
    assert b == p + b[i..];
    TotalAround(p, x, q);
  }

  /** An entry between two lists adds its value to their combined total. */
  lemma TotalAround(p: seq<Entry<int>>, x: Entry<int>, q: seq<Entry<int>>)
    ensures Total(p + ([x] + q)) == Total(p + q) + x.value
  {
    TotalAppend(p, [x] + q);
    TotalAppend([x], q);
    TotalAppend(p, q);
    assert [x][..0] == [];
  }
}
