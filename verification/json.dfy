/**
 * Parsed JSON values as the route handlers see them, with JavaScript's reading of them:
 * property lookup (a repeated key keeps its last value, as `JSON.parse` does), truthiness,
 * and the string a value turns into inside a template literal. Numbers are integers.
 */
module Json {
  import opened Wrappers

  datatype Json =
    | JNull
    | JBool(b: bool)
    | JNum(n: int)
    | JStr(s: string)
    | JArr(items: seq<Json>)
    | JObj(fields: seq<(string, Json)>)

  /** `value[key]` on a parsed value; `None` is `undefined`. */
  function Get(j: Json, key: string): (r: Option<Json>)
    ensures r.Some? ==> j.JObj? && exists i :: 0 <= i < |j.fields| && j.fields[i] == (key, r.value)
    ensures r.None? && j.JObj? ==> forall i :: 0 <= i < |j.fields| ==> j.fields[i].0 != key
  {
    if !j.JObj? then None else Lookup(j.fields, key)
  }

  /** The value of the last field named `key`. */
  function Lookup(fields: seq<(string, Json)>, key: string): (r: Option<Json>)
    ensures r.Some? ==> exists i :: 0 <= i < |fields| && fields[i] == (key, r.value)
    ensures r.Some? ==> forall i :: 0 <= i < |fields| && fields[i].0 == key ==> LastWith(fields, key, r.value)
    ensures r.None? <==> forall i :: 0 <= i < |fields| ==> fields[i].0 != key
  {
    if |fields| == 0 then None
    else if fields[|fields| - 1].0 == key then Some(fields[|fields| - 1].1)
    else
      var r := Lookup(fields[..|fields| - 1], key);
      LookupExtend(fields, key, r);
      r
  }

  /** A last field with another key leaves the lookup of the earlier fields as it was. */
  lemma LookupExtend(fields: seq<(string, Json)>, key: string, r: Option<Json>)
    requires |fields| > 0 && fields[|fields| - 1].0 != key
    requires var init := fields[..|fields| - 1];
             && (r.Some? ==> exists i :: 0 <= i < |init| && init[i] == (key, r.value))
             && (r.Some? ==> forall i :: 0 <= i < |init| && init[i].0 == key ==> LastWith(init, key, r.value))
             && (r.None? <==> forall i :: 0 <= i < |init| ==> init[i].0 != key)
    ensures r.Some? ==> exists i :: 0 <= i < |fields| && fields[i] == (key, r.value)
    ensures r.Some? ==> forall i :: 0 <= i < |fields| && fields[i].0 == key ==> LastWith(fields, key, r.value)
    ensures r.None? <==> forall i :: 0 <= i < |fields| ==> fields[i].0 != key
  {
    var init := fields[..|fields| - 1];
    assert forall i :: 0 <= i < |init| ==> init[i] == fields[i];
    if r.Some? {
      var i :| 0 <= i < |init| && init[i] == (key, r.value);
      assert LastWith(init, key, r.value);
      var k :| 0 <= k < |init| && init[k] == (key, r.value) && forall j :: k < j < |init| ==> init[j].0 != key;
      assert fields[k] == (key, r.value);
      assert LastWith(fields, key, r.value);
    }
  }

  /** A field that no later field shadows is what a lookup of its key finds. */
  lemma {:induction false} GetAt(fields: seq<(string, Json)>, i: int)
    requires 0 <= i < |fields| && forall j :: i < j < |fields| ==> fields[j].0 != fields[i].0
    ensures Get(JObj(fields), fields[i].0) == Some(fields[i].1)
  {
    if i < |fields| - 1 {
      var init := fields[..|fields| - 1];
      GetAt(init, i);
    }
  }

  /** `v` is the value of the last field named `key`. */
  predicate LastWith(fields: seq<(string, Json)>, key: string, v: Json) {
    exists i :: 0 <= i < |fields| && fields[i] == (key, v) && forall j :: i < j < |fields| ==> fields[j].0 != key
  }

  /** `a?.key`: `undefined` propagates. */
  function Field(a: Option<Json>, key: string): Option<Json> {
    if a.None? then None else Get(a.value, key)
  }

  /** `a?.[i]` on an array. */
  function Element(a: Option<Json>, i: nat): Option<Json> {
    if a.Some? && a.value.JArr? && i < |a.value.items| then Some(a.value.items[i]) else None
  }

  /** `a?.[0]`: the first element of an array, the first character of a string, an object's `"0"` field. */
  function FirstItem(a: Option<Json>): (r: Option<Json>)
    ensures a.Some? && a.value.JArr? && |a.value.items| > 0 ==> r == Some(a.value.items[0])
    ensures a.None? || a.value.JNull? || a.value.JBool? || a.value.JNum? ==> r.None?
  {
    match a
    case Some(JArr(items)) => if |items| == 0 then None else Some(items[0])
    case Some(JStr(s)) => if |s| == 0 then None else Some(JStr([s[0]]))
    case Some(JObj(fields)) => Lookup(fields, "0")
    case _ => None
  }

  /** The message of the `TypeError` raised by reading property `p` of `null`. */
  function NullRead(p: string): string {
    "Cannot read properties of null (reading '" + p + "')"
  }

  /** JavaScript truthiness: everything but `undefined`, `null`, `false`, `0` and `""`. */
  predicate IsTruthy(a: Option<Json>) {
    match a
    case None => false
    case Some(JNull) => false
    case Some(JBool(b)) => b
    case Some(JNum(n)) => n != 0
    case Some(JStr(s)) => s != ""
    case Some(_) => true
  }

  /** `a || fallback`. */
  function Or(a: Option<Json>, fallback: Json): (r: Json)
    ensures IsTruthy(a) ==> r == a.value
    ensures !IsTruthy(a) ==> r == fallback
  {
    if IsTruthy(a) then a.value else fallback
  }

  /** `a || fallback` for a JSON value and a string fallback. */
  function OrText(a: Option<Json>, fallback: string): Json {
    if IsTruthy(a) then a.value else JStr(fallback)
  }

  function DigitChar(d: int): char
    requires 0 <= d < 10
  {
    ('0' as int + d) as char
  }

  /** The decimal digits of `n`, without leading zeros. */
  function NatToString(n: nat): (r: string)
    ensures |r| >= 1
    ensures forall i :: 0 <= i < |r| ==> '0' <= r[i] <= '9'
  {
    if n < 10 then [DigitChar(n)] else NatToString(n / 10) + [DigitChar(n % 10)]
  }

  /** The number the decimal digits `s` spell. */
  function DigitsValue(s: string): nat
    requires forall i :: 0 <= i < |s| ==> '0' <= s[i] <= '9'
  {
    if |s| == 0 then 0 else 10 * DigitsValue(s[..|s| - 1]) + (s[|s| - 1] as int - '0' as int)
  }

  /** Printing a number and reading it back gives the number. */
  lemma {:induction false} NatToStringValue(n: nat)
    ensures DigitsValue(NatToString(n)) == n
  {
    if n >= 10 {
      NatToStringValue(n / 10);
      var r := NatToString(n);
      assert r[..|r| - 1] == NatToString(n / 10);
    }
  }

  /** `String(n)` for an integer. */
  function IntToString(n: int): string {
    if n < 0 then "-" + NatToString(-n) else NatToString(n)
  }

  /** The string a value becomes inside a template literal (`String(value)`). */
  function TextOf(a: Option<Json>): string {
    match a
    case None => "undefined"
    case Some(j) => Show(j)
  }

  function Show(j: Json): string {
    match j
    case JNull => "null"
    case JBool(b) => if b then "true" else "false"
    case JNum(n) => IntToString(n)
    case JStr(s) => s
    case JArr(items) => ShowItems(items)
    case JObj(_) => "[object Object]"
  }

  /** `Array.prototype.join(",")`: `null` elements print as nothing. */
  function ShowItems(items: seq<Json>): string
    decreases items
  {
    if |items| == 0 then ""
    else
      var first := if items[0].JNull? then "" else Show(items[0]);
      if |items| == 1 then first else first + "," + ShowItems(items[1..])
  }

  /** The body `{ error: message }`. */
  function ErrorBody(message: string): (r: Json)
    ensures Get(r, "error") == Some(JStr(message))
  {
    JObj([("error", JStr(message))])
  }
}
