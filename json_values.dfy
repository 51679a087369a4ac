/**
 * JSON-like values standing for JavaScript's `Record<string, any>` payloads,
 * with the two JavaScript conversions the core applies to them: truthiness
 * and conversion to text (template literals / `String(v)`).
 */
module JsonValues {
  import opened Wrappers
  import Strings

  /** Numbers are integers here; fractional numbers and NaN are not modelled. */
  datatype Json =
    | JNull
    | JBool(b: bool)
    | JNum(n: int)
    | JStr(s: string)
    | JArr(items: seq<Json>)
    | JObj(fields: map<string, Json>)

  /** Property access `obj[key]`; `None` stands for `undefined`. */
  function Get(obj: map<string, Json>, key: string): (r: Option<Json>)
    ensures r.Some? <==> key in obj
    ensures r.Some? ==> r.value == obj[key]
  {
    if key in obj then Some(obj[key]) else None
  }

  /** JavaScript truthiness; `None` is `undefined`. */
  predicate Truthy(v: Option<Json>) {
    match v
    case None => false
    case Some(JNull) => false
    case Some(JBool(b)) => b
    case Some(JNum(n)) => n != 0
    case Some(JStr(s)) => s != ""
    case Some(_) => true
  }

  function DigitChar(d: nat): char
    requires d < 10
  {
    ('0' as int + d) as char
  }

  /** The number a text of decimal digits denotes, most significant digit first. */
  function DecimalValue(r: string): nat
    requires forall i :: 0 <= i < |r| ==> '0' <= r[i] <= '9'
  {
    if r == [] then 0
    else DecimalValue(r[..|r| - 1]) * 10 + (r[|r| - 1] as int - '0' as int)
  }

  /** Decimal digits of a natural number, most significant first. */
  function NatToText(n: nat): (r: string)
    ensures |r| >= 1
    ensures forall i :: 0 <= i < |r| ==> '0' <= r[i] <= '9'
    ensures n > 0 ==> r[0] != '0'
    ensures DecimalValue(r) == n
    decreases n
  {
    if n < 10 then [DigitChar(n)]
    else
      var r := NatToText(n / 10) + [DigitChar(n % 10)];
      assert r[..|r| - 1] == NatToText(n / 10) && r[|r| - 1] == DigitChar(n % 10);
      assert DecimalValue(r) == DecimalValue(NatToText(n / 10)) * 10 + n % 10;
      r
  }

  /** `String(n)` for an integral number. */
  function IntToText(n: int): string {
    if n < 0 then "-" + NatToText(-n) else NatToText(n)
  }

  /**
   * `String(v)`: strings as they are, `null`, `true`/`false`, decimal numbers,
   * arrays joined with commas (a `null` element becomes empty), objects as
   * "[object Object]".
   */
  function ToText(v: Json): string
    decreases v, 1
  {
    match v
    case JNull => "null"
    case JBool(b) => if b then "true" else "false"
    case JNum(n) => IntToText(n)
    case JStr(s) => s
    case JArr(items) =>
      ElementsText(v, 0)
    case JObj(_) => "[object Object]"
  }

  /** `items.slice(from).join(',')`, where a `null` element gives the empty text. */
  function ElementsText(arr: Json, from: nat): string
    requires arr.JArr? && from <= |arr.items|
    decreases arr, 0, |arr.items| - from
  {
    if from == |arr.items| then ""
    else
      var item := arr.items[from];
      var text := if item.JNull? then "" else ToText(item);
      if from + 1 == |arr.items| then text else text + "," + ElementsText(arr, from + 1)
  }

  /** Template-literal text of a possibly `undefined` value. */
  function OptionToText(v: Option<Json>): string {
    match v
    case None => "undefined"
    case Some(j) => ToText(j)
  }
}
