/** Request bodies as the JSON parser hands them to the route handlers, and
    the JavaScript conversions (`Number(v)`, `String(v)`) the handlers apply
    to their fields. */
module Json {
  import opened Wrappers
  import opened Strings

  /** A parsed JSON value. A key missing from an object is `undefined`,
      which is different from an explicit `null`. */
  datatype Json =
    | JNull
    | JBool(b: bool)
    | JNum(r: real)
    | JStr(s: string)
    | JArr(items: seq<Json>)
    | JObj(fields: map<string, Json>)

  /** `body[name]`, or `None` for `undefined`. */
  function Field(body: Json, name: string): (r: Option<Json>)
    ensures r.Some? <==> body.JObj? && name in body.fields
  {
    if body.JObj? && name in body.fields then Some(body.fields[name]) else None
  }

  predicate IsInteger(r: real) {
    r.Floor as real == r
  }

  /** A string `Number()` reads as an integer: an optional sign followed by
      ASCII digits. */
  predicate IsIntegerText(s: string) {
    |Unsigned(s)| > 0 && forall i | 0 <= i < |Unsigned(s)| :: IsDigit(Unsigned(s)[i])
  }

  /** The text after a leading sign. */
  function Unsigned(s: string): string {
    if |s| > 0 && (s[0] == '+' || s[0] == '-') then s[1..] else s
  }

  function IntegerTextValue(s: string): int
    requires IsIntegerText(s)
  {
    if s[0] == '-' then -(DigitsValue(Unsigned(s)) as int) else DigitsValue(Unsigned(s))
  }

  /** `Number(s)` for a string: surrounding whitespace is ignored, a blank
      string is 0, an integer literal is its value; `None` stands for NaN. */
  function StringToNumber(s: string): (r: Option<real>)
    ensures JsTrim(s) == "" ==> r == Some(0.0)
  {
    var t := JsTrim(s);
    if t == "" then Some(0.0)
    else if IsIntegerText(t) then Some(IntegerTextValue(t) as real)
    else None
  }

  /** `Number(String(n))` is `n` for every integer `n`. */
  lemma IntegerTextRoundTrip(n: int)
    ensures StringToNumber(IntToString(n)) == Some(n as real)
  {
    var t := IntToString(n);
    var d := NatToString(if n < 0 then -n else n);
    NatToStringValue(if n < 0 then -n else n);
    assert !IsJsSpace(d[0]) && !IsJsSpace(d[|d| - 1]);
    if n < 0 {
      assert t[1..] == d;
    }
    assert NoEdgeSpace(t, IsJsSpace);
    assert Unsigned(t) == d;
  }

  /** `Number(v)`; `None` stands for NaN. An array converts through its
      string form: `[]` is 0, a one-element array is its element, anything
      longer is NaN. */
  function JsNumber(v: Json): (r: Option<real>)
    ensures v.JNum? ==> r == Some(v.r)
    ensures v.JObj? ==> r.None?
  {
    match v
    case JNull => Some(0.0)
    case JBool(b) => Some(if b then 1.0 else 0.0)
    case JNum(x) => Some(x)
    case JStr(s) => StringToNumber(s)
    case JObj(_) => None
    case JArr(items) =>
      if |items| == 0 then Some(0.0)
      else if |items| > 1 then None
      else match items[0]
        case JNull => Some(0.0)
        case JBool(_) => None
        case JObj(_) => None
        case _ => JsNumber(items[0])
  }

  /** `Math.min` and `Math.max` on two numbers that are not NaN. */
  function RMin(a: real, b: real): real {
    if a <= b then a else b
  }

  function RMax(a: real, b: real): real {
    if a >= b then a else b
  }

  /** `String(x)` for a number, given how non-integral numbers print; an
      integral number prints as its decimal digits. */
  function NumberToString(x: real, fractionText: real -> string): (r: string)
    ensures IsInteger(x) ==> r == IntToString(x.Floor)
  {
    if IsInteger(x) then IntToString(x.Floor) else fractionText(x)
  }

  /** `String(v)`. An array prints as its elements joined by commas, with
      `null` elements printing as nothing. */
  function JsString(v: Json, fractionText: real -> string): (r: string)
    ensures v.JStr? ==> r == v.s
  {
    match v
    case JNull => "null"
    case JBool(b) => if b then "true" else "false"
    case JNum(x) => NumberToString(x, fractionText)
    case JStr(s) => s
    case JObj(_) => "[object Object]"
    case JArr(items) => Join(ElementStrings(v, items, fractionText), ",")
  }

  function ElementStrings(v: Json, items: seq<Json>, fractionText: real -> string): (r: seq<string>)
    requires v.JArr? && items <= v.items
    ensures |r| == |items|
    decreases v, |items|
  {
    if |items| == 0 then []
    else
      var last := items[|items| - 1];
      assert last in v.items;
      ElementStrings(v, items[..|items| - 1], fractionText)
      + [if last.JNull? then "" else JsString(last, fractionText)]
  }
}
