/**
 * Values produced by Python's `json` decoder, and the few Python built-ins the
 * collector applies to them: `dict.get`, truthiness (`bool(v)`) and `int(v)`.
 */
module JsonValue {
  import opened Wrappers

  /** None, bool, int, float, str, list or dict, as `response.json()` returns them. */
  datatype Json =
    | JNull
    | JBool(b: bool)
    | JInt(i: int)
    | JFloat(r: real)
    | JStr(s: string)
    | JArray(items: seq<Json>)
    | JObject(fields: map<string, Json>)

  /** `d.get(key)`: the value under `key`, or None when the key is absent. */
  function Get(d: map<string, Json>, key: string): Json
  {
    if key in d then d[key] else JNull
  }

  /** `d.get(key, default)`. */
  function GetOr(d: map<string, Json>, key: string, default: Json): Json
  {
    if key in d then d[key] else default
  }

  /** `bool(v)`: None, False, zero and empty containers are falsy, everything else truthy. */
  function Truthy(v: Json): (t: bool)
    ensures !t <==> v in {JNull, JBool(false), JInt(0), JFloat(0.0), JStr(""), JArray([]), JObject(map[])}
  {
    match v
    case JNull => false
    case JBool(b) => b
    case JInt(i) => i != 0
    case JFloat(r) => r != 0.0
    case JStr(s) => s != ""
    case JArray(a) => a != []
    case JObject(m) => m != map[]
  }

  predicate IsDigit(c: char)
  {
    '0' <= c <= '9'
  }

  function DigitValue(c: char): nat
    requires IsDigit(c)
  {
    c as int - '0' as int
  }

  function DigitChar(d: nat): (c: char)
    requires d < 10
    ensures IsDigit(c) && DigitValue(c) == d
  {
    ('0' as int + d) as char
  }

  predicate AllDigits(s: string)
  {
    forall k :: 0 <= k < |s| ==> IsDigit(s[k])
  }

  /** The value of a string of decimal digits, most significant first. */
  function DigitsValue(s: string): nat
    requires AllDigits(s)
  {
    if s == [] then 0 else 10 * DigitsValue(s[..|s| - 1]) + DigitValue(s[|s| - 1])
  }

  /** `int(s)` for a string: an optional sign and at least one decimal digit. */
  function ParseInt(s: string): (r: Option<int>)
    ensures r.Some? <==>
      || (|s| > 0 && AllDigits(s))
      || (|s| > 1 && (s[0] == '-' || s[0] == '+') && AllDigits(s[1..]))
    ensures r.Some? && s[0] == '-' ==> r.value <= 0
    ensures r.Some? && s[0] != '-' ==> r.value >= 0
  {
    if |s| > 0 && (s[0] == '-' || s[0] == '+') then
      var body := s[1..];
      if |body| > 0 && AllDigits(body) then
        var magnitude: int := DigitsValue(body);
        Some(if s[0] == '-' then -magnitude else magnitude)
      else None
    else if |s| > 0 && AllDigits(s) then Some(DigitsValue(s))
    else None
  }

  /** `int(x)` for a float: truncation toward zero. */
  function Truncate(x: real): (t: int)
    ensures 0.0 <= x ==> t as real <= x < t as real + 1.0
    ensures x < 0.0 ==> t as real - 1.0 < x <= t as real
  {
    if 0.0 <= x then x.Floor else -((-x).Floor)
  }

  /**
   * `int(v)`: None when Python raises (TypeError for None, lists and dicts,
   * ValueError for a string that is not a decimal integer).
   */
  function IntOf(v: Json): (r: Option<int>)
    ensures v.JNull? || v.JArray? || v.JObject? ==> r.None?
    ensures v.JBool? ==> r == Some(if v.b then 1 else 0)
    ensures v.JInt? ==> r == Some(v.i)
    ensures v.JFloat? ==> r == Some(Truncate(v.r))
    ensures v.JStr? ==> r == ParseInt(v.s)
  {
    match v
    case JNull => None
    case JBool(b) => Some(if b then 1 else 0)
    case JInt(i) => Some(i)
    case JFloat(r) => Some(Truncate(r))
    case JStr(s) => ParseInt(s)
    case JArray(_) => None
    case JObject(_) => None
  }

  /** The decimal digits of `n`, as `str(n)` writes them. */
  function Digits(n: nat): string
  {
    if n < 10 then [DigitChar(n)] else Digits(n / 10) + [DigitChar(n % 10)]
  }

  /** `str(n)` for an integer. */
  function DecimalString(n: int): string
  {
    if n < 0 then "-" + Digits(-n) else Digits(n)
  }

  lemma {:induction false} DigitsRoundTrip(n: nat)
    ensures |Digits(n)| > 0 && AllDigits(Digits(n)) && DigitsValue(Digits(n)) == n
  {
    var s := Digits(n);
    if n >= 10 {
      DigitsRoundTrip(n / 10);
      assert s[..|s| - 1] == Digits(n / 10);
    }
  }

  /** A signed digit string parses to the negated value of its digits. */
  lemma ParseIntNegative(s: string, body: string)
    requires |body| > 0 && AllDigits(body) && s == "-" + body
    ensures ParseInt(s) == Some(-(DigitsValue(body) as int))
  {
    assert s[0] == '-' && s[1..] == body;
  }

  /** An unsigned digit string parses to the value of its digits. */
  lemma ParseIntUnsigned(s: string)
    requires |s| > 0 && AllDigits(s)
    ensures ParseInt(s) == Some(DigitsValue(s))
  {
    assert IsDigit(s[0]);
  }

  /** `int(str(n)) == n`: the integer parse inverts decimal printing. */
  lemma IntOfDecimalString(n: int)
    ensures IntOf(JStr(DecimalString(n))) == Some(n)
  {
    if n < 0 {
      DigitsRoundTrip(-n);
      ParseIntNegative(DecimalString(n), Digits(-n));
    } else {
      DigitsRoundTrip(n);
      ParseIntUnsigned(DecimalString(n));
    }
  }
}
