/** The decoded JSON bodies the upstream API sends back, and the Python
    operations the handlers apply to them: `key in v`, `v[key]`,
    `v.get(key, default)` and `int(v)`. Each operation that raises in Python
    (TypeError, KeyError, AttributeError, ValueError) yields `None` here. */
module Json {
  import opened Wrappers
  import opened Text

  /** A decoded JSON value; numbers with a fraction or an exponent are not modelled. */
  datatype Json =
    | JNull
    | JBool(b: bool)
    | JInt(i: int)
    | JStr(s: string)
    | JArr(elems: seq<Json>)
    | JObj(fields: map<string, Json>)

  /** What `requests.post(...).json()` gives: a decoded body, or nothing when the
      call raises (transport failure) or the body is not JSON. */
  datatype Reply = Body(json: Json) | Unreadable

  predicate IsSubstring(needle: string, hay: string) {
    exists i :: 0 <= i <= |hay| && needle <= hay[i..]
  }

  /** Python `key in v`: membership of a key in a dict, of an equal string in a
      list, a substring test on a string; a TypeError on null, bool and int. */
  function Contains(key: string, v: Json): (r: Option<bool>)
    ensures r.None? <==> v.JNull? || v.JBool? || v.JInt?
    ensures v.JObj? ==> r == Some(key in v.fields)
  {
    match v
    case JObj(fields) => Some(key in fields)
    case JArr(elems) => Some(JStr(key) in elems)
    case JStr(s) => Some(IsSubstring(key, s))
    case _ => None
  }

  /** Python `v[key]` with a string key: only a dict holding the key answers. */
  function Subscript(v: Json, key: string): (r: Option<Json>)
    ensures r.Some? <==> v.JObj? && key in v.fields
    ensures r.Some? ==> r.value == v.fields[key]
  {
    if v.JObj? && key in v.fields then Some(v.fields[key]) else None
  }

  /** `get(key, default)` on the fields of a dict. */
  function FieldOr(fields: map<string, Json>, key: string, default: Json): Json {
    if key in fields then fields[key] else default
  }

  /** Python `v.get(key, default)`: only a dict has `get`. */
  function GetOr(v: Json, key: string, default: Json): (r: Option<Json>)
    ensures r.Some? <==> v.JObj?
    ensures v.JObj? && key in v.fields ==> r == Some(v.fields[key])
    ensures v.JObj? && key !in v.fields ==> r == Some(default)
  {
    match v
    case JObj(fields) => Some(FieldOr(fields, key, default))
    case _ => None
  }

  /** CPython's default limit on the number of digits `int(str)` converts
      (`sys.int_info.default_max_str_digits`). */
  const MaxStrDigits: nat := 4300

  /** A numeral `int(s)` accepts: an optional sign, then between one and
      `MaxStrDigits` ASCII digits. */
  predicate IsNumeral(s: string) {
    var digits := if |s| >= 1 && (s[0] == '-' || s[0] == '+') then s[1..] else s;
    1 <= |digits| <= MaxStrDigits && AllDigits(digits)
  }

  /** Python `int(s)` on a string. */
  function ParseInt(s: string): (r: Option<int>)
    ensures r.Some? <==> IsNumeral(s)
    ensures r.Some? && s[0] == '-' ==> r.value == -(DecimalValue(s[1..]) as int)
    ensures r.Some? && s[0] == '+' ==> r.value == DecimalValue(s[1..])
    ensures r.Some? && s[0] != '-' && s[0] != '+' ==> r.value == DecimalValue(s)
  {
    if |s| >= 1 && (s[0] == '-' || s[0] == '+') then
      var digits := s[1..];
      if 1 <= |digits| <= MaxStrDigits && AllDigits(digits) then
        var n: int := DecimalValue(digits);
        Some(if s[0] == '-' then -n else n)
      else None
    else if 1 <= |s| <= MaxStrDigits && AllDigits(s) then Some(DecimalValue(s))
    else None
  }

  /** Python `int(v)` on a decoded JSON value: a bool is 0 or 1, a string is read
      as a numeral; a TypeError on null, lists and dicts. */
  function ToInt(v: Json): (r: Option<int>)
    ensures v.JInt? ==> r == Some(v.i)
    ensures v.JBool? ==> r == Some(if v.b then 1 else 0)
    ensures v.JStr? ==> r == ParseInt(v.s)
    ensures v.JNull? || v.JArr? || v.JObj? ==> r.None?
  {
    match v
    case JInt(i) => Some(i)
    case JBool(b) => Some(if b then 1 else 0)
    case JStr(s) => ParseInt(s)
    case _ => None
  }

  lemma NumeralStringToInt(v: nat, width: nat)
    requires 1 <= width <= MaxStrDigits && v < Pow10(width)
    ensures ToInt(JStr(Numeral(v, width))) == Some(v)
  {
    NumeralValue(v, width);
  }
}
