/**
 * Request payloads as the Django views see them after `json.loads`: a
 * dictionary from keys to JSON scalars, and the few Python built-ins the
 * views apply to those values (`dict.get`, truthiness, `or`, `str()`,
 * `float()`).
 */
module Py {
  import opened Wrappers
  import opened Text

  /** A JSON scalar after decoding: None, a bool, an integer or a string. */
  datatype Val = Null | Bool(b: bool) | Int(n: int) | Str(s: string)

  /** A JSON error response: its HTTP status and its message. */
  datatype ApiError = ApiError(status: int, message: string)

  /** A decoded JSON object; a key that is not in the map was not sent. */
  type Payload = map<string, Val>

  /** payload.get(k): None when the key is missing. */
  function Get(p: Payload, k: string): (r: Val)
    ensures k !in p ==> r == Null
    ensures k in p ==> r == p[k]
  {
    if k in p then p[k] else Null
  }

  /** bool(v). */
  predicate Truthy(v: Val) {
    match v
    case Null => false
    case Bool(b) => b
    case Int(n) => n != 0
    case Str(s) => s != ""
  }

  /** `a or b`. */
  function Or(a: Val, b: Val): (r: Val)
    ensures Truthy(r) <==> Truthy(a) || Truthy(b)
    ensures Truthy(a) ==> r == a
  {
    if Truthy(a) then a else b
  }

  /** `k in p and p[k]`: the key was sent with a truthy value. */
  predicate SentTruthy(p: Payload, k: string) {
    k in p && Truthy(p[k])
  }

  /** str(v). */
  function ToStr(v: Val): string {
    match v
    case Null => "None"
    case Bool(b) => if b then "True" else "False"
    case Int(n) => IntToString(n)
    case Str(s) => s
  }

  /** `str(v or default)`. */
  function StrOr(v: Val, default: string): (r: string)
    ensures v.Str? && v.s != "" ==> r == v.s
    ensures !Truthy(v) ==> r == default
  {
    ToStr(Or(v, Str(default)))
  }

  /**
   * `(a or default)` followed by a string method such as `.strip()` or
   * `.lower()`: the text when the chosen value is a string; None where
   * Python would raise AttributeError.
   */
  function TextOr(v: Val, default: string): (r: Option<string>)
    ensures v.Str? && v.s != "" ==> r == Some(v.s)
    ensures !Truthy(v) ==> r == Some(default)
    ensures r.None? <==> Truthy(v) && !v.Str?
  {
    match Or(v, Str(default))
    case Str(s) => Some(s)
    case _ => None
  }

  /** A `(v or d)` that could be read as text is the sent string when truthy, else the default. */
  lemma TextOrValue(v: Val, d: string)
    requires TextOr(v, d).Some?
    ensures TextOr(v, d).value == if Truthy(v) then v.s else d
    ensures Truthy(v) ==> v.Str?
  {
  }

  // ---------------------------------------------------------------------------
  // float()

  function Pow10(k: nat): (r: nat)
    ensures r >= 1
  {
    if k == 0 then 1 else 10 * Pow10(k - 1)
  }

  /** Digits, optionally with a fraction part: "12", "12.5", "12.", ".5". */
  predicate IsDecimalBody(t: string) {
    match IndexOf(t, '.')
    case None => t != [] && AllDigits(t)
    case Some(i) => AllDigits(t[..i]) && AllDigits(t[i + 1..]) && |t| >= 2
  }

  function DecimalValue(t: string): real
    requires IsDecimalBody(t)
  {
    match IndexOf(t, '.')
    case None => DigitsValue(t) as real
    case Some(i) =>
      DigitsValue(t[..i]) as real + DigitsValue(t[i + 1..]) as real / Pow10(|t| - i - 1) as real
  }

  /** float(s) on a string: surrounding whitespace, an optional sign and a decimal body. */
  function ParseFloat(s: string): (r: Option<real>)
    ensures r.Some? ==> Trim(s) != []
  {
    var t := Trim(s);
    if t != [] && (t[0] == '+' || t[0] == '-') then
      if IsDecimalBody(t[1..]) then
        var v := DecimalValue(t[1..]);
        Some(if t[0] == '-' then -v else v)
      else None
    else if IsDecimalBody(t) then Some(DecimalValue(t))
    else None
  }

  /** float(v); None where Python raises (float(None)) or the text is not a number. */
  function ToFloat(v: Val): Option<real> {
    match v
    case Null => None
    case Bool(b) => Some(if b then 1.0 else 0.0)
    case Int(n) => Some(n as real)
    case Str(s) => ParseFloat(s)
  }

  /** `float(v or 0)`: the sent value when truthy, else zero. */
  lemma FloatOrZero(v: Val)
    ensures ToFloat(Or(v, Int(0))) == if Truthy(v) then ToFloat(v) else Some(0.0)
  {
  }

  /** float() reads a plain digit string as the integer it denotes. */
  lemma ParseFloatDigits(s: string)
    requires s != [] && AllDigits(s)
    ensures ParseFloat(s) == Some(DigitsValue(s) as real)
  {
    TrimUnchanged(s);
    assert IndexOf(s, '.') == None;
  }

  /** float() agrees with int() on digit strings, so "12" and 12 give the same rate. */
  lemma ToFloatAgreesWithInt(s: string)
    requires s != [] && AllDigits(s)
    ensures ToFloat(Str(s)) == ToFloat(Int(DigitsValue(s)))
  {
    ParseFloatDigits(s);
  }

  /** float() rejects text holding a character no number literal contains. */
  lemma ParseFloatRejects(s: string, c: char)
    requires c in s
    requires !IsSpace(c) && !IsDigit(c) && c != '.' && c != '+' && c != '-'
    ensures ParseFloat(s) == None
  {
    TrimKeeps(s, c);
    var t := Trim(s);
    if t != [] && (t[0] == '+' || t[0] == '-') {
      assert c in t[1..];
      DecimalBodyChars(t[1..], c);
    } else {
      DecimalBodyChars(t, c);
    }
  }

  lemma DecimalBodyChars(t: string, c: char)
    requires c in t && !IsDigit(c) && c != '.'
    ensures !IsDecimalBody(t)
  {
    match IndexOf(t, '.')
    case None =>
    case Some(i) =>
      assert t == t[..i] + [t[i]] + t[i + 1..];
      if c in t[..i] {
      } else {
        assert c in t[i + 1..];
      }
  }
}
