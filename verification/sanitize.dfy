/** `sanitizeNumber` (lib/index.js), which turns an option value into an
    integer setting, falling back to a default when the value is unusable. */
module Sanitize {
  import opened JsValues

  /** `min <= n`, and `n <= max` when a maximum is given. */
  predicate InRange(n: int, min: int, max: Option<int>)
  {
    min <= n && (max.Some? ==> n <= max.value)
  }

  // ---------------------------------------------------------------------
  // parseFloat, for the string branch
  // ---------------------------------------------------------------------

  predicate IsDigit(c: char)
  {
    '0' <= c <= '9'
  }

  /** Length of the run of decimal digits that starts `s`. */
  function LeadingDigits(s: string): (n: nat)
    ensures n <= |s|
    ensures forall i | 0 <= i < n :: IsDigit(s[i])
    ensures n < |s| ==> !IsDigit(s[n])
  {
    if |s| > 0 && IsDigit(s[0]) then 1 + LeadingDigits(s[1..]) else 0
  }

  /** The number a string of decimal digits denotes. */
  function DigitsValue(d: string): nat
    requires forall i | 0 <= i < |d| :: IsDigit(d[i])
  {
    if |d| == 0 then 0
    else
      assert IsDigit(d[|d| - 1]);
      10 * DigitsValue(d[..|d| - 1]) + (d[|d| - 1] as int - '0' as int)
  }

  function Pow10(k: nat): (r: nat)
    ensures r >= 1
  {
    if k == 0 then 1 else 10 * Pow10(k - 1)
  }

  /** `parseFloat(s)`: the value of the longest prefix of `s` of the form
      [sign] digits [. digits] with at least one digit; `None` is NaN. */
  function ParseFloat(s: string): (r: Option<real>)
    ensures r.None? ==> |s| == 0 || !IsDigit(s[0])
  {
    var signed := |s| > 0 && (s[0] == '-' || s[0] == '+');
    var body := if signed then s[1..] else s;
    var i := LeadingDigits(body);
    var rest := body[i..];
    var f := if |rest| > 0 && rest[0] == '.' then LeadingDigits(rest[1..]) else 0;
    if i == 0 && f == 0 then None
    else
      var frac := if f > 0 then rest[1..1 + f] else "";
      var m := DigitsValue(body[..i]) as real + DigitsValue(frac) as real / Pow10(f) as real;
      Some(if |s| > 0 && s[0] == '-' then -m else m)
  }

  // ---------------------------------------------------------------------
  // sanitizeNumber
  // ---------------------------------------------------------------------

  /** The default, seen as a JavaScript number or null. */
  function AsReal(def: Option<int>): Option<real>
  {
    if def.Some? then Some(def.value as real) else None
  }

  /** `sanitizeNumber(num, min, max, def)` exactly as lib/index.js writes it:
      a string is handed to parseFloat and its value returned with neither
      flooring nor the range check; a number is floored and range-checked;
      NaN and every other value give `def`. `None` stands for null (a default
      of null is how an unbounded maxRetry is written). */
  function SanitizeNumberAsWritten(v: Value, min: int, max: Option<int>, def: Option<int>): (r: Option<real>)
    ensures v.Str? && ParseFloat(v.s).Some? ==> r == ParseFloat(v.s)
    ensures v.Str? && ParseFloat(v.s).None? ==> r == AsReal(def)
    ensures !v.Str? ==> r == AsReal(SanitizeNumber(v, min, max, def))
  {
    match v
    case Str(s) =>
      var p := ParseFloat(s);
      if p.Some? then p else AsReal(def)
    case Num(x) =>
      var f := x.Floor;
      if InRange(f, min, max) then Some(f as real) else AsReal(def)
    case _ => AsReal(def)
  }

  /** `sanitizeNumber` as its documentation ("sanitize integer value", with a
      minimum) intends it: a numeric string is floored and range-checked like
      the number it spells. The scheduler uses this definition. */
  function SanitizeNumber(v: Value, min: int, max: Option<int>, def: Option<int>): (r: Option<int>)
    // a number gives its floor when that is in range, otherwise the default
    ensures v.Num? && InRange(v.x.Floor, min, max) ==> r == Some(v.x.Floor)
    ensures v.Num? && !InRange(v.x.Floor, min, max) ==> r == def
    // NaN, undefined, null, booleans, functions and objects give the default
    ensures !v.Num? && !v.Str? ==> r == def
    // a string parseFloat cannot read gives the default
    ensures v.Str? && ParseFloat(v.s).None? ==> r == def
    // whatever comes back is the default or an integer in range
    ensures r == def || (r.Some? && InRange(r.value, min, max))
  {
    match v
    case Str(s) =>
      var p := ParseFloat(s);
      if p.Some? && InRange(p.value.Floor, min, max) then Some(p.value.Floor) else def
    case Num(x) =>
      if InRange(x.Floor, min, max) then Some(x.Floor) else def
    case _ => def
  }

  /** With a non-null default that is itself in range, the setting is
      always an integer in range: this is why maxConcurrent is at least 1. */
  lemma SanitizedSettingInRange(v: Value, min: int, max: Option<int>, def: int)
    requires InRange(def, min, max)
    ensures SanitizeNumber(v, min, max, Some(def)).Some?
    ensures InRange(SanitizeNumber(v, min, max, Some(def)).value, min, max)
  {
  }

  /** The corrected string branch treats a numeric string exactly like the
      number parseFloat reads from it. */
  lemma NumericStringLikeNumber(s: string, min: int, max: Option<int>, def: Option<int>)
    requires ParseFloat(s).Some?
    ensures SanitizeNumber(Str(s), min, max, def) == SanitizeNumber(Num(ParseFloat(s).value), min, max, def)
  {
  }

  /** The values the constructor's tests pin down for maxConcurrent
      (minimum 1, default 1). */
  lemma MaxConcurrentExamples()
    ensures SanitizeNumber(Num(10.3), 1, None, Some(1)) == Some(10)
    ensures SanitizeNumber(Num(21.0), 1, None, Some(1)) == Some(21)
    ensures SanitizeNumber(Num(0.0), 1, None, Some(1)) == Some(1)
    ensures SanitizeNumber(Num(-13.0), 1, None, Some(1)) == Some(1)
    ensures SanitizeNumber(NaN, 1, None, Some(1)) == Some(1)
    ensures SanitizeNumber(Bool(false), 1, None, Some(1)) == Some(1)
    ensures SanitizeNumber(Obj(map[]), 1, None, Some(1)) == Some(1)
    ensures SanitizeNumber(Str("hoge"), 1, None, Some(1)) == Some(1)
  {
    assert (10.3).Floor == 10;
    assert ParseFloat("hoge").None?;
  }

  /** maxRetry (minimum 1, default null): out-of-range values mean unbounded. */
  lemma MaxRetryExamples()
    ensures SanitizeNumber(Num(10.3), 1, None, None) == Some(10)
    ensures SanitizeNumber(Num(0.0), 1, None, None) == None
    ensures SanitizeNumber(Num(-13.0), 1, None, None) == None
    ensures SanitizeNumber(Str("hoge"), 1, None, None) == None
  {
    assert (10.3).Floor == 10;
    assert ParseFloat("hoge").None?;
  }

  /** The string branch as written lets `maxConcurrent: "0"` through as 0,
      below the minimum of 1 (so no job would ever be dispatched), where the
      corrected definition falls back to the default 1. */
  lemma StringOptionEscapesMinimum()
    ensures SanitizeNumberAsWritten(Str("0"), 1, None, Some(1)) == Some(0.0)
    ensures SanitizeNumber(Str("0"), 1, None, Some(1)) == Some(1)
  {
    assert "0"[1..] == "";
    assert LeadingDigits("0") == 1;
    assert "0"[..1] == "0" && "0"[1..] == "";
    assert DigitsValue("0") == 0;
    assert ParseFloat("0") == Some(0.0);
  }
}
