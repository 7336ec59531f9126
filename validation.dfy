/** The building blocks of the request validators: how a body value reads as text, the
    standard checks they chain (`notEmpty`, `isLength`, `isInt`, `isFloat`,
    `isBoolean`, `isIn`, the UUID pattern) and the `validate` middleware that every
    validator file repeats verbatim. */
module Validation {
  import opened Wrappers
  import Text
  import Errors

  /** A request-body value as JSON delivers it (numbers are whole numbers here). */
  datatype Json = JString(s: string) | JNumber(n: int) | JBool(b: bool) | JNull | JObject | JArray(elems: seq<Json>)

  /** The text a standard check sees: the value's string conversion, "" when absent
      or null. An array value reads as "". */
  function TextOf(v: Option<Json>): string {
    match v
    case None => ""
    case Some(JString(s)) => s
    case Some(JNumber(n)) => Text.DecimalText(n)
    case Some(JBool(b)) => if b then "true" else "false"
    case Some(JNull) => ""
    case Some(JObject) => "[object Object]"
    case Some(JArray(_)) => ""
  }

  /** The text after the `trim()` sanitizer. */
  function Trimmed(v: Option<Json>): string {
    Text.Trim(TextOf(v))
  }

  /** JavaScript truthiness of a present value. */
  predicate Truthy(v: Json) {
    match v
    case JString(s) => s != ""
    case JNumber(n) => n != 0
    case JBool(b) => b
    case JNull => false
    case JObject => true
    case JArray(_) => true
  }

  /** One check of a chain: no message when it passes, its message when it fails. */
  function Check(ok: bool, message: string): (r: seq<string>)
    ensures r == [] <==> ok
  {
    if ok then [] else [message]
  }

  /** `.optional()` in front of a chain: an absent field is not checked at all. */
  function Optional(v: Option<Json>, errors: seq<string>): (r: seq<string>)
    ensures r == (if v.None? then [] else errors)
  {
    if v.None? then [] else errors
  }

  /** `isLength({min, max})` on a text. */
  predicate LengthIn(s: string, min: nat, max: nat) {
    min <= |s| <= max
  }

  /** `body(f).trim().notEmpty().withMessage(required).isLength({min, max}).withMessage(length)`. */
  function RequiredText(v: Option<Json>, min: nat, max: nat, required: string, length: string): (r: seq<string>)
    ensures r == [] <==> Trimmed(v) != "" && LengthIn(Trimmed(v), min, max)
  {
    var t := Trimmed(v);
    Check(t != "", required) + Check(LengthIn(t, min, max), length)
  }

  /** `isBoolean()`: the text is one of "true", "false", "1", "0". */
  predicate IsBooleanText(s: string) {
    s == "true" || s == "false" || s == "1" || s == "0"
  }

  // ---- isInt -------------------------------------------------------------------

  /** `^[-+]?[0-9]+$`, the integer pattern `isInt` uses when leading zeroes are allowed. */
  predicate IntShape(s: string) {
    var d := if |s| > 0 && (s[0] == '-' || s[0] == '+') then s[1..] else s;
    d != [] && Text.All(d, Text.IsDigit)
  }

  /** The number an integer-shaped text denotes. */
  function IntValue(s: string): int
    requires IntShape(s)
  {
    var neg := s[0] == '-';
    var d := if s[0] == '-' || s[0] == '+' then s[1..] else s;
    Text.AllIff(d, Text.IsDigit);
    var v: int := Text.DigitsValue(d);
    if neg then -v else v
  }

  /** `isInt({min})`. */
  predicate IsIntAtLeast(s: string, min: int) {
    IntShape(s) && IntValue(s) >= min
  }

  /** A JSON number passes `isInt({min})` exactly when it is at least `min`. */
  lemma {:induction false} NumberIsIntAtLeast(n: int, min: int)
    ensures IsIntAtLeast(TextOf(Some(JNumber(n))), min) <==> n >= min
  {
    var s := Text.DecimalText(n);
    DecimalIntShape(n);
    if n >= 0 {
      Text.DecimalRoundTrip(n);
    } else {
      assert s == "-" + Text.DecimalText(-n);
      assert s[1..] == Text.DecimalText(-n);
      Text.DecimalRoundTrip(-n);
    }
  }

  lemma {:induction false} DecimalIntShape(n: int)
    ensures IntShape(Text.DecimalText(n))
  {
    var s := Text.DecimalText(n);
    var d := if s[0] == '-' || s[0] == '+' then s[1..] else s;
    if n < 0 {
      assert s == "-" + Text.DecimalText(-n);
      assert d == Text.DecimalText(-n);
    }
    Text.AllIff(d, Text.IsDigit);
  }

  // ---- isFloat -----------------------------------------------------------------

  /** Index just past the run of digits that starts at `i`. */
  function SkipDigits(s: string, i: nat): (j: nat)
    requires i <= |s|
    ensures i <= j <= |s|
    ensures forall k :: i <= k < j ==> Text.IsDigit(s[k])
    ensures j == |s| || !Text.IsDigit(s[j])
    decreases |s| - i
  {
    if i < |s| && Text.IsDigit(s[i]) then SkipDigits(s, i + 1) else i
  }

  function SignLength(s: string): nat {
    if |s| > 0 && (s[0] == '-' || s[0] == '+') then 1 else 0
  }

  /** Index just past the mantissa `[0-9]*(\.[0-9]*)?` that follows the sign. */
  function MantissaEnd(s: string): (c: nat)
    ensures SignLength(s) <= c <= |s|
  {
    var b := SkipDigits(s, SignLength(s));
    if b < |s| && s[b] == '.' then SkipDigits(s, b + 1) else b
  }

  /** `^[-+]?([0-9]+)?(\.[0-9]*)?([eE][+-]?[0-9]+)?$`, the pattern of `isFloat`. */
  predicate FloatShape(s: string) {
    var c := MantissaEnd(s);
    c == |s| ||
    (s[c] in "eE" &&
     var d := if c + 1 < |s| && s[c + 1] in "+-" then c + 2 else c + 1;
     var e := SkipDigits(s, d);
     e > d && e == |s|)
  }

  /** `isFloat({min: 0})`: a float-shaped text other than "", ".", ",", "-", "+" whose
      value (`parseFloat`) is not NaN and not below zero. The value is NaN when the
      mantissa has no digit; it is below zero when the sign is `-` and some mantissa
      digit is non-zero (exponent underflow to -0 is not modelled). */
  predicate IsNonNegativeFloat(s: string) {
    var m := s[SignLength(s)..MantissaEnd(s)];
    s !in {"", ".", ",", "-", "+"} && FloatShape(s) &&
    Text.Any(m, Text.IsDigit) &&
    (SignLength(s) == 0 || s[0] == '+' || Text.All(m, c => c == '0' || c == '.'))
  }

  /** A JSON number passes `isFloat({min: 0})` exactly when it is not negative. */
  lemma {:induction false} NumberIsNonNegativeFloat(n: int)
    ensures IsNonNegativeFloat(TextOf(Some(JNumber(n)))) <==> n >= 0
  {
    var s := Text.DecimalText(n);
    if n >= 0 {
      AllDigitsSkip(s, 0);
      assert SignLength(s) == 0;
      assert MantissaEnd(s) == |s|;
      assert s[0..|s|] == s;
      Text.AnyIff(s, Text.IsDigit);
      assert s !in {"", ".", ",", "-", "+"} by {
        assert Text.IsDigit(s[0]);
      }
    } else {
      var t := Text.DecimalText(-n);
      assert s == "-" + t;
      AllDigitsSkip(s, 1);
      assert MantissaEnd(s) == |s|;
      assert s[1..|s|] == t;
      NonZeroDecimal(-n);
      Text.AllIff(t, c => c == '0' || c == '.');
    }
  }

  lemma {:induction false} AllDigitsSkip(s: string, i: nat)
    requires i <= |s|
    requires forall k :: i <= k < |s| ==> Text.IsDigit(s[k])
    ensures SkipDigits(s, i) == |s|
    decreases |s| - i
  {
    if i < |s| {
      AllDigitsSkip(s, i + 1);
    }
  }

  /** The decimal text of a positive number has a non-zero digit. */
  lemma {:induction false} NonZeroDecimal(n: nat)
    requires n > 0
    ensures exists i :: 0 <= i < |Text.DecimalText(n)| && Text.DecimalText(n)[i] != '0'
  {
    var s := Text.DecimalText(n);
    if n < 10 {
      assert s[0] != '0';
    } else if n % 10 != 0 {
      assert s[|s| - 1] != '0';
    } else {
      NonZeroDecimal(n / 10);
      var t := Text.DecimalText(n / 10);
      var i :| 0 <= i < |t| && t[i] != '0';
      assert s[i] == t[i];
    }
  }

  // ---- UUID --------------------------------------------------------------------

  /** `^[0-9a-fA-F]{8}-[0-9a-fA-F]{4}-[0-9a-fA-F]{4}-[0-9a-fA-F]{4}-[0-9a-fA-F]{12}$`,
      read group by group. */
  predicate UuidPattern(s: string) {
    |s| == 36 &&
    Text.All(s[0..8], Text.IsHex) && s[8] == '-' &&
    Text.All(s[9..13], Text.IsHex) && s[13] == '-' &&
    Text.All(s[14..18], Text.IsHex) && s[18] == '-' &&
    Text.All(s[19..23], Text.IsHex) && s[23] == '-' &&
    Text.All(s[24..36], Text.IsHex)
  }

  predicate IsUuidHyphenIndex(i: int) { i == 8 || i == 13 || i == 18 || i == 23 }

  /** The UUID shape position by position: 36 characters, hyphens at 8, 13, 18 and 23,
      hexadecimal digits of either case everywhere else. */
  predicate UuidShape(s: string) {
    |s| == 36 && forall i :: 0 <= i < 36 ==> if IsUuidHyphenIndex(i) then s[i] == '-' else Text.IsHex(s[i])
  }

  lemma UuidPatternIff(s: string)
    ensures UuidPattern(s) <==> UuidShape(s)
  {
    if |s| == 36 {
      HexGroup(s, 0, 8);
      HexGroup(s, 9, 13);
      HexGroup(s, 14, 18);
      HexGroup(s, 19, 23);
      HexGroup(s, 24, 36);
    }
  }

  lemma HexGroup(s: string, i: nat, j: nat)
    requires i <= j <= |s|
    ensures Text.All(s[i..j], Text.IsHex) <==> forall k :: i <= k < j ==> Text.IsHex(s[k])
  {
    Text.AllIff(s[i..j], Text.IsHex);
    assert forall k :: i <= k < j ==> s[k] == s[i..j][k - i];
  }

  // ---- phone -------------------------------------------------------------------

  /** `^\+?[0-9]{10,15}$`. */
  predicate PhonePattern(t: string) {
    var d := if |t| > 0 && t[0] == '+' then t[1..] else t;
    10 <= |d| <= 15 && Text.All(d, Text.IsDigit)
  }

  /** The phone shape stated directly: digits only, except for an optional leading
      `+`, and 10 to 15 digits. */
  predicate ValidPhone(t: string) {
    var plus := if |t| > 0 && t[0] == '+' then 1 else 0;
    10 <= |t| - plus <= 15 &&
    forall i :: 0 <= i < |t| ==> Text.IsDigit(t[i]) || (i == 0 && t[i] == '+')
  }

  lemma PhonePatternIff(t: string)
    ensures PhonePattern(t) <==> ValidPhone(t)
  {
    var d := if |t| > 0 && t[0] == '+' then t[1..] else t;
    Text.AllIff(d, Text.IsDigit);
    if |t| > 0 && t[0] == '+' {
      assert forall i :: 1 <= i < |t| ==> t[i] == d[i - 1];
    }
  }

  /** `body("phone").optional().trim().matches(/^\+?[0-9]{10,15}$/)`. */
  function PhoneErrors(v: Option<Json>): (r: seq<string>)
    ensures r == [] <==> v.None? || PhonePattern(Trimmed(v))
  {
    Optional(v, Check(PhonePattern(Trimmed(v)), "Please provide a valid phone number"))
  }

  /** A concatenation of check results is empty exactly when every part is. */
  lemma NoErrorsIff(r1: seq<string>, r2: seq<string>, r3: seq<string>, r4: seq<string>, r5: seq<string>)
    ensures r1 + r2 + r3 + r4 + r5 == [] <==> r1 == [] && r2 == [] && r3 == [] && r4 == [] && r5 == []
  {
    assert |r1 + r2 + r3 + r4 + r5| == |r1| + |r2| + |r3| + |r4| + |r5|;
  }

  // ---- validate ----------------------------------------------------------------

  /** The `validate` middleware: with no failed check the request goes on; otherwise
      the first message, in chain order, becomes a 400 `AppError`. */
  function Validate(errors: seq<string>): (r: Errors.Reply<()>)
    ensures r.Success? <==> errors == []
    ensures r.Failure? ==> r.error == Errors.NewAppError(errors[0], 400)
  {
    if errors == [] then Success(()) else Failure(Errors.NewAppError(errors[0], 400))
  }

  /** A failed validation is reported as a client failure carrying the first message. */
  lemma ValidateReportsFirst(errors: seq<string>)
    requires errors != []
    ensures Validate(errors).Failure?
    ensures Validate(errors).error.statusCode == 400 && Validate(errors).error.status == "fail"
    ensures Validate(errors).error.message == errors[0]
  {
    Errors.ClientCodesFail(errors[0], 400);
  }
}
