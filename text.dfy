/** Character classes, trimming, decimal text and substring search: the string
    primitives the validators, the error classifier and the catalog filter share. */
module Text {

  predicate IsDigit(c: char) { '0' <= c <= '9' }
  predicate IsLower(c: char) { 'a' <= c <= 'z' }
  predicate IsUpper(c: char) { 'A' <= c <= 'Z' }
  predicate IsHex(c: char) { IsDigit(c) || 'a' <= c <= 'f' || 'A' <= c <= 'F' }

  /** The special characters a password must draw on: `[!@#$%^&*]`. */
  predicate IsSpecial(c: char) {
    c == '!' || c == '@' || c == '#' || c == '$' || c == '%' || c == '^' || c == '&' || c == '*'
  }

  /** ASCII whitespace, the characters `trim()` strips in this model. */
  predicate IsSpace(c: char) {
    c == ' ' || c == '\t' || c == '\n' || c == '\r' || c == '\U{000B}' || c == '\U{000C}'
  }

  /** The characters a regular expression's `.` does not match. */
  predicate IsLineTerminator(c: char) {
    c == '\n' || c == '\r' || c == '\U{2028}' || c == '\U{2029}'
  }

  /** Some character of `s` satisfies `p`, decided left to right. */
  function Any(s: string, p: char -> bool): bool {
    if s == [] then false else p(s[0]) || Any(s[1..], p)
  }

  /** Every character of `s` satisfies `p`, decided left to right. */
  function All(s: string, p: char -> bool): bool {
    if s == [] then true else p(s[0]) && All(s[1..], p)
  }

  lemma {:induction false} AnyIff(s: string, p: char -> bool)
    ensures Any(s, p) <==> exists i :: 0 <= i < |s| && p(s[i])
  {
    if s != [] {
      AnyIff(s[1..], p);
      if Any(s[1..], p) {
        var i :| 0 <= i < |s[1..]| && p(s[1..][i]);
        assert p(s[i + 1]);
      }
      if exists i :: 0 <= i < |s| && p(s[i]) {
        var i :| 0 <= i < |s| && p(s[i]);
        if i > 0 { assert p(s[1..][i - 1]); }
      }
    }
  }

  lemma {:induction false} AllIff(s: string, p: char -> bool)
    ensures All(s, p) <==> forall i :: 0 <= i < |s| ==> p(s[i])
  {
    if s != [] {
      AllIff(s[1..], p);
      if !All(s, p) && p(s[0]) {
        var i :| 0 <= i < |s[1..]| && !p(s[1..][i]);
        assert !p(s[i + 1]);
      }
      if All(s, p) {
        forall i | 0 <= i < |s| ensures p(s[i]) {
          if i > 0 { assert s[i] == s[1..][i - 1]; }
        }
      }
    }
  }

  /** `s` without its leading whitespace. */
  function TrimStart(s: string): (r: string)
    ensures |r| <= |s|
  {
    if s != [] && IsSpace(s[0]) then TrimStart(s[1..]) else s
  }

  /** `s` without its trailing whitespace. */
  function TrimEnd(s: string): (r: string)
    ensures |r| <= |s|
  {
    if s != [] && IsSpace(s[|s| - 1]) then TrimEnd(s[..|s| - 1]) else s
  }

  /** `TrimStart` cuts away exactly the leading whitespace. */
  lemma {:induction false} TrimStartSpec(s: string)
    ensures TrimStart(s) == s[|s| - |TrimStart(s)|..]
    ensures TrimStart(s) == [] || !IsSpace(TrimStart(s)[0])
    ensures forall i :: 0 <= i < |s| - |TrimStart(s)| ==> IsSpace(s[i])
  {
    if s != [] && IsSpace(s[0]) {
      TrimStartSpec(s[1..]);
      forall i | 0 <= i < |s| - |TrimStart(s)| ensures IsSpace(s[i]) {
        if i > 0 { assert s[i] == s[1..][i - 1]; }
      }
    }
  }

  /** `TrimEnd` cuts away exactly the trailing whitespace. */
  lemma {:induction false} TrimEndSpec(s: string)
    ensures TrimEnd(s) == s[..|TrimEnd(s)|]
    ensures TrimEnd(s) == [] || !IsSpace(TrimEnd(s)[|TrimEnd(s)| - 1])
    ensures forall i :: |TrimEnd(s)| <= i < |s| ==> IsSpace(s[i])
  {
    if s != [] && IsSpace(s[|s| - 1]) {
      TrimEndSpec(s[..|s| - 1]);
      forall i | |TrimEnd(s)| <= i < |s| ensures IsSpace(s[i]) {
        if i < |s| - 1 { assert s[i] == s[..|s| - 1][i]; }
      }
    }
  }

  /** The `trim()` sanitizer: `s` without leading and trailing whitespace. */
  function Trim(s: string): string {
    TrimEnd(TrimStart(s))
  }

  /** The trimmed text starts and ends with a non-space character. */
  lemma TrimEnds(s: string)
    ensures Trim(s) == [] || (!IsSpace(Trim(s)[0]) && !IsSpace(Trim(s)[|Trim(s)| - 1]))
  {
    var a := TrimStart(s);
    TrimStartSpec(s);
    TrimEndSpec(a);
    var b := TrimEnd(a);
    if b != [] {
      assert b[0] == a[0];
    }
  }

  /** Where the trimmed text lies in the input: `s[i..j]`, with only whitespace
      before `i` and from `j` on. */
  lemma TrimBounds(s: string) returns (i: nat, j: nat)
    ensures i <= j <= |s| && Trim(s) == s[i..j]
    ensures forall k :: 0 <= k < i ==> IsSpace(s[k])
    ensures forall k :: j <= k < |s| ==> IsSpace(s[k])
  {
    var a := TrimStart(s);
    TrimStartSpec(s);
    i := |s| - |a|;
    var b := TrimEnd(a);
    TrimEndSpec(a);
    j := i + |b|;
    assert b == s[i..j];
    forall k | j <= k < |s| ensures IsSpace(s[k]) {
      assert s[k] == a[k - i];
    }
  }

  /** The trimmed text is a contiguous part of the input, starts and ends with a
      non-space character, and everything cut away was whitespace. */
  lemma TrimSpec(s: string)
    ensures exists i, j :: 0 <= i <= j <= |s| && Trim(s) == s[i..j]
              && (forall k :: 0 <= k < i ==> IsSpace(s[k]))
              && (forall k :: j <= k < |s| ==> IsSpace(s[k]))
    ensures Trim(s) == [] || (!IsSpace(Trim(s)[0]) && !IsSpace(Trim(s)[|Trim(s)| - 1]))
  {
    var i, j := TrimBounds(s);
    TrimEnds(s);
  }

  /** A text that starts and ends with a non-space character is its own trim. */
  lemma TrimFixed(t: string)
    requires t == [] || (!IsSpace(t[0]) && !IsSpace(t[|t| - 1]))
    ensures Trim(t) == t
  {
    assert TrimStart(t) == t;
    assert TrimEnd(t) == t;
  }

  lemma TrimIdempotent(s: string)
    ensures Trim(Trim(s)) == Trim(s)
  {
    TrimEnds(s);
    TrimFixed(Trim(s));
  }

  /** Prefix of `s` before its first line terminator; a lookahead `(?=.*x)` only sees
      this part. */
  function FirstLine(s: string): (r: string)
    ensures |r| <= |s| && r == s[..|r|]
    ensures forall i :: 0 <= i < |r| ==> !IsLineTerminator(r[i])
    ensures |r| < |s| ==> IsLineTerminator(s[|r|])
  {
    if s == [] || IsLineTerminator(s[0]) then [] else [s[0]] + FirstLine(s[1..])
  }

  function Pow10(k: nat): (r: nat)
    ensures r >= 1
  {
    if k == 0 then 1 else 10 * Pow10(k - 1)
  }

  function DigitChar(d: int): (c: char)
    requires 0 <= d < 10
    ensures IsDigit(c)
  {
    (48 + d) as char
  }

  function DigitValue(c: char): (d: int)
    requires IsDigit(c)
    ensures 0 <= d < 10
  {
    c as int - 48
  }

  /** Decimal text of an integer, as `${n}` or `n.toString()` renders it. */
  function DecimalText(n: int): (s: string)
    ensures |s| > 0
    ensures n >= 0 <==> IsDigit(s[0])
    ensures n < 0 <==> s[0] == '-'
    ensures n >= 0 ==> forall i :: 0 <= i < |s| ==> IsDigit(s[i])
    decreases if n < 0 then 1 - n else n
  {
    if n < 0 then "-" + DecimalText(-n)
    else if n < 10 then [DigitChar(n)]
    else DecimalText(n / 10) + [DigitChar(n % 10)]
  }

  /** Value of a run of decimal digits. */
  function DigitsValue(s: string): (v: nat)
    requires forall i :: 0 <= i < |s| ==> IsDigit(s[i])
  {
    if s == [] then 0 else 10 * DigitsValue(s[..|s| - 1]) + DigitValue(s[|s| - 1])
  }

  /** Reading the decimal text of a non-negative number back gives the number. */
  lemma {:induction false} DecimalRoundTrip(n: nat)
    ensures DigitsValue(DecimalText(n)) == n
  {
    if n >= 10 {
      var s := DecimalText(n);
      DecimalRoundTrip(n / 10);
      assert s[..|s| - 1] == DecimalText(n / 10);
    }
  }

  lemma Pow10Step(k: nat)
    ensures Pow10(k + 1) == 10 * Pow10(k)
  {
  }

  lemma {:induction false} Pow10AtLeastTen(k: nat)
    requires k >= 1
    ensures Pow10(k) >= 10
  {
    Pow10Step(k - 1);
  }

  /** `n` lies in [40·p, 50·p) exactly when `n / 10` lies in [4·p, 5·p). */
  lemma BandShift(n: nat, p: nat)
    ensures (40 * p <= n < 50 * p) <==> (4 * p <= n / 10 < 5 * p)
  {
    assert n == 10 * (n / 10) + n % 10 && 0 <= n % 10 < 10;
  }

  /** The decimal text of a number starts with `4` exactly when the number lies in
      [4·10^k, 5·10^k) for some k: 4, 40–49, 400–499, … */
  lemma {:induction false} LeadingFour(n: int)
    ensures DecimalText(n)[0] == '4' <==> n >= 0 && exists k: nat :: 4 * Pow10(k) <= n < 5 * Pow10(k)
    decreases if n < 0 then 0 else n
  {
    if n < 0 {
    } else if n < 10 {
      assert DecimalText(n) == [DigitChar(n)];
      DigitFour(n);
      if n == 4 {
        assert Pow10(0) == 1;
        assert 4 * Pow10(0) <= n < 5 * Pow10(0);
      } else {
        forall k: nat ensures !(4 * Pow10(k) <= n < 5 * Pow10(k)) {
          if k >= 1 {
            Pow10AtLeastTen(k);
          } else {
            assert Pow10(k) == 1;
          }
        }
        assert DecimalText(n)[0] != '4';
      }
    } else {
      LeadingFour(n / 10);
      assert DecimalText(n)[0] == DecimalText(n / 10)[0];
      if exists k: nat :: 4 * Pow10(k) <= n / 10 < 5 * Pow10(k) {
        var k: nat :| 4 * Pow10(k) <= n / 10 < 5 * Pow10(k);
        BandUp(n, k);
      }
      if exists k: nat :: 4 * Pow10(k) <= n < 5 * Pow10(k) {
        var k: nat :| 4 * Pow10(k) <= n < 5 * Pow10(k);
        BandDown(n, k);
      }
    }
  }

  lemma DigitFour(d: int)
    requires 0 <= d < 10
    ensures DigitChar(d) == '4' <==> d == 4
  {
  }

  /** Appending a digit moves a number from band `k` to band `k + 1`. */
  lemma BandUp(n: nat, k: nat)
    requires 4 * Pow10(k) <= n / 10 < 5 * Pow10(k)
    ensures 4 * Pow10(k + 1) <= n < 5 * Pow10(k + 1)
  {
    Pow10Step(k);
    BandShift(n, Pow10(k));
  }

  /** Dropping the last digit of a number of two digits or more moves it from band
      `k` to band `k - 1`. */
  lemma BandDown(n: nat, k: nat)
    requires n >= 10 && 4 * Pow10(k) <= n < 5 * Pow10(k)
    ensures k >= 1 && 4 * Pow10(k - 1) <= n / 10 < 5 * Pow10(k - 1)
  {
    assert k != 0;
    Pow10Step(k - 1);
    BandShift(n, Pow10(k - 1));
  }

  /** ASCII lower-casing of one character. */
  function LowerChar(c: char): char {
    if IsUpper(c) then (c as int + 32) as char else c
  }

  /** ASCII lower-casing, the model of a case-insensitive comparison. */
  function Lower(s: string): (r: string)
    ensures |r| == |s| && forall i :: 0 <= i < |s| ==> r[i] == LowerChar(s[i])
  {
    seq(|s|, i requires 0 <= i < |s| => LowerChar(s[i]))
  }

  /** `needle` occurs in `hay` as a contiguous part. */
  predicate Contains(hay: string, needle: string) {
    exists i :: 0 <= i <= |hay| - |needle| && OccursAt(hay, needle, i)
  }

  /** `needle` occurs in `hay` starting at index `i`. */
  predicate OccursAt(hay: string, needle: string, i: int) {
    0 <= i <= |hay| - |needle| && hay[i..i + |needle|] == needle
  }

  /** `contains` with `mode: "insensitive"`. */
  predicate ContainsInsensitive(hay: string, needle: string) {
    Contains(Lower(hay), Lower(needle))
  }
}
