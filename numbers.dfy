/** Number parsing and printing as the JavaScript runtime does it:
    `parseInt`, `Number(...)`, and the decimal rendering of integers. */
module Numbers {
  import opened Wrappers
  import opened Text

  /** The value of a character read as a digit by `parseInt`: '0'-'9',
      then 'a'-'z' (either case) from 10 up; 36 for anything else. */
  function DigitValue(c: char): nat {
    if '0' <= c <= '9' then c as int - '0' as int
    else if 'a' <= c <= 'z' then c as int - 'a' as int + 10
    else if 'A' <= c <= 'Z' then c as int - 'A' as int + 10
    else 36
  }

  predicate IsDigitIn(c: char, radix: nat) {
    DigitValue(c) < radix
  }

  /** A decimal digit, `\d` in a regular expression without the u flag. */
  predicate IsDigit(c: char) {
    '0' <= c <= '9'
  }

  predicate AllDigitsIn(s: string, radix: nat) {
    forall i :: 0 <= i < |s| ==> IsDigitIn(s[i], radix)
  }

  /** The regular expression `^[0-9]+$`: one or more decimal digits. */
  predicate IsDigits(s: string) {
    s != [] && forall i :: 0 <= i < |s| ==> IsDigit(s[i])
  }

  /** The value of a string of digits in the given radix, most significant
      digit first. */
  function ValueIn(s: string, radix: nat): nat
    requires AllDigitsIn(s, radix)
  {
    if s == [] then 0
    else ValueIn(s[..|s| - 1], radix) * radix + DigitValue(s[|s| - 1])
  }

  function DigitChar(d: nat): (c: char)
    requires d < 10
    ensures IsDigit(c) && DigitValue(c) == d
  {
    ('0' as int + d) as char
  }

  lemma ValueInSnoc(s: string, c: char, radix: nat)
    requires AllDigitsIn(s, radix) && IsDigitIn(c, radix)
    ensures AllDigitsIn(s + [c], radix)
    ensures ValueIn(s + [c], radix) == ValueIn(s, radix) * radix + DigitValue(c)
  {
    assert (s + [c])[..|s|] == s;
  }

  /** The decimal rendering of a natural number, as `String(n)` gives it:
      digits only, no leading zero, and it reads back as `n`. */
  function NatToString(n: nat): (s: string)
    ensures IsDigits(s) && AllDigitsIn(s, 10) && ValueIn(s, 10) == n
    ensures s[0] == '0' ==> s == "0"
  {
    if n < 10 then [DigitChar(n)]
    else
      var p := NatToString(n / 10);
      ValueInSnoc(p, DigitChar(n % 10), 10);
      p + [DigitChar(n % 10)]
  }

  function Pow10(k: nat): (p: nat)
    ensures p >= 1
  {
    if k == 0 then 1 else 10 * Pow10(k - 1)
  }

  /** `n` written with exactly `width` decimal digits, padded on the left
      with zeros: the way a fixed-width file stores a number. */
  function PadZeros(n: nat, width: nat): (s: string)
    requires n < Pow10(width)
    ensures width > 0 ==> IsDigits(s)
    ensures |s| == width && AllDigitsIn(s, 10) && ValueIn(s, 10) == n
  {
    if width == 0 then []
    else
      var p := PadZeros(n / 10, width - 1);
      ValueInSnoc(p, DigitChar(n % 10), 10);
      p + [DigitChar(n % 10)]
  }

  /** The longest prefix of `s` made of digits of the radix. */
  function LeadingDigits(s: string, radix: nat): (d: string)
    ensures |d| <= |s| && d == s[..|d|] && AllDigitsIn(d, radix)
    ensures |d| < |s| ==> !IsDigitIn(s[|d|], radix)
  {
    if s != [] && IsDigitIn(s[0], radix) then [s[0]] + LeadingDigits(s[1..], radix) else []
  }

  lemma {:induction false} LeadingDigitsStop(d: string, rest: string, radix: nat)
    requires AllDigitsIn(d, radix)
    requires rest == [] || !IsDigitIn(rest[0], radix)
    ensures LeadingDigits(d + rest, radix) == d
  {
    if d != [] {
      assert (d + rest)[1..] == d[1..] + rest;
      LeadingDigitsStop(d[1..], rest, radix);
    } else {
      assert d + rest == rest;
    }
  }

  /** An optional leading '+' or '-': whether it was '-', and what follows. */
  function SplitSign(t: string): (r: (bool, string))
    ensures r.1 == if t != [] && (t[0] == '-' || t[0] == '+') then t[1..] else t
  {
    if t != [] && t[0] == '-' then (true, t[1..])
    else if t != [] && t[0] == '+' then (false, t[1..])
    else (false, t)
  }

  function Signed(negative: bool, v: nat): int {
    if negative then -(v as int) else v
  }

  /** `parseInt(s)` with no radix: leading white space and one sign are
      skipped, a "0x"/"0X" prefix selects base 16, then the longest run of
      digits is read and the rest ignored; no digit at all gives NaN
      (`None`). */
  function ParseInt(s: string): (r: Option<int>)
  {
    var (negative, u) := SplitSign(TrimStart(s));
    match ParseMagnitude(u)
    case None => None
    case Some(v) => Some(Signed(negative, v))
  }

  predicate HasHexPrefix(u: string) {
    |u| >= 2 && u[0] == '0' && (u[1] == 'x' || u[1] == 'X')
  }

  /** The unsigned part of `parseInt`: the radix prefix and the digit run. */
  function ParseMagnitude(u: string): Option<nat> {
    if HasHexPrefix(u) then LeadingValue(u[2..], 16) else LeadingValue(u, 10)
  }

  /** The value of the longest digit run at the front, if there is one. */
  function LeadingValue(u: string, radix: nat): Option<nat> {
    var d := LeadingDigits(u, radix);
    if d == [] then None else Some(ValueIn(d, radix))
  }

  /** A string that starts with a decimal digit and is not hex-prefixed is
      read by `parseInt` as its leading decimal digit run. */
  lemma ParseIntDecimal(d: string, rest: string)
    requires IsDigits(d) && (rest == [] || !IsDigit(rest[0]))
    requires !HasHexPrefix(d + rest)
    ensures AllDigitsIn(d, 10)
    ensures ParseInt(d + rest) == Some(ValueIn(d, 10))
  {
    var t := d + rest;
    assert t[0] == d[0] && IsDigit(t[0]) && !IsSpace(t[0]);
    assert TrimStart(t) == t;
    assert SplitSign(t) == (false, t);
    assert AllDigitsIn(d, 10);
    assert rest == [] || !IsDigitIn(rest[0], 10);
    LeadingDigitsStop(d, rest, 10);
  }

  /** A zero-padded field, as the fixed-width file carries ids, reads back
      as its number. */
  lemma ParseIntPadded(n: nat, width: nat)
    requires 0 < width && n < Pow10(width)
    ensures ParseInt(PadZeros(n, width)) == Some(n)
  {
    var s := PadZeros(n, width);
    assert s + [] == s;
    assert width > 1 ==> IsDigit(s[1]);
    ParseIntDecimal(s, []);
  }

  /** `Number(s)` for a string, restricted to decimal integers: surrounding
      white space is ignored, the empty string is 0, one optional sign and
      then digits only; anything else is NaN (`None`). */
  function NumberValue(s: string): (r: Option<int>)
  {
    var t := Trim(s);
    if t == [] then Some(0)
    else
      var (negative, u) := SplitSign(t);
      if IsDigits(u) then
        assert AllDigitsIn(u, 10);
        Some(Signed(negative, ValueIn(u, 10)))
      else None
  }

  /** `Number` of a string of decimal digits is its decimal value. */
  lemma NumberOfDigits(d: string)
    requires IsDigits(d)
    ensures AllDigitsIn(d, 10)
    ensures NumberValue(d) == Some(ValueIn(d, 10))
  {
    assert IsDigit(d[0]) && IsDigit(d[|d| - 1]);
    assert TrimStart(d) == d;
    assert TrimEnd(d) == d;
    assert SplitSign(d) == (false, d);
  }
}
