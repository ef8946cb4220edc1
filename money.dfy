/** Money as an integer number of cents, and the two-decimal text form the
    service stores and returns (`toFixed(2)`). */
module Money {
  import opened Wrappers
  import opened Text
  import opened Numbers

  function Abs(c: int): nat {
    if c < 0 then -c else c
  }

  /** `(c / 100).toFixed(2)` for a whole number of cents `c`: an optional
      '-', the whole units without leading zeros, a '.', and exactly two
      decimals. */
  function FormatCents(c: int): (s: string)
    ensures |s| >= 4 && s[|s| - 3] == '.'
    ensures IsDigit(s[|s| - 2]) && IsDigit(s[|s| - 1])
    ensures (s[0] == '-') <==> c < 0
  {
    var a := Abs(c);
    var units := NatToString(a / 100);
    (if c < 0 then "-" else "") + units + "." + [DigitChar(a % 100 / 10), DigitChar(a % 10)]
  }

  /** The cents of a fraction digit string: its first two digits, a single
      digit counting as tens of cents. */
  function FractionCents(frac: string): (r: nat)
    requires AllDigitsIn(frac, 10)
    ensures r < 100
  {
    if frac == [] then 0
    else if |frac| == 1 then DigitValue(frac[0]) * 10
    else DigitValue(frac[0]) * 10 + DigitValue(frac[1])
  }

  /** `parseFloat(v)` counted in cents: leading white space and one sign
      are skipped, then whole digits, optionally '.' and fraction digits;
      without any digit the text is NaN (`None`). */
  function ParseCents(v: string): (r: Option<int>)
  {
    var (negative, u) := SplitSign(TrimStart(v));
    WithSign(negative, UnsignedCents(u))
  }

  function WithSign(negative: bool, r: Option<nat>): Option<int> {
    match r
    case None => None
    case Some(n) => Some(Signed(negative, n))
  }

  /** The unsigned part of `ParseCents`. */
  function UnsignedCents(u: string): Option<nat> {
    var whole := LeadingDigits(u, 10);
    var rest := u[|whole|..];
    var frac := if rest != [] && rest[0] == '.' then LeadingDigits(rest[1..], 10) else [];
    if whole == [] && frac == [] then None
    else Some(ValueIn(whole, 10) * 100 + FractionCents(frac))
  }

  lemma UnsignedCentsOf(units: string, d: string)
    requires IsDigits(units) && |d| == 2 && IsDigit(d[0]) && IsDigit(d[1])
    ensures AllDigitsIn(units, 10) && AllDigitsIn(d, 10)
    ensures UnsignedCents(units + "." + d) == Some(ValueIn(units, 10) * 100 + FractionCents(d))
  {
    var tail := "." + d;
    var body := units + "." + d;
    assert body == units + tail;
    WholeBeforeDot(units, tail);
    FractionAfterDot(d);
    UnsignedCentsDotted(body, units, d);
  }

  /** The unsigned part of a number read as whole digits, a '.' and
      fraction digits. */
  lemma UnsignedCentsDotted(u: string, whole: string, frac: string)
    requires LeadingDigits(u, 10) == whole
    requires |whole| < |u| && u[|whole|] == '.'
    requires LeadingDigits(u[|whole|..][1..], 10) == frac && frac != []
    ensures AllDigitsIn(frac, 10)
    ensures UnsignedCents(u) == Some(ValueIn(whole, 10) * 100 + FractionCents(frac))
  {
  }

  /** The whole digits of a number stop at its '.'. */
  lemma WholeBeforeDot(units: string, tail: string)
    requires IsDigits(units) && tail != [] && tail[0] == '.'
    ensures AllDigitsIn(units, 10)
    ensures LeadingDigits(units + tail, 10) == units
    ensures (units + tail)[|units|..] == tail
  {
    assert AllDigitsIn(units, 10);
    LeadingDigitsStop(units, tail, 10);
  }

  /** Two fraction digits are read whole. */
  lemma FractionAfterDot(d: string)
    requires |d| == 2 && IsDigit(d[0]) && IsDigit(d[1])
    ensures AllDigitsIn(d, 10)
    ensures ("." + d)[1..] == d
    ensures LeadingDigits(d, 10) == d
  {
    assert AllDigitsIn(d, 10);
    assert d + [] == d;
    LeadingDigitsStop(d, [], 10);
  }

  /** A text that starts with a digit, possibly after a '-', is read by
      `ParseCents` as its unsigned part with that sign. */
  lemma ParseCentsSigned(negative: bool, body: string)
    requires body != [] && IsDigit(body[0])
    ensures ParseCents((if negative then "-" else "") + body)
         == WithSign(negative, UnsignedCents(body))
  {
    var s := (if negative then "-" else "") + body;
    if negative {
      assert s[0] == '-' && s[1..] == body;
    } else {
      assert s == body && !IsSpace(s[0]);
    }
    assert TrimStart(s) == s;
    assert SplitSign(s) == (negative, body);
  }

  /** A value that starts with a letter — "NaN", say — is not a number. */
  lemma ParseCentsNotNumber(v: string)
    requires v != [] && !IsSpace(v[0]) && !IsDigit(v[0])
    requires v[0] != '-' && v[0] != '+' && v[0] != '.'
    ensures ParseCents(v) == None
  {
    assert TrimStart(v) == v;
    assert SplitSign(v) == (false, v);
    assert LeadingDigits(v, 10) == [];
  }

  /** The two decimals `FormatCents` writes are read back as the cents. */
  lemma TwoDecimals(a: nat, d: string)
    requires d == [DigitChar(a % 100 / 10), DigitChar(a % 10)]
    ensures AllDigitsIn(d, 10)
    ensures (a / 100) * 100 + FractionCents(d) == a
  {
    assert FractionCents(d) == (a % 100 / 10) * 10 + a % 10;
    CentsDigits(a);
  }

  lemma CentsDigits(a: nat)
    ensures (a / 100) * 100 + (a % 100 / 10) * 10 + a % 10 == a
  {
    var q, r := a / 100, a % 100;
    var w, u := a / 10, a % 10;
    assert a == q * 100 + r && 0 <= r < 100;
    assert a == w * 10 + u && 0 <= u < 10;
    assert r == (w - q * 10) * 10 + u;
    assert r / 10 == w - q * 10 && r % 10 == u;
  }

  /** The two-decimal text of an amount reads back as the same amount:
      formatting loses nothing. */
  lemma ParseFormatCents(c: int)
    ensures ParseCents(FormatCents(c)) == Some(c)
  {
    var a := Abs(c);
    var body := UnsignedBody(a);
    assert FormatCents(c) == (if c < 0 then "-" else "") + body;
    ParseCentsSigned(c < 0, body);
    assert Signed(c < 0, a) == c;
  }

  /** The unsigned part of the text of `a` cents, and that it reads back
      as `a`. */
  lemma UnsignedBody(a: nat) returns (body: string)
    ensures body == NatToString(a / 100) + "." + [DigitChar(a % 100 / 10), DigitChar(a % 10)]
    ensures body != [] && IsDigit(body[0])
    ensures UnsignedCents(body) == Some(a)
  {
    var units := NatToString(a / 100);
    var d := [DigitChar(a % 100 / 10), DigitChar(a % 10)];
    body := units + "." + d;
    UnsignedCentsOf(units, d);
    TwoDecimals(a, d);
    var v := ValueIn(units, 10);
    assert v == a / 100;
    assert v * 100 + FractionCents(d) == a;
    assert body[0] == units[0];
  }

  /** The amount field of an upload line, `parseFloat(field)`, where the
      field holds a whole number of cents: leading white space and one
      sign are skipped and the leading decimal digits are read. */
  function FieldCents(field: string): (r: Option<int>)
  {
    var (negative, u) := SplitSign(TrimStart(field));
    match LeadingValue(u, 10)
    case None => None
    case Some(v) => Some(Signed(negative, v))
  }

  /** A zero-padded amount field reads back as its number of cents. */
  lemma FieldCentsPadded(c: nat, width: nat)
    requires 0 < width && c < Pow10(width)
    ensures FieldCents(PadZeros(c, width)) == Some(c)
  {
    var s := PadZeros(c, width);
    assert IsDigit(s[0]) && !IsSpace(s[0]);
    assert TrimStart(s) == s;
    assert SplitSign(s) == (false, s);
    assert s + [] == s;
    LeadingDigitsStop(s, [], 10);
  }
}
