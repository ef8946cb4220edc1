/** The order total of the service's own example: 100.50 + 75.25 + 25.00
    is 200.75. */
module TotalExamples {
  import opened Numbers
  import opened Money
  import opened Orders
  import opened Wrappers
  import opened OrderAggregation

  /** A non-negative amount is its whole units, a '.' and two decimals. */
  lemma FormatNonNegative(c: nat)
    ensures FormatCents(c) == NatToString(c / 100) + "." + [DigitChar(c % 100 / 10), DigitChar(c % 10)]
  {
    var units := NatToString(c / 100);
    assert Abs(c) == c;
    assert "" + units == units;
  }

  /** Two- and three-digit numbers are written digit by digit. */
  lemma TwoDigits(n: nat)
    requires 10 <= n < 100
    ensures NatToString(n) == [DigitChar(n / 10), DigitChar(n % 10)]
  {
  }

  lemma ThreeDigits(n: nat)
    requires 100 <= n < 1000
    ensures NatToString(n) == [DigitChar(n / 100), DigitChar(n / 10 % 10), DigitChar(n % 10)]
  {
    TwoDigits(n / 10);
  }

  lemma Amount10050()
    ensures FormatCents(10050) == "100.50"
  {
    FormatNonNegative(10050);
    ThreeDigits(100);
  }

  lemma Amount7525()
    ensures FormatCents(7525) == "75.25"
  {
    FormatNonNegative(7525);
    TwoDigits(75);
  }

  lemma Amount2500()
    ensures FormatCents(2500) == "25.00"
  {
    FormatNonNegative(2500);
    TwoDigits(25);
  }

  lemma Amount20075()
    ensures FormatCents(20075) == "200.75"
  {
    FormatNonNegative(20075);
    ThreeDigits(200);
  }

  /** The products "100.50", "75.25" and "25.00" total "200.75". */
  lemma TotalExample()
    ensures FormatCents(SumCents([ProductDto(None, "100.50"), ProductDto(None, "75.25"), ProductDto(None, "25.00")]))
         == "200.75"
  {
    var ps := [ProductDto(None, "100.50"), ProductDto(None, "75.25"), ProductDto(None, "25.00")];
    Amount10050();
    Amount7525();
    Amount2500();
    assert Amounts([10050, 7525, 2500]) == ps;
    SumOfAmounts([10050, 7525, 2500]);
    SumThree(10050, 7525, 2500);
    Amount20075();
  }
}
