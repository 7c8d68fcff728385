/** price_api/core/validator.py: reading an amount, a positive uint256 in decimal. */
module PositiveInts {
  import opened Options
  import opened VaultMath
  import TokenDecimals

  const MAX_POSITIVE_INT_DIGITS := 78

  datatype AmountError = NotAPositiveInteger | ExceedsUint256

  predicate IsDigit(c: char) {
    '0' <= c <= '9'
  }

  predicate AllDigits(s: string) {
    forall c <- s :: IsDigit(c)
  }

  /** A number written without leading zeros. */
  predicate IsNumeral(s: string) {
    s != "" && s[0] != '0' && AllDigits(s)
  }

  /** `$` also matches before a line break that ends the text. */
  function WithoutFinalNewline(s: string): string {
    if s != "" && s[|s| - 1] == '\n' then s[..|s| - 1] else s
  }

  predicate MatchesPattern(s: string) {
    IsNumeral(s) || IsNumeral(WithoutFinalNewline(s))
  }

  lemma NumeralsEndInDigits(s: string)
    requires MatchesPattern(s)
    ensures IsNumeral(WithoutFinalNewline(s))
  {
    if IsNumeral(s) {
      assert IsDigit(s[|s| - 1]);
    }
  }

  function IntOf(s: string): nat
    requires AllDigits(s)
  {
    if s == "" then 0
    else
      assert IsDigit(s[|s| - 1]);
      IntOf(s[..|s| - 1]) * 10 + DigitValue(s[|s| - 1])
  }

  function DigitValue(c: char): (r: nat)
    requires IsDigit(c)
    ensures r < 10 && Digit(r) == c
  {
    (c - '0') as int
  }

  function Digit(d: nat): (c: char)
    requires d < 10
    ensures IsDigit(c)
  {
    '0' + d as char
  }

  function ParsePositiveInt(value: string): Result<nat, AmountError> {
    if |value| > MAX_POSITIVE_INT_DIGITS || !MatchesPattern(value) then Err(NotAPositiveInteger)
    else
      NumeralsEndInDigits(value);
      var parsed := IntOf(WithoutFinalNewline(value));
      if parsed > MAX_UINT256 then Err(ExceedsUint256) else Ok(parsed)
  }

  /** Decimal printing of a positive number. */
  function Decimal(n: nat): (r: string)
    ensures AllDigits(r)
  {
    if n == 0 then "" else Decimal(n / 10) + [Digit(n % 10)]
  }

  lemma {:induction false} DecimalIsNumeral(n: nat)
    requires n > 0
    ensures IsNumeral(Decimal(n))
  {
    if n >= 10 {
      DecimalIsNumeral(n / 10);
    }
  }

  lemma {:induction false} IntOfDecimal(n: nat)
    ensures IntOf(Decimal(n)) == n
  {
    if n > 0 {
      IntOfDecimal(n / 10);
      assert Decimal(n)[..|Decimal(n)| - 1] == Decimal(n / 10);
    }
  }

  lemma {:induction false} DecimalOfInt(s: string)
    requires IsNumeral(s)
    ensures IntOf(s) > 0 && Decimal(IntOf(s)) == s
  {
    var init, digit := s[..|s| - 1], s[|s| - 1];
    assert IsDigit(digit) && IntOf(s) == IntOf(init) * 10 + DigitValue(digit);
    if init == "" {
      assert digit == s[0];
    } else {
      assert init[0] == s[0];
      DecimalOfInt(init);
    }
    assert s == init + [digit];
  }

  lemma {:induction false} DecimalLength(n: nat)
    requires n > 0
    ensures Decimal(n) != "" && Pow10(|Decimal(n)| - 1) <= n < Pow10(|Decimal(n)|)
  {
    if n >= 10 {
      DecimalLength(n / 10);
    } else {
      assert Decimal(n / 10) == "";
    }
  }

  /** Every uint256 is short enough to be read. */
  lemma UintFitsDigits(n: nat)
    requires 0 < n <= MAX_UINT256
    ensures |Decimal(n)| <= 78
  {
    DecimalLength(n);
    TokenDecimals.Pow10Of77();
    TokenDecimals.Pow10Grows(78, Max(78, |Decimal(n)| - 1));
  }

  lemma NumeralIsDecimal(s: string, n: nat)
    requires AllDigits(s)
    ensures IsNumeral(s) && IntOf(s) == n <==> n > 0 && s == Decimal(n)
  {
    if IsNumeral(s) {
      DecimalOfInt(s);
    }
    if n > 0 {
      DecimalIsNumeral(n);
      IntOfDecimal(n);
    }
  }

  /** Reading yields a number exactly for the decimal printing of a positive uint256, and for that
      printing with a line break after it when both fit 78 characters. */
  lemma ReadsExactlyPrintedUints(s: string, n: nat)
    ensures ParsePositiveInt(s) == Ok(n)
            <==> 0 < n <= MAX_UINT256 && (s == Decimal(n) || (s == Decimal(n) + "\n" && |s| <= 78))
  {
    var text := WithoutFinalNewline(s);
    if MatchesPattern(s) {
      NumeralsEndInDigits(s);
      NumeralIsDecimal(text, n);
    }
    assert s == text || s == text + "\n";
    if 0 < n <= MAX_UINT256 {
      UintFitsDigits(n);
      DecimalIsNumeral(n);
      assert WithoutFinalNewline(Decimal(n) + "\n") == Decimal(n);
    }
  }

  /** The over-limit error is given exactly to printed numbers above the maximum, up to 78 characters. */
  lemma RejectsExactlyLargeNumerals(s: string)
    ensures ParsePositiveInt(s) == Err(ExceedsUint256)
            <==> |s| <= 78
                 && exists n: nat :: n > MAX_UINT256 && (s == Decimal(n) || s == Decimal(n) + "\n")
  {
    var text := WithoutFinalNewline(s);
    assert s == text || s == text + "\n";
    if ParsePositiveInt(s) == Err(ExceedsUint256) {
      NumeralIsDecimal(text, IntOf(text));
    }
    forall n: nat | n > MAX_UINT256 && (s == Decimal(n) || s == Decimal(n) + "\n")
      ensures IsNumeral(text) && IntOf(text) > MAX_UINT256
    {
      DecimalIsNumeral(n);
      IntOfDecimal(n);
      assert WithoutFinalNewline(Decimal(n) + "\n") == Decimal(n);
    }
  }
}
