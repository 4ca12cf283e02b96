/** Numbers as texts: what parseInt makes of digits. */
module Numbers {
  import opened Wrappers
  import opened Text

  predicate AllDigits(s: string) { forall c :: c in s ==> IsDigit(c) }

  function DigitValue(c: char): nat
    requires IsDigit(c)
  {
    c as int - '0' as int
  }

  function Power10(n: nat): nat { if n == 0 then 1 else 10 * Power10(n - 1) }

  /** What digits are worth by their places. */
  function Worth(s: string): nat
    requires AllDigits(s)
  {
    if s == "" then 0 else DigitValue(s[0]) * Power10(|s| - 1) + Worth(s[1..])
  }

  lemma {:induction false} WorthOfOneMore(s: string, c: char)
    requires AllDigits(s) && IsDigit(c)
    ensures AllDigits(s + [c]) && Worth(s + [c]) == 10 * Worth(s) + DigitValue(c)
  {
    if s == "" {
      assert s + [c] == [c] && [c][1..] == "";
      assert Power10(0) == 1;
    } else {
      assert (s + [c])[1..] == s[1..] + [c] && (s + [c])[0] == s[0];
      WorthOfOneMore(s[1..], c);
      assert Power10(|s|) == 10 * Power10(|s| - 1);
      TenTimes(DigitValue(s[0]), Power10(|s| - 1));
    }
  }

  lemma TenTimes(d: nat, p: nat)
    ensures d * (10 * p) == 10 * (d * p)
  {
  }

  lemma {:induction false} DigitsAreWorth(s: string)
    requires AllDigits(s)
    ensures Digits(s) == Some(Worth(s))
  {
    if s != "" {
      var n := |s| - 1;
      assert s == s[..n] + [s[n]];
      DigitsAreWorth(s[..n]);
      WorthOfOneMore(s[..n], s[n]);
    }
  }

  /** A numeral: digits, at least one, after a sign or none, for a number of 32 bits. */
  ghost predicate IsNumeral(s: string, n: int)
  {
    var signed := s != "" && (s[0] == '-' || s[0] == '+');
    var digits := if signed then s[1..] else s;
    && digits != "" && AllDigits(digits)
    && -0x8000_0000 <= n < 0x8000_0000
    && var worth: int := Worth(digits);
       n == if s[0] == '-' then -worth else worth
  }

  /** parseInt accepts exactly the numerals, and gives what their digits are worth by their places. */
  lemma ParseIntExactly(s: string, n: int)
    ensures ParseInt(s) == Some(n) <==> IsNumeral(s, n)
  {
    var digits := if s != "" && (s[0] == '-' || s[0] == '+') then s[1..] else s;
    if AllDigits(digits) {
      DigitsAreWorth(digits);
    }
  }

  function DigitChar(d: nat): char
    requires d < 10
  {
    (d + '0' as int) as char
  }

  /** A number written in decimal. */
  function Decimal(n: nat): (s: string)
    ensures s != "" && AllDigits(s)
  {
    if n < 10 then [DigitChar(n)] else Decimal(n / 10) + [DigitChar(n % 10)]
  }

  function Written(n: int): string { if n < 0 then "-" + Decimal(-n) else Decimal(n) }

  lemma {:induction false} DigitsOfDecimal(n: nat)
    ensures Digits(Decimal(n)) == Some(n)
  {
    var s := Decimal(n);
    if n < 10 {
      assert s[..0] == "" && Digits("") == Some(0);
    } else {
      DigitsOfDecimal(n / 10);
      assert s[..|s| - 1] == Decimal(n / 10);
    }
  }

  /** parseInt reads every number of 32 bits back. */
  lemma ParseIntReadsWritten(n: int)
    requires -0x8000_0000 <= n < 0x8000_0000
    ensures ParseInt(Written(n)) == Some(n)
  {
    var digits := Decimal(if n < 0 then -n else n);
    DigitsOfDecimal(if n < 0 then -n else n);
    assert IsDigit(digits[0]);
    if n < 0 {
      assert ("-" + digits)[1..] == digits;
    }
  }
}
