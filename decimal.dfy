/** Base-10 text of an int64, as Go's fmt "%d" and strconv.FormatInt(v, 10)
    (which cast.ToString uses) write it: an optional '-', then the digits,
    most significant first, with no leading zero. The functions carry no
    postconditions; what they guarantee is stated by the lemmas after them. */
module Decimal {

  predicate IsDigit(c: char) {
    '0' <= c <= '9'
  }

  predicate AllDigits(s: string) {
    forall i :: 0 <= i < |s| ==> IsDigit(s[i])
  }

  function DigitChar(d: nat): char
    requires d < 10
  {
    ('0' as int + d) as char
  }

  /** The value of a string of digits. */
  function ParseDigits(s: string): nat
    requires AllDigits(s)
  {
    if s == [] then 0
    else 10 * ParseDigits(s[..|s| - 1]) + (s[|s| - 1] as int - '0' as int)
  }

  /** The digits of n, most significant first. */
  function Digits(n: nat): string
    decreases n
  {
    if n < 10 then [DigitChar(n)] else Digits(n / 10) + [DigitChar(n % 10)]
  }

  /** Digits are non-empty decimal digits without a leading zero, and they
      read back as the number. */
  lemma {:induction false} DigitsRoundTrip(n: nat)
    ensures |Digits(n)| > 0 && AllDigits(Digits(n))
    ensures |Digits(n)| > 1 ==> Digits(n)[0] != '0'
    ensures ParseDigits(Digits(n)) == n
    decreases n
  {
    if n >= 10 {
      DigitsRoundTrip(n / 10);
      var front := Digits(n / 10);
      var s := Digits(n);
      assert s == front + [DigitChar(n % 10)];
      assert s[..|s| - 1] == front;
      assert s[0] == front[0];
    }
  }

  /** Strings of the shape FormatInt writes: digits with an optional minus sign. */
  predicate IsSignedDecimal(s: string) {
    if |s| > 0 && s[0] == '-' then |s| > 1 && AllDigits(s[1..]) else |s| > 0 && AllDigits(s)
  }

  function ParseInt(s: string): int
    requires IsSignedDecimal(s)
  {
    if s[0] == '-' then -(ParseDigits(s[1..]) as int) else ParseDigits(s)
  }

  /** strconv.FormatInt(v, 10): a minus sign for a negative value, then the
      digits of its magnitude. */
  function FormatInt(v: int): string {
    if v < 0 then "-" + Digits(-v) else Digits(v)
  }

  /** The text starts with '-' exactly for a negative value, and with a digit otherwise. */
  lemma FormatIntShape(v: int)
    ensures IsSignedDecimal(FormatInt(v))
    ensures FormatInt(v)[0] == '-' <==> v < 0
    ensures FormatInt(v)[0] == '-' || IsDigit(FormatInt(v)[0])
  {
    if v < 0 {
      DigitsRoundTrip(-v);
      assert FormatInt(v)[1..] == Digits(-v);
    } else {
      DigitsRoundTrip(v);
    }
  }

  /** The text FormatInt writes reads back as the value. */
  lemma FormatIntRoundTrip(v: int)
    ensures IsSignedDecimal(FormatInt(v)) && ParseInt(FormatInt(v)) == v
  {
    FormatIntShape(v);
    if v < 0 {
      DigitsRoundTrip(-v);
      assert FormatInt(v)[1..] == Digits(-v);
    } else {
      DigitsRoundTrip(v);
    }
  }

  /** Distinct integers have distinct decimal texts. */
  lemma FormatIntInjective(a: int, b: int)
    ensures FormatInt(a) == FormatInt(b) <==> a == b
  {
    FormatIntRoundTrip(a);
    FormatIntRoundTrip(b);
  }
}
