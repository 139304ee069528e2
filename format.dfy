/** Go's `%d` verb for integers, as `fmt.Sprintf` renders it. */
module Format {
  predicate IsDigit(c: char) { '0' <= c <= '9' }

  function DigitChar(d: nat): (c: char)
    requires d < 10
    ensures IsDigit(c) && c as int - '0' as int == d
  {
    (('0' as int) + d) as char
  }

  /** The decimal digits of `n`, without leading zeros. */
  function Digits(n: nat): (s: string)
    ensures |s| >= 1 && forall i :: 0 <= i < |s| ==> IsDigit(s[i])
    ensures n >= 1 ==> s[0] != '0'
    ensures |s| > 1 ==> s[0] != '0'
    decreases n
  {
    if n < 10 then [DigitChar(n)] else Digits(n / 10) + [DigitChar(n % 10)]
  }

  /** The value a string of decimal digits denotes. */
  function ParseDigits(s: string): nat
    requires forall i :: 0 <= i < |s| ==> IsDigit(s[i])
  {
    if s == [] then 0 else
      assert IsDigit(s[|s| - 1]);
      ParseDigits(s[..|s| - 1]) * 10 + (s[|s| - 1] as int - '0' as int)
  }

  lemma {:induction false} ParseDigitsOfDigits(n: nat)
    ensures ParseDigits(Digits(n)) == n
    decreases n
  {
    if n >= 10 {
      var s := Digits(n);
      assert s[..|s| - 1] == Digits(n / 10);
      ParseDigitsOfDigits(n / 10);
    }
  }

  /** `%d`: a minus sign for negative values, then the digits of the magnitude. */
  function FormatInt(x: int): string {
    if x < 0 then "-" + Digits(-x) else Digits(x)
  }

  /** Distinct values render differently: the port can be read back from the rendered text. */
  lemma FormatIntInjective(x: int, y: int)
    ensures FormatInt(x) == FormatInt(y) <==> x == y
  {
    if FormatInt(x) == FormatInt(y) {
      var s := FormatInt(x);
      if x < 0 {
        assert s[0] == '-' && !IsDigit(s[0]);
        assert y < 0;
        assert Digits(-x) == s[1..] == Digits(-y);
      } else {
        assert IsDigit(s[0]);
        assert y >= 0;
      }
      ParseDigitsOfDigits(if x < 0 then -x else x);
      ParseDigitsOfDigits(if y < 0 then -y else y);
    }
  }
}
