/** `%d` and `%04d`: decimal numerals, which different numbers never share. */
module Decimal {

  const DIGITS := "0123456789"

  function Digit(d: nat): char
    requires d < 10
  {
    DIGITS[d]
  }

  function Dec(n: nat): (s: string)
    ensures s != "" && '-' !in s
  {
    if n < 10 then [Digit(n)] else Dec(n / 10) + [Digit(n % 10)]
  }

  function DecInt(i: int): string { if i < 0 then "-" + Dec(-i) else Dec(i) }

  /** The number a numeral stands for; leading zeros are allowed. */
  function Value(s: string): int {
    if s == "" then 0 else 10 * Value(s[..|s| - 1]) + (s[|s| - 1] as int - '0' as int)
  }

  lemma DigitValue(d: nat)
    requires d < 10
    ensures Digit(d) as int - '0' as int == d
  {
  }

  lemma {:induction false} ValueOfDec(n: nat)
    ensures Value(Dec(n)) == n
  {
    if n < 10 {
      DigitValue(n);
      assert [Digit(n)][..0] == "";
    } else {
      ValueOfDec(n / 10);
      DigitValue(n % 10);
      assert Dec(n)[..|Dec(n)| - 1] == Dec(n / 10);
    }
  }

  function Zeros(k: nat): string { if k == 0 then "" else Zeros(k - 1) + "0" }

  /** `%04d`: at least four digits, more when the number needs them. */
  function Pad4(n: nat): string {
    if |Dec(n)| < 4 then Zeros(4 - |Dec(n)|) + Dec(n) else Dec(n)
  }

  lemma {:induction false} LeadingZeros(k: nat, s: string)
    ensures Value(Zeros(k) + s) == Value(s)
    decreases |s|, k
  {
    if s == "" {
      assert Zeros(k) + s == Zeros(k);
      if k > 0 {
        assert Zeros(k)[..|Zeros(k)| - 1] == Zeros(k - 1);
        assert Zeros(k - 1) + "" == Zeros(k - 1);
        LeadingZeros(k - 1, "");
      }
    } else {
      var t := s[..|s| - 1];
      assert (Zeros(k) + s)[..|Zeros(k) + s| - 1] == Zeros(k) + t;
      LeadingZeros(k, t);
    }
  }

  lemma ValueOfPad4(n: nat)
    ensures Value(Pad4(n)) == n
  {
    ValueOfDec(n);
    if |Dec(n)| < 4 {
      LeadingZeros(4 - |Dec(n)|, Dec(n));
    }
  }

  lemma {:induction false} ZerosLength(k: nat)
    ensures |Zeros(k)| == k
  {
    if k > 0 {
      ZerosLength(k - 1);
    }
  }

  /** The padding fills up to four places and no further. */
  lemma Pad4Length(n: nat)
    ensures |Pad4(n)| == if |Dec(n)| < 4 then 4 else |Dec(n)|
  {
    if |Dec(n)| < 4 {
      ZerosLength(4 - |Dec(n)|);
    }
  }

  /** A negative number is a minus sign and the numeral of its size. */
  lemma ValueOfDecInt(n: int)
    ensures n >= 0 ==> Value(DecInt(n)) == n
    ensures n < 0 ==> DecInt(n) != "" && DecInt(n)[0] == '-' && Value(DecInt(n)[1..]) == -n
  {
    ValueOfDec(if n < 0 then -n else n);
  }
}
