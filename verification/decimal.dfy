/** Decimal strings of integers, as strconv.Itoa writes them. */
module Decimal {
  function DigitChar(d: nat): char
    requires d < 10
  {
    '0' + d as char
  }

  function DigitValue(c: char): nat {
    if '0' <= c <= '9' then (c - '0') as nat else 0
  }

  function Digits(n: nat): string {
    if n < 10 then [DigitChar(n)] else Digits(n / 10) + [DigitChar(n % 10)]
  }

  function Itoa(n: int): string {
    if n < 0 then "-" + Digits(-n) else Digits(n)
  }

  function ValueOf(s: string): nat {
    if s == "" then 0 else 10 * ValueOf(s[..|s| - 1]) + DigitValue(s[|s| - 1])
  }

  function Atoi(s: string): int {
    if s != "" && s[0] == '-' then -(ValueOf(s[1..]) as int) else ValueOf(s)
  }

  predicate IsDigit(c: char) {
    '0' <= c <= '9'
  }

  lemma {:induction false} DigitsReadBack(n: nat)
    ensures ValueOf(Digits(n)) == n
    ensures Digits(n) != "" && forall i :: 0 <= i < |Digits(n)| ==> IsDigit(Digits(n)[i])
  {
    if n < 10 {
      assert [DigitChar(n)][..0] == "";
    } else {
      DigitsReadBack(n / 10);
      var front := Digits(n / 10);
      assert (front + [DigitChar(n % 10)])[..|front|] == front;
    }
  }

  /** The integer can be read back from its decimal string. */
  lemma ItoaReadBack(n: int)
    ensures Atoi(Itoa(n)) == n
  {
    DigitsReadBack(if n < 0 then -n else n);
    if n < 0 {
      assert Itoa(n)[1..] == Digits(-n);
    }
  }

  /** A decimal string is a non-empty string of digits, after at most one minus sign. */
  lemma ItoaChars(n: int)
    ensures Itoa(n) != ""
    ensures forall i :: 0 <= i < |Itoa(n)| ==> IsDigit(Itoa(n)[i]) || Itoa(n)[i] == '-'
  {
    DigitsReadBack(if n < 0 then -n else n);
  }

  lemma ItoaInjective(m: int, n: int)
    requires Itoa(m) == Itoa(n)
    ensures m == n
  {
    ItoaReadBack(m);
    ItoaReadBack(n);
  }

  /** A numeral without superfluous zeros: all digits, the first of several not a zero. */
  predicate CanonicalDigits(s: string) {
    && s != "" && (forall i :: 0 <= i < |s| ==> '0' <= s[i] <= '9')
    && (s[0] == '0' ==> |s| == 1)
  }

  /** A canonical numeral, or a minus sign before one other than "0". */
  predicate Numeral(s: string) {
    CanonicalDigits(s) || (|s| > 1 && s[0] == '-' && CanonicalDigits(s[1..]) && s[1] != '0')
  }

  lemma {:induction false} DigitsCanonical(n: nat)
    ensures CanonicalDigits(Digits(n)) && (Digits(n)[0] == '0' <==> n == 0)
  {
    if n >= 10 {
      DigitsCanonical(n / 10);
    }
  }

  /** The decimal string of an integer has no superfluous zeros, and no sign but that of a negative one. */
  lemma ItoaIsNumeral(n: int)
    ensures Numeral(Itoa(n)) && (Itoa(n)[0] == '-' <==> n < 0)
  {
    DigitsCanonical(if n < 0 then -n else n);
    if n < 0 {
      assert Itoa(n)[1..] == Digits(-n);
    }
  }

  lemma {:induction false} ValuePositive(s: string)
    requires CanonicalDigits(s) && s[0] != '0'
    ensures ValueOf(s) > 0
  {
    if |s| > 1 {
      ValuePositive(s[..|s| - 1]);
    } else {
      assert s[..0] == "";
    }
  }

  lemma {:induction false} DigitsOfValue(s: string)
    requires CanonicalDigits(s)
    ensures Digits(ValueOf(s)) == s
  {
    var n := |s| - 1;
    if n == 0 {
      assert s[..0] == "";
    } else {
      DigitsOfValue(s[..n]);
      ValuePositive(s[..n]);
      assert ValueOf(s) / 10 == ValueOf(s[..n]) && ValueOf(s) % 10 == DigitValue(s[n]);
      assert s == s[..n] + [s[n]];
    }
  }

  /** Every numeral is the decimal string of the integer it denotes. */
  lemma ItoaOfAtoi(s: string)
    requires Numeral(s)
    ensures Itoa(Atoi(s)) == s
  {
    if s[0] == '-' {
      DigitsOfValue(s[1..]);
      ValuePositive(s[1..]);
    } else {
      DigitsOfValue(s);
    }
  }

  /** The last digit stands for the remainder by ten, the others for the quotient. */
  lemma {:induction false} ItoaDigits(n: nat)
    ensures n < 10 ==> Itoa(n) == ["0123456789"[n]]
    ensures n >= 10 ==> Itoa(n) == Itoa(n / 10) + Itoa(n % 10)
  {
    if n < 10 {
      var d := "0123456789";
      assert d[0] == '0' && d[1] == '1' && d[2] == '2' && d[3] == '3' && d[4] == '4';
      assert d[5] == '5' && d[6] == '6' && d[7] == '7' && d[8] == '8' && d[9] == '9';
    }
  }
}
