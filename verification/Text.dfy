/** Decimal numerals as the source prints and parses them. */
module Text {
  predicate IsDigit(c: char) {
    '0' <= c <= '9'
  }

  function DigitValue(c: char): nat
    requires IsDigit(c)
  {
    c as nat - '0' as nat
  }

  function DigitOf(d: nat): char
    requires d < 10
  {
    ('0' as nat + d) as char
  }

  predicate AllDigits(s: string) {
    forall i :: 0 <= i < |s| ==> IsDigit(s[i])
  }

  /** What the pattern [1-9][0-9]* matches in full. */
  predicate PositiveNumeral(s: string) {
    s != "" && AllDigits(s) && s[0] != '0'
  }

  /** The decimal numeral of `n`, without leading zeros. */
  function Decimal(n: nat): (s: string)
    ensures s != "" && AllDigits(s) && (n > 0 ==> PositiveNumeral(s))
  {
    if n < 10 then [DigitOf(n)] else Decimal(n / 10) + [DigitOf(n % 10)]
  }

  function Parse(s: string): nat
    requires AllDigits(s)
  {
    if s == "" then 0 else 10 * Parse(s[..|s| - 1]) + DigitValue(s[|s| - 1])
  }

  lemma {:induction false} ParseOfDecimal(n: nat)
    ensures Parse(Decimal(n)) == n
  {
    if n < 10 {
      assert [DigitOf(n)][..0] == "";
    } else {
      ParseOfDecimal(n / 10);
      var s := Decimal(n);
      assert s[..|s| - 1] == Decimal(n / 10);
    }
  }

  lemma {:induction false} ParsePositive(s: string)
    requires PositiveNumeral(s)
    ensures Parse(s) > 0
  {
    if |s| == 1 {
      assert s[..0] == "";
    } else {
      ParsePositive(s[..|s| - 1]);
    }
  }

  /** The pattern and the positive numbers correspond one to one. */
  lemma {:induction false} DecimalOfParse(s: string)
    requires PositiveNumeral(s)
    ensures Decimal(Parse(s)) == s
  {
    ParsePositive(s);
    if |s| == 1 {
      assert s[..0] == "" && Parse(s) == DigitValue(s[0]);
      assert Decimal(Parse(s)) == [s[0]];
    } else {
      var front := s[..|s| - 1];
      DecimalOfParse(front);
      ParsePositive(front);
      assert Parse(s) / 10 == Parse(front) && Parse(s) % 10 == DigitValue(s[|s| - 1]);
      assert s == front + [s[|s| - 1]];
    }
  }

  function Zeros(n: nat): (s: string)
    ensures |s| == n && AllDigits(s)
  {
    if n == 0 then "" else "0" + Zeros(n - 1)
  }

  /** A serial printed in at least six digits. */
  function Serial(n: nat): (s: string)
    ensures AllDigits(s) && s != ""
  {
    var d := Decimal(n);
    Zeros(if |d| < 6 then 6 - |d| else 0) + d
  }

  lemma {:induction false} ParsePadded(zeros: nat, s: string)
    requires AllDigits(s)
    ensures AllDigits(Zeros(zeros) + s) && Parse(Zeros(zeros) + s) == Parse(s)
  {
    if s == "" {
      assert Zeros(zeros) + s == Zeros(zeros);
      ParseZeros(zeros);
    } else {
      var all := Zeros(zeros) + s;
      assert all[..|all| - 1] == Zeros(zeros) + s[..|s| - 1];
      ParsePadded(zeros, s[..|s| - 1]);
    }
  }

  lemma {:induction false} ParseZeros(zeros: nat)
    ensures Parse(Zeros(zeros)) == 0
  {
    if zeros > 0 {
      ZerosSnoc(zeros);
      ParseZeros(zeros - 1);
      var all := Zeros(zeros);
      assert all[..|all| - 1] == Zeros(zeros - 1);
    }
  }

  lemma {:induction false} ZerosSnoc(zeros: nat)
    requires zeros > 0
    ensures Zeros(zeros) == Zeros(zeros - 1) + "0"
  {
    if zeros > 1 {
      ZerosSnoc(zeros - 1);
    }
  }

  /** Different serials print differently. */
  lemma SerialInjective(m: nat, n: nat)
    requires Serial(m) == Serial(n)
    ensures m == n
  {
    ParseSerial(m);
    ParseSerial(n);
  }

  lemma ParseSerial(n: nat)
    ensures Parse(Serial(n)) == n
  {
    var d := Decimal(n);
    ParsePadded(if |d| < 6 then 6 - |d| else 0, d);
    ParseOfDecimal(n);
  }
}
