/** Integers in decimal, as std::to_string() and fmt::format_int write them. */
module Decimals {
  predicate IsDigit(c: char) { '0' <= c <= '9' }

  function Digit(n: nat): char
    requires n < 10
  {
    '0' + n as char
  }

  function Decimal(n: nat): string {
    if n < 10 then [Digit(n)] else Decimal(n / 10) + [Digit(n % 10)]
  }

  function IntText(i: int): string {
    if i < 0 then "-" + Decimal(-i) else Decimal(i)
  }

  lemma {:induction false} DecimalDigits(n: nat)
    ensures Decimal(n) != "" && forall i :: 0 <= i < |Decimal(n)| ==> IsDigit(Decimal(n)[i])
  {
    if n >= 10 {
      DecimalDigits(n / 10);
    }
  }

  lemma IntTextShape(i: int)
    ensures IntText(i) != "" && forall k :: 0 <= k < |IntText(i)| ==> IsDigit(IntText(i)[k]) || IntText(i)[k] == '-'
    ensures IntText(i)[0] == '-' <==> i < 0
  {
    DecimalDigits(if i < 0 then -i else i);
  }

  // ----- what the texts denote -----

  predicate Digits(s: string) {
    s != "" && forall i :: 0 <= i < |s| ==> IsDigit(s[i])
  }

  function DigitValue(c: char): nat
    requires IsDigit(c)
  {
    c as nat - '0' as nat
  }

  /** The number that a string of digits denotes, the first one weighing most. */
  function Read(s: string): nat
    requires Digits(s)
  {
    var n := |s| - 1;
    if n == 0 then DigitValue(s[0]) else 10 * Read(s[..n]) + DigitValue(s[n])
  }

  /** No digit in front is superfluous. */
  predicate Numeral(s: string) {
    Digits(s) && (s[0] == '0' ==> s == "0")
  }

  lemma {:induction false} DecimalReads(n: nat)
    ensures Numeral(Decimal(n)) && Read(Decimal(n)) == n && (Decimal(n)[0] == '0' <==> n == 0)
  {
    DecimalDigits(n);
    if n >= 10 {
      DecimalReads(n / 10);
      var s := Decimal(n);
      assert s[..|s| - 1] == Decimal(n / 10) && s[|s| - 1] == Digit(n % 10);
      assert s[0] == Decimal(n / 10)[0];
    }
  }

  lemma {:induction false} ReadIsPositive(s: string)
    requires Numeral(s) && s[0] != '0'
    ensures Read(s) > 0
  {
    if |s| > 1 {
      ReadIsPositive(s[..|s| - 1]);
    }
  }

  /** Only one numeral denotes a number: its decimal. */
  lemma {:induction false} NumeralIsDecimal(s: string)
    requires Numeral(s)
    ensures s == Decimal(Read(s))
  {
    if |s| == 1 {
      assert s == [s[0]];
    } else {
      var n := |s| - 1;
      ReadIsPositive(s[..n]);
      NumeralIsDecimal(s[..n]);
      assert s == s[..n] + [s[n]];
    }
  }

  /** Which text an integer has: the numeral of its magnitude, after a minus sign when it is negative, and no other. */
  lemma IntTextIff(i: int, text: string)
    ensures text == IntText(i)
       <==> if i < 0 then |text| > 1 && text[0] == '-' && Numeral(text[1..]) && Read(text[1..]) == -i
            else Numeral(text) && Read(text) == i
  {
    DecimalReads(if i < 0 then -i else i);
    if i < 0 {
      assert IntText(i)[1..] == Decimal(-i);
      if |text| > 1 && text[0] == '-' && Numeral(text[1..]) && Read(text[1..]) == -i {
        NumeralIsDecimal(text[1..]);
        assert text == "-" + text[1..];
      }
    } else if Numeral(text) && Read(text) == i {
      NumeralIsDecimal(text);
    }
  }

  lemma DecimalInjective(m: nat, n: nat)
    requires Decimal(m) == Decimal(n)
    ensures m == n
  {
    DecimalReads(m);
    DecimalReads(n);
  }

  /** Distinct integers have distinct texts. */
  lemma IntTextInjective(i: int, j: int)
    ensures IntText(i) == IntText(j) <==> i == j
  {
    if IntText(i) == IntText(j) {
      IntTextShape(i);
      IntTextShape(j);
      if i < 0 && j < 0 {
        assert IntText(i)[1..] == Decimal(-i) && IntText(j)[1..] == Decimal(-j);
        DecimalInjective(-i, -j);
      } else if i >= 0 && j >= 0 {
        DecimalInjective(i, j);
      }
    }
  }
}
