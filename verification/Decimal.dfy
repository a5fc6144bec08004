// Decimal numerals, printed and read as JavaScript does for safe integers.
module Decimal {
  predicate IsDigit(c: char) { '0' <= c <= '9' }

  predicate AllDigits(s: string) {
    forall i :: 0 <= i < |s| ==> IsDigit(s[i])
  }

  function DigitChar(d: nat): (c: char)
    requires d < 10
    ensures IsDigit(c) && DigitValue(c) == d
  {
    '0' + d as char
  }

  function DigitValue(c: char): (d: nat)
    requires IsDigit(c)
    ensures d < 10
  {
    c as int - '0' as int
  }

  function Print(n: nat): (s: string)
    ensures |s| > 0 && AllDigits(s)
  {
    if n < 10 then [DigitChar(n)] else Print(n / 10) + [DigitChar(n % 10)]
  }

  function Value(s: string): nat
    requires AllDigits(s)
  {
    if s == [] then 0 else 10 * Value(s[..|s| - 1]) + DigitValue(s[|s| - 1])
  }

  lemma {:induction false} ValueOfPrint(n: nat)
    ensures Value(Print(n)) == n
  {
    if n < 10 {
      assert Print(n)[..0] == [];
    } else {
      ValueOfPrint(n / 10);
      assert Print(n)[..|Print(n)| - 1] == Print(n / 10);
    }
  }

  /** A numeral with no leading zero is what its value prints as. */
  lemma {:induction false} PrintOfValue(s: string)
    requires AllDigits(s) && |s| > 0 && (s[0] != '0' || |s| == 1)
    ensures Print(Value(s)) == s
    ensures |s| > 1 ==> Value(s) >= 10
  {
    var front := s[..|s| - 1];
    if |s| == 1 {
      assert front == [];
    } else {
      PrintOfValue(front);
      if |front| == 1 {
        assert front[..0] == [];
        assert Value(front) == DigitValue(s[0]);
      }
      assert s == front + [s[|s| - 1]];
    }
  }

  /** Leading zeros do not count. */
  lemma {:induction false} ValueOfZeros(s: string)
    requires AllDigits(s)
    ensures AllDigits("0" + s) && Value("0" + s) == Value(s)
  {
    var t := "0" + s;
    if s == [] {
      assert t[..0] == [];
    } else {
      var front := s[..|s| - 1];
      ValueOfZeros(front);
      assert t[..|t| - 1] == "0" + front;
    }
  }

  function PrintInt(n: int): (s: string)
    ensures |s| > 0
  {
    if n < 0 then "-" + Print(-n) else Print(n)
  }

  /** String(n).padStart(2, '0') */
  function Pad2(n: int): (s: string)
    ensures 0 <= n ==> AllDigits(s) && |s| >= 2
  {
    var s := PrintInt(n);
    if |s| < 2 then "0" + s else s
  }

  lemma Pad2Value(n: nat)
    ensures Value(Pad2(n)) == n
    ensures n < 100 <==> |Pad2(n)| == 2
  {
    ValueOfPrint(n);
    ValueOfZeros(Print(n));
    if n >= 100 {
      assert |Print(n / 10)| >= 2;
    }
  }

  lemma Pad2OfValue(s: string)
    requires AllDigits(s) && |s| == 2
    ensures Value(s) < 100 && Pad2(Value(s)) == s
  {
    var front := s[..1];
    assert front[..0] == [] && Value(front) == DigitValue(s[0]);
    assert s[..|s| - 1] == front;
    assert Value(s) == 10 * DigitValue(s[0]) + DigitValue(s[1]);
    if s[0] == '0' {
      assert s == "0" + [s[1]];
      assert Print(Value(s)) == [s[1]];
    } else {
      PrintOfValue(s);
    }
  }
}
