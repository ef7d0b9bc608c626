/** Decimal text of natural numbers, as `strconv.Itoa` and `%d` write it. */
module Decimal {

  predicate IsDigit(c: char)
  {
    '0' <= c <= '9'
  }

  function DigitChar(d: nat): (c: char)
    requires d < 10
    ensures IsDigit(c) && DigitValue(c) == d
  {
    ('0' as int + d) as char
  }

  function DigitValue(c: char): (d: nat)
    requires IsDigit(c)
    ensures d < 10
  {
    c as int - '0' as int
  }

  function Itoa(n: nat): (s: string)
    ensures |s| > 0 && AllDigits(s)
  {
    if n < 10 then [DigitChar(n)] else Itoa(n / 10) + [DigitChar(n % 10)]
  }

  predicate AllDigits(s: string)
  {
    forall i :: 0 <= i < |s| ==> IsDigit(s[i])
  }

  predicate Digits(s: string)
  {
    s != "" && AllDigits(s)
  }

  function Value(s: string): nat
    requires AllDigits(s)
  {
    if s == "" then 0 else Value(s[..|s| - 1]) * 10 + DigitValue(s[|s| - 1])
  }

  /** The shortest form: no leading zero unless it is the only digit. */
  predicate Shortest(s: string)
  {
    Digits(s) && (|s| > 1 ==> s[0] != '0')
  }

  lemma {:induction false} ItoaShortest(n: nat)
    ensures Shortest(Itoa(n)) && (n > 0 ==> Itoa(n)[0] != '0')
  {
    if n >= 10 {
      ItoaShortest(n / 10);
      assert Itoa(n)[0] == Itoa(n / 10)[0];
    } else {
      assert DigitValue(Itoa(n)[0]) == n;
    }
  }

  lemma {:induction false} ValueItoa(n: nat)
    ensures Value(Itoa(n)) == n
  {
    if n >= 10 {
      ValueItoa(n / 10);
      assert Itoa(n)[..|Itoa(n)| - 1] == Itoa(n / 10);
    }
  }

  lemma {:induction false} ShortestPositive(s: string)
    requires Shortest(s) && (|s| > 1 || s[0] != '0')
    ensures Value(s) > 0
  {
    if |s| > 1 {
      assert s[..|s| - 1][0] == s[0];
      ShortestPositive(s[..|s| - 1]);
    } else {
      assert s[0] != '0';
    }
  }

  /** The digits. */
  lemma DigitTexts()
    ensures Itoa(0) == "0" && Itoa(1) == "1" && Itoa(2) == "2" && Itoa(3) == "3" && Itoa(4) == "4"
    ensures Itoa(5) == "5" && Itoa(6) == "6" && Itoa(7) == "7" && Itoa(8) == "8" && Itoa(9) == "9"
  {
  }

  /** The last digit stands for the remainder by ten, those before it for the quotient. */
  lemma ItoaPositional(n: nat, d: nat)
    requires n > 0 && d < 10
    ensures Itoa(10 * n + d) == Itoa(n) + Itoa(d)
  {
    assert (10 * n + d) / 10 == n && (10 * n + d) % 10 == d;
  }

  /** A shortest form is the text of its value. */
  lemma {:induction false} ItoaValue(s: string)
    requires Shortest(s)
    ensures Itoa(Value(s)) == s
  {
    var front, d := s[..|s| - 1], DigitValue(s[|s| - 1]);
    if |s| > 1 {
      assert front[0] == s[0];
      ItoaValue(front);
      ShortestPositive(front);
      assert Value(s) / 10 == Value(front) && Value(s) % 10 == d;
      assert s == front + [s[|s| - 1]];
    } else {
      assert s == [s[0]];
    }
  }
}
