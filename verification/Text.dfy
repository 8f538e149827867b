/** Decimal numerals, as Python's `str` and f-strings print them. */
module Text {

  function Digit(d: nat): (c: char)
    requires d < 10
    ensures '0' <= c <= '9' && c as int - '0' as int == d
  {
    '0' + d as char
  }

  /** `str(n)` of a natural number. */
  function Decimal(n: nat): (s: string)
    ensures |s| >= 1
    ensures forall i :: 0 <= i < |s| ==> '0' <= s[i] <= '9'
    ensures s[0] == '0' ==> s == "0"
  {
    if n < 10 then [Digit(n)] else Decimal(n / 10) + [Digit(n % 10)]
  }

  /** The number a string of digits stands for. */
  function Number(s: string): nat
    requires forall i :: 0 <= i < |s| ==> '0' <= s[i] <= '9'
  {
    if s == [] then 0 else 10 * Number(s[..|s| - 1]) + (s[|s| - 1] as int - '0' as int)
  }

  lemma {:induction false} NumberDecimal(n: nat)
    ensures Number(Decimal(n)) == n
  {
    var s := Decimal(n);
    if n < 10 {
      assert s[..|s| - 1] == [];
    } else {
      assert s[..|s| - 1] == Decimal(n / 10);
      NumberDecimal(n / 10);
    }
  }

  /** A numeral without a leading zero is the one that is printed. */
  lemma {:induction false} DecimalNumber(s: string)
    requires |s| >= 1 && (forall i :: 0 <= i < |s| ==> '0' <= s[i] <= '9') && (s[0] == '0' ==> |s| == 1)
    ensures Decimal(Number(s)) == s
    decreases |s|
  {
    var front := s[..|s| - 1];
    if |s| == 1 {
      assert front == [];
      assert Number(front) == 0;
      assert Decimal(Number(s)) == [Digit(Number(s))];
    } else {
      DecimalNumber(front);
      PositiveNumber(front);
      var d := s[|s| - 1] as int - '0' as int;
      assert Number(s) / 10 == Number(front) && Number(s) % 10 == d;
      assert s == front + [Digit(d)];
    }
  }

  lemma {:induction false} PositiveNumber(s: string)
    requires |s| >= 1 && (forall i :: 0 <= i < |s| ==> '0' <= s[i] <= '9') && s[0] != '0'
    ensures Number(s) > 0
    decreases |s|
  {
    if |s| > 1 { PositiveNumber(s[..|s| - 1]); } else { assert Number(s[..0]) == 0; }
  }

  lemma DecimalInjective(m: nat, n: nat)
    requires Decimal(m) == Decimal(n)
    ensures m == n
  {
    NumberDecimal(m);
    NumberDecimal(n);
  }

  function Pow10(n: nat): (p: nat)
    ensures p >= 1
  {
    if n == 0 then 1 else 10 * Pow10(n - 1)
  }

  lemma {:induction false} Pow10Sum(a: nat, b: nat)
    ensures Pow10(a + b) == Pow10(a) * Pow10(b)
    decreases a
  {
    if a > 0 {
      Pow10Sum(a - 1, b);
      assert 10 * (Pow10(a - 1) * Pow10(b)) == (10 * Pow10(a - 1)) * Pow10(b);
    }
  }

  lemma {:induction false} Pow10Grows(a: nat, b: nat)
    requires a <= b
    ensures Pow10(a) <= Pow10(b)
    decreases b
  {
    if a < b { Pow10Grows(a, b - 1); }
  }

  /** A numeral has at most `digits` digits exactly when the number is below that power of ten. */
  lemma {:induction false} DigitsBelow(n: nat, digits: nat)
    requires digits > 0
    ensures |Decimal(n)| <= digits <==> n < Pow10(digits)
    decreases digits
  {
    if n < 10 {
      Pow10Grows(1, digits);
      assert Pow10(1) == 10;
    } else if digits == 1 {
      assert Pow10(1) == 10;
    } else {
      DigitsBelow(n / 10, digits - 1);
      assert n / 10 < Pow10(digits - 1) <==> n < 10 * Pow10(digits - 1);
    }
  }

  lemma {:induction false} NumberBelow(s: string)
    requires forall i :: 0 <= i < |s| ==> '0' <= s[i] <= '9'
    ensures Number(s) < Pow10(|s|)
    decreases |s|
  {
    if s != "" { NumberBelow(s[..|s| - 1]); }
  }
}
