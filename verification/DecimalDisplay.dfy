/**
  The exact decimal display of `_display` in src/app/composite_reporting/eligibility_tables.py,
  on Python's decimal arithmetic: a sign, a coefficient and an exponent under a context that
  bounds the number of digits and the adjusted exponent.
*/
module DecimalDisplay {
  import opened Wrappers
  import opened Text

  datatype Dec = Dec(negative: bool, coefficient: nat, exponent: int)

  datatype Context = Context(prec: nat, emax: nat)

  function Digits(n: nat): (d: nat)
    ensures d >= 1
  {
    |Decimal(n)|
  }

  function Adjusted(d: Dec): int { d.exponent + Digits(d.coefficient) - 1 }

  /** `n / d`, to the nearest, ties up. */
  function HalfUp(n: nat, d: nat): nat
    requires d >= 1
  {
    (2 * n + d) / (2 * d)
  }

  /** `n / d`, to the nearest, ties to even: the context's own rounding. */
  function HalfEven(n: nat, d: nat): nat
    requires d >= 1
  {
    if 2 * (n % d) == d && n / d % 2 == 0 then n / d else HalfUp(n, d)
  }

  /** What an operation delivers: rounded to the precision, and trapped above the largest exponent. */
  function Fix(d: Dec, c: Context): Result<Dec> {
    if d.coefficient == 0 then Ok(d)
    else
      var drop: int := Digits(d.coefficient) - c.prec;
      var r := if drop <= 0 then d
               else d.(coefficient := HalfEven(d.coefficient, Pow10(drop)), exponent := d.exponent + drop);
      if Adjusted(r) > c.emax then Refused("Overflow") else Ok(r)
  }

  /** `number *= 100`. */
  function TimesHundred(d: Dec, c: Context): Result<Dec> {
    Fix(d.(coefficient := d.coefficient * 100), c)
  }

  /** `number.quantize(Decimal(1).scaleb(-(places as int)), rounding=ROUND_HALF_UP)`. */
  function Quantize(d: Dec, places: nat, c: Context): Result<Dec> {
    if d.coefficient == 0 then Ok(Dec(d.negative, 0, -(places as int)))
    else if Adjusted(d) > c.emax || Adjusted(d) + places + 1 > c.prec then Refused("InvalidOperation")
    else
      var r := Rescale(d, places);
      if Adjusted(r) > c.emax || Digits(r.coefficient) > c.prec then Refused("InvalidOperation") else Ok(r)
  }

  /** The decimal with `places` places nearest to `d`, ties away from zero. */
  function Rescale(d: Dec, places: nat): Dec {
    var shift := d.exponent + places;
    Dec(d.negative, if shift >= 0 then d.coefficient * Pow10(shift) else HalfUp(d.coefficient, Pow10(-shift)),
      -(places as int))
  }

  /** A plain decimal: an optional sign, digits, and perhaps a point and more digits. */
  datatype Plain = Plain(sign: Option<char>, whole: string, fraction: Option<string>)

  predicate AllDigits(s: string) { forall i :: 0 <= i < |s| ==> '0' <= s[i] <= '9' }

  predicate PlainOk(p: Plain) {
    && (p.sign.Some? ==> p.sign.value == '-' || p.sign.value == '+')
    && AllDigits(p.whole) && (p.fraction.Some? ==> AllDigits(p.fraction.value))
    && p.whole + Fraction(p) != ""
  }

  function Fraction(p: Plain): string { if p.fraction.Some? then p.fraction.value else "" }

  function PlainText(p: Plain): string {
    (if p.sign.Some? then [p.sign.value] else "") + p.whole + (if p.fraction.Some? then "." + p.fraction.value else "")
  }

  /** `Decimal(value)`: exact, whatever the context. */
  function Read(p: Plain): Dec
    requires PlainOk(p)
  {
    Dec(p.sign == Some('-'), Number(p.whole + Fraction(p)), -|Fraction(p)|)
  }

  /** The arithmetic of `_display`; `emax` is 999999 in Python's default context. */
  function DisplayNumber(p: Plain, percent: bool, places: nat, emax: nat): Result<Dec>
    requires PlainOk(p)
  {
    var c := Context(if |PlainText(p)| + 20 > 80 then |PlainText(p)| + 20 else 80, emax);
    var number := if percent then TimesHundred(Read(p), c) else Ok(Read(p));
    if number.Refused? then number else Quantize(number.value, places, c)
  }

  /** The value to be shown, without any rounding. */
  function Scaled(p: Plain, percent: bool): Dec
    requires PlainOk(p)
  {
    if percent then Read(p).(coefficient := Read(p).coefficient * 100) else Read(p)
  }

  /** The number that is read: negative when the text starts with a minus sign, and the digits before
      the point and after it at their places. */
  lemma ReadsPlain(p: Plain)
    requires PlainOk(p)
    ensures Read(p).negative <==> PlainText(p)[0] == '-'
    ensures p.fraction.Some? ==>
      && Read(p).exponent == -|p.fraction.value|
      && Read(p).coefficient == Number(p.whole) * Pow10(|p.fraction.value|) + Number(p.fraction.value)
    ensures p.fraction.None? ==> Read(p).exponent == 0 && Read(p).coefficient == Number(p.whole)
  {
    NumberJoined(p.whole, Fraction(p));
    assert p.whole + "" == p.whole;
  }

  /** The length of the digits a text starts with. */
  function Leading(text: string): (n: nat)
    ensures n <= |text|
  {
    if text != "" && '0' <= text[0] <= '9' then 1 + Leading(text[1..]) else 0
  }

  /** A reader of decimal text: a sign if there is one, the digits up to a point, and what follows it. */
  function Scan(text: string): Plain {
    var signed := text != "" && (text[0] == '-' || text[0] == '+');
    var rest := if signed then text[1..] else text;
    var n := Leading(rest);
    Plain(if signed then Some(text[0]) else None, rest[..n], if n < |rest| then Some(rest[n + 1..]) else None)
  }

  lemma {:induction false} LeadingDigits(digits: string, after: string)
    requires AllDigits(digits) && (after == "" || after[0] == '.')
    ensures Leading(digits + after) == |digits|
    decreases |digits|
  {
    if digits == "" {
      assert digits + after == after;
    } else {
      assert (digits + after)[1..] == digits[1..] + after;
      LeadingDigits(digits[1..], after);
    }
  }

  function Unsigned(p: Plain): string {
    p.whole + if p.fraction.Some? then "." + p.fraction.value else ""
  }

  lemma UnsignedRead(p: Plain)
    requires PlainOk(p)
    ensures Leading(Unsigned(p)) == |p.whole| && Unsigned(p)[..|p.whole|] == p.whole
    ensures p.fraction.None? ==> |Unsigned(p)| == |p.whole|
    ensures p.fraction.Some? ==>
      |p.whole| < |Unsigned(p)| && Unsigned(p)[|p.whole| + 1..] == p.fraction.value
    ensures Unsigned(p) != "" && Unsigned(p)[0] != '-' && Unsigned(p)[0] != '+'
  {
    LeadingDigits(p.whole, if p.fraction.Some? then "." + p.fraction.value else "");
  }

  /** The text is read back as its sign, its whole digits and its fraction. */
  lemma TextScanned(p: Plain)
    requires PlainOk(p)
    ensures Scan(PlainText(p)) == p
  {
    hide Leading;
    UnsignedRead(p);
    if p.sign.Some? {
      assert PlainText(p) == [p.sign.value] + Unsigned(p);
      assert PlainText(p)[1..] == Unsigned(p);
    } else {
      assert PlainText(p) == Unsigned(p);
    }
  }

  lemma Tenfold(m: nat, q: nat)
    ensures m * (10 * q) == 10 * (m * q)
  {
  }

  lemma OneMoreDigit(s: string, d: char)
    requires AllDigits(s) && '0' <= d <= '9'
    ensures AllDigits(s + [d]) && Number(s + [d]) == 10 * Number(s) + (d as int - '0' as int)
  {
    assert (s + [d])[..|s|] == s;
  }

  lemma {:induction false} NumberJoined(a: string, b: string)
    requires AllDigits(a) && AllDigits(b)
    ensures AllDigits(a + b) && Number(a + b) == Number(a) * Pow10(|b|) + Number(b)
    decreases |b|
  {
    hide Number;
    if b == "" {
      assert a + b == a;
      NumberOfNone();
    } else {
      var front, d := b[..|b| - 1], b[|b| - 1];
      NumberJoined(a, front);
      OneMoreDigit(a + front, d);
      OneMoreDigit(front, d);
      assert a + b == a + front + [d] && b == front + [d];
      Tenfold(Number(a), Pow10(|front|));
    }
  }

  lemma NumberOfNone()
    ensures Number("") == 0
  {
  }

  // ------------------------------------------------------------------------- magnitude

  lemma DigitsOf(n: nat)
    ensures n < Pow10(Digits(n)) && (n > 0 ==> Pow10(Digits(n) - 1) <= n)
  {
    DigitsBelow(n, Digits(n));
    if Digits(n) > 1 { DigitsBelow(n, Digits(n) - 1); }
  }

  lemma DigitsAtMost(n: nat, k: nat)
    requires n < Pow10(k) && k > 0
    ensures Digits(n) <= k
  {
    DigitsBelow(n, k);
  }

  lemma ScaledDigits(p: Plain, percent: bool)
    requires PlainOk(p)
    ensures Digits(Scaled(p, percent).coefficient) <= |PlainText(p)| + 2
    ensures 0 <= -Scaled(p, percent).exponent <= |PlainText(p)|
  {
    var digits := p.whole + Fraction(p);
    NumberBelow(digits);
    Pow10Sum(2, |digits|);
    assert Pow10(2) == 100 by { assert Pow10(1) == 10; }
    DigitsAtMost(Scaled(p, percent).coefficient, |digits| + 2);
  }

  /** `d` is below ten to the `m` exactly when its coefficient is below that many digits more. */
  lemma AdjustedBelow(d: Dec, m: int)
    requires d.exponent <= 0 && m - d.exponent > 0
    ensures Adjusted(d) < m <==> d.coefficient < Pow10(m - d.exponent)
  {
    DigitsBelow(d.coefficient, m - d.exponent);
  }

  lemma MulAtMost(a: int, b: int, m: nat)
    requires a <= b
    ensures a * m <= b * m
  {
  }

  lemma MulLess(a: nat, b: nat, m: nat)
    requires a < b && m >= 1
    ensures a * m < b * m
  {
  }

  /** Half up is the nearest, the larger of the two when there is a tie, and next to the quotient. */
  lemma HalfUpBounds(n: nat, d: nat)
    requires d >= 1
    ensures -(d as int) < 2 * (HalfUp(n, d) * d - n) <= d
    ensures n / d <= HalfUp(n, d) <= n / d + 1
  {
    var q, f := HalfUp(n, d), n / d;
    assert 2 * n + d == q * (2 * d) + (2 * n + d) % (2 * d);
    assert q * (2 * d) == 2 * (q * d);
    assert n == f * d + n % d;
    if q <= f - 1 { MulAtMost(q, f - 1, d); }
    if q >= f + 2 { MulAtMost(f + 2, q, d); }
    assert (f - 1) * d == f * d - d && (f + 2) * d == f * d + 2 * d;
  }

  /** Rescaling needs few digits: at most the places more than there are, or one for a carry. */
  lemma RescaleDigits(d: Dec, places: nat)
    requires d.exponent <= 0
    ensures Digits(Rescale(d, places).coefficient) <= Digits(d.coefficient) + places + 1
  {
    DigitsOf(d.coefficient);
    if d.exponent + places >= 0 {
      ShiftUp(d.coefficient, Digits(d.coefficient), d.exponent + places);
    } else {
      ShiftDown(d.coefficient, Digits(d.coefficient), -(d.exponent + places));
    }
  }

  lemma ShiftUp(n: nat, k: nat, shift: nat)
    requires n < Pow10(k) && k > 0
    ensures Digits(n * Pow10(shift)) <= k + shift
  {
    hide Pow10, Digits;
    Pow10Sum(k, shift);
    MulLess(n, Pow10(k), Pow10(shift));
    DigitsAtMost(n * Pow10(shift), k + shift);
  }

  lemma ShiftDown(n: nat, k: nat, shift: nat)
    requires n < Pow10(k) && k > 0
    ensures Digits(HalfUp(n, Pow10(shift))) <= k + 1
  {
    HalfUpBounds(n, Pow10(shift));
    DivideAtMost(n, Pow10(shift));
    assert Pow10(k + 1) == 10 * Pow10(k);
    DigitsAtMost(HalfUp(n, Pow10(shift)), k + 1);
  }

  lemma DivideAtMost(n: nat, d: nat)
    requires d >= 1
    ensures n / d <= n
  {
    assert n == n / d * d + n % d;
    MulAtMost(1, d, n / d);
  }

  /** A number that is too large before rounding is too large after. */
  lemma RescaleLarge(d: Dec, places: nat, m: nat)
    requires d.exponent <= 0 && d.coefficient >= Pow10(m - d.exponent)
    ensures Rescale(d, places).coefficient >= Pow10(m + places)
  {
    var shift := d.exponent + places;
    if shift >= 0 {
      Pow10Sum(m - d.exponent, shift);
      MulAtMost(Pow10(m - d.exponent), d.coefficient, Pow10(shift));
    } else {
      Pow10Sum(m + places, -shift);
      HalfUpBounds(d.coefficient, Pow10(-shift));
      DivideBelow(Pow10(m + places), d.coefficient, Pow10(-shift));
    }
  }

  lemma DivideBelow(a: nat, n: nat, d: nat)
    requires d >= 1
    ensures a * d <= n <==> a <= n / d
  {
    assert n == n / d * d + n % d;
    if n / d + 1 <= a { MulAtMost(n / d + 1, a, d); } else { MulAtMost(a, n / d, d); }
    assert (n / d + 1) * d == n / d * d + d;
  }

  // ------------------------------------------------------------------------ the results

  /** The chosen precision never rounds and never overflows by itself: the multiplication by 100 is
      exact, and a number is shown, as the value rounded half up to its places, exactly when the
      rounded value is below ten to the largest exponent plus one. */
  lemma DisplayExactly(p: Plain, percent: bool, places: nat, emax: nat)
    requires PlainOk(p) && places <= 12
    ensures var x := Scaled(p, percent);
            var shown := Rescale(x, places);
            && (DisplayNumber(p, percent, places, emax).Ok? <==> shown.coefficient < Pow10(emax + 1 + places))
            && (DisplayNumber(p, percent, places, emax).Ok? ==> DisplayNumber(p, percent, places, emax) == Ok(shown))
            && (DisplayNumber(p, percent, places, emax).Refused? ==>
                  DisplayNumber(p, percent, places, emax)
                  == Refused(if percent && x.coefficient >= Pow10(emax + 1 - x.exponent)
                             then "Overflow" else "InvalidOperation"))
  {
    var c := Context(if |PlainText(p)| + 20 > 80 then |PlainText(p)| + 20 else 80, emax);
    var x := Scaled(p, percent);
    ScaledDigits(p, percent);
    RescaleDigits(x, places);
    AdjustedBelow(x, emax + 1);
    var shown := Rescale(x, places);
    AdjustedBelow(shown, emax + 1);
    if x.coefficient == 0 {
      assert shown.coefficient == 0 by { ZeroRescales(x, places); }
    } else if x.coefficient >= Pow10(emax + 1 - x.exponent) {
      RescaleLarge(x, places, emax + 1);
    }
  }

  /** A number is shown with its sign and its places. */
  lemma SignShown(p: Plain, percent: bool, places: nat, emax: nat)
    requires PlainOk(p) && places <= 12 && DisplayNumber(p, percent, places, emax).Ok?
    ensures var shown := DisplayNumber(p, percent, places, emax).value;
            (shown.negative <==> PlainText(p)[0] == '-') && shown.exponent == -(places as int)
  {
    DisplayExactly(p, percent, places, emax);
    ReadsPlain(p);
  }

  lemma ZeroRescales(d: Dec, places: nat)
    requires d.coefficient == 0
    ensures Rescale(d, places) == Dec(d.negative, 0, -(places as int))
  {
    var shift := d.exponent + places;
    if shift < 0 { HalfUpBounds(0, Pow10(-shift)); }
  }

  /** What is shown is within half a unit of its last place, and a tie goes away from zero. With at
      least as many places as the value has, it is the value. */
  lemma ShownIsNearest(d: Dec, places: nat)
    ensures var shift := d.exponent + places;
            var shown := Rescale(d, places);
            && shown.negative == d.negative && shown.exponent == -(places as int)
            && (shift >= 0 ==> shown.coefficient == d.coefficient * Pow10(shift))
            && (shift < 0 ==>
                  && -(Pow10(-shift) as int) < 2 * (shown.coefficient * Pow10(-shift) - d.coefficient) <= Pow10(-shift))
  {
    var shift := d.exponent + places;
    if shift < 0 { HalfUpBounds(d.coefficient, Pow10(-shift)); }
  }

  /** Every plain decimal with fewer whole digits than the largest exponent allows is shown. */
  lemma ShortNumbersShown(p: Plain, percent: bool, places: nat, emax: nat)
    requires PlainOk(p) && places <= 12 && |p.whole| + 2 <= emax
    ensures DisplayNumber(p, percent, places, emax) == Ok(Rescale(Scaled(p, percent), places))
  {
    var x := Scaled(p, percent);
    var f := |Fraction(p)|;
    NumberBelow(p.whole + Fraction(p));
    Pow10Sum(2, |p.whole| + f);
    assert Pow10(2) == 100 by { assert Pow10(1) == 10; }
    assert x.coefficient < Pow10(|p.whole| + 2 + f);
    Pow10Grows(|p.whole| + 2 + f, emax + f);
    RescaleSmall(x, places, emax);
    DisplayExactly(p, percent, places, emax);
  }

  lemma RescaleSmall(d: Dec, places: nat, m: nat)
    requires d.exponent <= 0 && d.coefficient < Pow10(m - d.exponent)
    ensures Rescale(d, places).coefficient < Pow10(m + 1 + places)
  {
    var shift := d.exponent + places;
    assert Pow10(m + 1 + places) == 10 * Pow10(m + places);
    if shift >= 0 {
      Pow10Sum(m - d.exponent, shift);
      MulLess(d.coefficient, Pow10(m - d.exponent), Pow10(shift));
    } else {
      Pow10Sum(m + places, -shift);
      HalfUpBounds(d.coefficient, Pow10(-shift));
      DivideBelow(Pow10(m + places), d.coefficient, Pow10(-shift));
    }
  }

  function Ones(n: nat): (s: string)
    ensures |s| == n && forall i :: 0 <= i < n ==> s[i] == '1'
  {
    seq(n, _ => '1')
  }

  /** The limit is met: two whole digits more than the largest exponent are refused, which
      Python's default context does to a plain decimal of 1,000,001 digits. */
  lemma LongNumberRefused(emax: nat)
    ensures exists p :: PlainOk(p) && DisplayNumber(p, false, 2, emax).Refused?
  {
    hide Pow10;
    var p := Plain(None, Ones(emax + 2), None);
    var n := Read(p).coefficient;
    assert p.whole + Fraction(p) == p.whole;
    DecimalNumber(p.whole);
    DigitsOf(n);
    RescaleLarge(Scaled(p, false), 2, emax + 1);
    DisplayExactly(p, false, 2, emax);
  }
}
