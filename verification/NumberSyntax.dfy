/** The numbers that the partial parser takes, by their parts. */
module NumberSyntax {
  import opened Wrappers
  import opened JsonText

  /** Where the parts of a number end: its sign, its digits, its dot and fraction, the sign of its exponent. */
  datatype Cuts = Cuts(sign: nat, whole: nat, fraction: nat, exponentSign: nat)

  predicate DigitsBetween(t: string, i: nat, j: nat)
    requires j <= |t|
  {
    forall k | i <= k < j :: '0' <= t[k] <= '9'
  }

  /** A sign or none, then digits with at most one dot, one digit at least. */
  predicate IsMantissa(t: string, c: Cuts) {
    && c.sign <= c.whole <= c.fraction <= |t|
    && (c.sign == 0 || (c.sign == 1 && (t[0] == '+' || t[0] == '-')))
    && DigitsBetween(t, c.sign, c.whole)
    && (c.fraction == c.whole || (t[c.whole] == '.' && DigitsBetween(t, c.whole + 1, c.fraction)))
    && (c.whole > c.sign || c.fraction > c.whole + 1)
  }

  /** Nothing, or an e with a sign or none and one digit at least. */
  predicate IsExponent(t: string, c: Cuts) {
    c.fraction < |t| ==>
      && (t[c.fraction] == 'e' || t[c.fraction] == 'E')
      && c.exponentSign < |t|
      && (c.exponentSign == c.fraction + 1
          || (c.exponentSign == c.fraction + 2 && (t[c.fraction + 1] == '+' || t[c.fraction + 1] == '-')))
      && DigitsBetween(t, c.exponentSign, |t|)
  }

  predicate IsSpelled(t: string, c: Cuts) { IsMantissa(t, c) && IsExponent(t, c) }

  lemma {:induction false} DigitsRun(t: string, i: nat)
    requires i <= |t|
    ensures var j := DigitsEnd(t, i); DigitsBetween(t, i, j) && (j < |t| ==> !IsDigit(t[j]))
    decreases |t| - i
  {
    if i < |t| && IsDigit(t[i]) {
      DigitsRun(t, i + 1);
    }
  }

  lemma {:induction false} DigitsEndAt(t: string, i: nat, j: nat)
    requires i <= j <= |t| && DigitsBetween(t, i, j) && (j < |t| ==> !IsDigit(t[j]))
    ensures DigitsEnd(t, i) == j
    decreases j - i
  {
    if i < j {
      DigitsEndAt(t, i + 1, j);
    }
  }

  lemma SyntaxIsSpelled(t: string) returns (c: Cuts)
    requires FloatSyntax(t)
    ensures IsSpelled(t, c)
  {
    hide DigitsEnd, DigitsBetween;
    var i := SignEnd(t, 0);
    var j := DigitsEnd(t, i);
    var k := MantissaEnd(t, i);
    c := Cuts(i, j, k, if k < |t| then SignEnd(t, k + 1) else k);
    DigitsRun(t, i);
    if k > j {
      DigitsRun(t, j + 1);
    }
    if k < |t| {
      DigitsRun(t, c.exponentSign);
    }
  }

  lemma SpelledMantissa(t: string, c: Cuts)
    requires IsSpelled(t, c)
    ensures SignEnd(t, 0) == c.sign && DigitsEnd(t, c.sign) == c.whole && MantissaEnd(t, c.sign) == c.fraction
  {
    DigitsEndAt(t, c.sign, c.whole);
    if c.fraction > c.whole {
      DigitsEndAt(t, c.whole + 1, c.fraction);
    }
    hide DigitsEnd;
  }

  lemma SpelledHasSyntax(t: string, c: Cuts)
    requires IsSpelled(t, c)
    ensures FloatSyntax(t)
  {
    SpelledMantissa(t, c);
    if c.fraction < |t| {
      DigitsEndAt(t, c.exponentSign, |t|);
      hide DigitsEnd;
      assert SignEnd(t, c.fraction + 1) == c.exponentSign;
    }
  }

  /** A text is float syntax exactly if it can be cut into such parts. */
  lemma FloatSyntaxExactly(t: string)
    ensures FloatSyntax(t) <==> exists c: Cuts :: IsSpelled(t, c)
  {
    hide FloatSyntax, IsSpelled;
    if FloatSyntax(t) {
      var c := SyntaxIsSpelled(t);
    }
    if c: Cuts :| IsSpelled(t, c) {
      SpelledHasSyntax(t, c);
    }
  }

  // ----- The size of a number -------------------------------------------------------------------

  function Digit(c: char): (d: nat)
    requires '0' <= c <= '9'
  {
    c as int - '0' as int
  }

  function Ten(e: int): (r: real)
    ensures r > 0.0
    decreases if e < 0 then -e else e
  {
    if e == 0 then 1.0 else if e > 0 then 10.0 * Ten(e - 1) else Ten(e + 1) / 10.0
  }

  /** Digits as a whole number: the last one counts once, the rest ten times. */
  function Whole(t: string, i: nat, j: nat): nat
    requires i <= j <= |t| && DigitsBetween(t, i, j)
    decreases j - i
  {
    if i == j then 0 else 10 * Whole(t, i, j - 1) + Digit(t[j - 1])
  }

  /** Digits behind a dot: the first one counts a tenth. */
  function Fraction(t: string, i: nat, j: nat): real
    requires i <= j <= |t| && DigitsBetween(t, i, j)
    decreases j - i
  {
    if i == j then 0.0 else (Digit(t[i]) as real + Fraction(t, i + 1, j)) / 10.0
  }

  function Mantissa(t: string, c: Cuts): real
    requires IsSpelled(t, c)
  {
    Whole(t, c.sign, c.whole) as real + if c.fraction > c.whole then Fraction(t, c.whole + 1, c.fraction) else 0.0
  }

  function Places(c: Cuts): nat { if c.fraction > c.whole then c.fraction - c.whole - 1 else 0 }

  function Exponent(t: string, c: Cuts): int
    requires IsSpelled(t, c)
  {
    if c.fraction == |t| then 0
    else if t[c.fraction + 1] == '-' then 0 - Whole(t, c.exponentSign, |t|)
    else Whole(t, c.exponentSign, |t|)
  }

  lemma TenNext(e: int)
    ensures Ten(e + 1) == 10.0 * Ten(e)
  {
  }

  lemma TenNought()
    ensures Ten(0) == 1.0
  {
  }

  lemma TimesTen(a: real, b: real)
    ensures a * (10.0 * b) == 10.0 * (a * b)
  {
  }

  lemma {:induction false} TenSum(a: int, b: int)
    ensures Ten(a + b) == Ten(a) * Ten(b)
    decreases if b < 0 then -b else b
  {
    hide Ten;
    if b > 0 {
      TenSum(a, b - 1);
      TenNext(a + b - 1);
      TenNext(b - 1);
      TimesTen(Ten(a), Ten(b - 1));
    } else if b < 0 {
      TenSum(a, b + 1);
      TenNext(a + b);
      TenNext(b);
      TimesTen(Ten(a), Ten(b));
    } else {
      TenNought();
    }
  }

  lemma {:induction false} TenIsPower(n: nat)
    ensures Ten(n) == Pow(10, n) as real
  {
    if n > 0 {
      TenIsPower(n - 1);
    }
  }

  lemma {:induction false} DigitsSplit(t: string, i: nat, m: nat, j: nat, acc: nat)
    requires i <= m <= j <= |t|
    ensures DigitsValue(t, i, j, acc) == DigitsValue(t, m, j, DigitsValue(t, i, m, acc))
    decreases m - i
  {
    if i < m {
      DigitsSplit(t, i + 1, m, j, if IsDigit(t[i]) then acc * 10 + (t[i] as int - '0' as int) else acc);
    }
  }

  lemma {:induction false} WholeValue(t: string, i: nat, j: nat)
    requires i <= j <= |t| && DigitsBetween(t, i, j)
    ensures DigitsValue(t, i, j, 0) == Whole(t, i, j)
    decreases j - i
  {
    if i < j {
      WholeValue(t, i, j - 1);
      DigitsSplit(t, i, j - 1, j, 0);
      OneDigit(t, j - 1, Whole(t, i, j - 1));
    }
  }

  lemma OneDigit(t: string, i: nat, acc: nat)
    requires i < |t| && '0' <= t[i] <= '9'
    ensures DigitsValue(t, i, i + 1, acc) == 10 * acc + Digit(t[i])
  {
    assert DigitsValue(t, i + 1, i + 1, acc * 10 + (t[i] as int - '0' as int)) == acc * 10 + (t[i] as int - '0' as int);
  }

  lemma Shifted(acc: real, d: real, rest: real, tens: real)
    ensures (10.0 * acc + d + rest) * tens == (acc + (d + rest) / 10.0) * (10.0 * tens)
  {
  }

  lemma {:induction false} FractionValue(t: string, i: nat, j: nat, acc: nat)
    requires i <= j <= |t| && DigitsBetween(t, i, j)
    ensures DigitsValue(t, i, j, acc) as real == (acc as real + Fraction(t, i, j)) * Ten(j - i)
    decreases j - i
  {
    if i < j {
      var d := Digit(t[i]);
      FractionValue(t, i + 1, j, acc * 10 + d);
      assert Ten(j - i) == 10.0 * Ten(j - i - 1);
      hide Ten;
      Shifted(acc as real, d as real, Fraction(t, i + 1, j), Ten(j - i - 1));
    }
  }

  /** The digits, without their dot, are the mantissa moved by the places behind the dot. */
  lemma MantissaValue(t: string, c: Cuts)
    requires IsSpelled(t, c)
    ensures DigitsValue(t, c.sign, c.fraction, 0) as real == Mantissa(t, c) * Ten(Places(c))
  {
    hide Ten, DigitsValue, Whole, Fraction, DigitsBetween;
    WholeValue(t, c.sign, c.whole);
    if c.fraction > c.whole {
      DigitsSplit(t, c.sign, c.whole, c.fraction, 0);
      DotSkipped(t, c.whole, c.fraction, Whole(t, c.sign, c.whole));
      FractionValue(t, c.whole + 1, c.fraction, Whole(t, c.sign, c.whole));
    } else {
      TenNought();
    }
  }

  lemma DotSkipped(t: string, i: nat, j: nat, acc: nat)
    requires i < j <= |t| && t[i] == '.'
    ensures DigitsValue(t, i, j, acc) == DigitsValue(t, i + 1, j, acc)
  {
  }

  lemma Cast(a: nat, b: nat)
    ensures (a * b) as real == a as real * b as real
  {
  }

  lemma CompareUp(m: real, places: real, scale: real, power: nat, limit: nat, digits: nat)
    requires digits as real == m * places && power as real == scale
    ensures digits * power >= limit <==> m * (places * scale) >= limit as real
  {
    Cast(digits, power);
    Associate(m, places, scale);
    assert (digits * power) as real == m * (places * scale);
  }

  lemma CompareDown(m: real, places: real, scale: real, power: nat, limit: nat, digits: nat)
    requires digits as real == m * places && scale > 0.0 && power as real > 0.0 && scale * power as real == 1.0
    ensures digits >= limit * power <==> m * (places * scale) >= limit as real
  {
    Cast(limit, power);
    Associate(m, places, scale);
    Divide(digits as real, limit as real, power as real, scale);
    assert digits >= limit * power <==> digits as real >= (limit * power) as real;
  }

  lemma ScaleUp(m: real, places: nat, e: int, limit: nat, digits: nat)
    requires digits as real == m * Ten(places) && e >= places
    ensures digits * Pow(10, e - places) >= limit <==> m * Ten(e) >= limit as real
  {
    hide Ten, Pow;
    TenIsPower(e - places);
    CompareUp(m, Ten(places), Ten(e - places), Pow(10, e - places), limit, digits);
    TenSum(places, e - places);
  }

  lemma ScaleDown(m: real, places: nat, e: int, limit: nat, digits: nat)
    requires digits as real == m * Ten(places) && e < places
    ensures digits >= limit * Pow(10, places - e) <==> m * Ten(e) >= limit as real
  {
    hide Ten, Pow;
    TenIsPower(places - e);
    TenSum(e - places, places - e);
    TenNought();
    CompareDown(m, Ten(places), Ten(e - places), Pow(10, places - e), limit, digits);
    TenSum(places, e - places);
  }

  lemma Associate(a: real, b: real, c: real)
    ensures a * b * c == a * (b * c)
  {
  }

  lemma Divide(a: real, b: real, up: real, down: real)
    requires down > 0.0 && up > 0.0 && down * up == 1.0
    ensures a >= b * up <==> a * down >= b
  {
    assert b * up * down == b * (down * up) == b;
    assert a * down * up == a * (down * up) == a;
    if a >= b * up {
      assert a * down >= b * up * down;
    }
    if a * down >= b {
      assert a * down * up >= b * up;
    }
  }

  lemma {:induction false} PowSum(base: nat, m: nat, n: nat)
    ensures Pow(base, m + n) == Pow(base, m) * Pow(base, n)
  {
    if m > 0 {
      PowSum(base, m - 1, n);
      assert base * (Pow(base, m - 1) * Pow(base, n)) == base * Pow(base, m - 1) * Pow(base, n);
    }
  }

  lemma {:induction false} PowPositive(base: nat, n: nat)
    requires base > 0
    ensures Pow(base, n) > 0
  {
    if n > 0 {
      PowPositive(base, n - 1);
    }
  }

  lemma LessOne(a: nat, b: nat)
    requires a > 0
    ensures (a - 1) * b == a * b - b >= 0
  {
  }

  predicate Reaches(digits: nat, scale: int, limit: int) {
    if scale >= 0 then digits * Pow(10, scale) >= limit else digits >= limit * Pow(10, -scale)
  }

  lemma RangeOfParts(t: string, c: Cuts)
    requires IsSpelled(t, c)
    ensures FloatSyntax(t)
    ensures OutOfFloatRange(t) <==>
              Reaches(DigitsValue(t, c.sign, c.fraction, 0), Exponent(t, c) - Places(c), (Pow(2, 54) - 1) * Pow(2, 970))
  {
    hide Pow, DigitsValue, DigitsEnd;
    SpelledHasSyntax(t, c);
    SpelledMantissa(t, c);
    if c.fraction < |t| {
      assert SignEnd(t, c.fraction + 1) == c.exponentSign;
      WholeValue(t, c.exponentSign, |t|);
    }
  }

  lemma ReachesExactly(m: real, places: nat, e: int, limit: nat, digits: nat)
    requires digits as real == m * Ten(places)
    ensures Reaches(digits, e - places, limit) <==> m * Ten(e) >= limit as real
  {
    hide Ten, Pow;
    if e >= places {
      ScaleUp(m, places, e, limit, digits);
    } else {
      ScaleDown(m, places, e, limit, digits);
    }
  }

  lemma Limit() returns (limit: nat)
    ensures limit == (Pow(2, 54) - 1) * Pow(2, 970) == Pow(2, 1024) - Pow(2, 970)
  {
    hide Pow;
    PowSum(2, 54, 970);
    PowPositive(2, 54);
    LessOne(Pow(2, 54), Pow(2, 970));
    limit := (Pow(2, 54) - 1) * Pow(2, 970);
  }

  /**
   * A number is refused for its size exactly if its decimal value, without its
   * sign, is 2^1024 - 2^970 or more: half way from the largest float64 to 2^1024.
   */
  lemma RangeExactly(t: string, c: Cuts)
    requires IsSpelled(t, c)
    ensures FloatSyntax(t)
    ensures OutOfFloatRange(t) <==> Mantissa(t, c) * Ten(Exponent(t, c)) >= (Pow(2, 1024) - Pow(2, 970)) as real
  {
    hide Pow, Ten, DigitsValue, Mantissa, Exponent, Reaches, DigitsBetween, OutOfFloatRange;
    RangeOfParts(t, c);
    MantissaValue(t, c);
    var limit := Limit();
    ReachesExactly(Mantissa(t, c), Places(c), Exponent(t, c), limit, DigitsValue(t, c.sign, c.fraction, 0));
  }
}
