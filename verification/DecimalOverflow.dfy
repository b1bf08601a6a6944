/** When a decimal operation has an answer: exactly when the real result is defined and does not round
    beyond the largest number of the context. */
module DecimalOverflow {
  import opened Powers
  import opened DecimalArithmetic
  import opened DecimalExactness
  import opened DecimalRounding

  /** Half a unit above the largest number, and from there on. */
  predicate TooLarge(x: real, prec: nat) { 2.0 * AbsReal(x) >= Shift(2 * TenTo(prec) - 1, Etop(prec)) }

  /** There is an answer unless the result is too large, and it is the nearest number. */
  ghost predicate AnswersTo(o: Outcome, x: real, prec: nat)
    requires prec >= 1
  {
    (o.Ok? <==> !TooLarge(x, prec)) && RoundsTo(o, x, prec)
  }

  // ------------------------------------------------------------ below and above the largest number

  /** A number of `10^prec` units or more of the largest exponent. */
  lemma Above(x: real, prec: nat)
    requires x >= Shift(TenTo(prec), Etop(prec))
    ensures TooLarge(x, prec)
  {
    ShiftPositive(TenTo(prec), Etop(prec));
    Twice(TenTo(prec), Etop(prec));
    ShiftOrder(2 * TenTo(prec) - 1, 2 * TenTo(prec), Etop(prec));
  }

  /** A number of `n < 10^prec` units of the largest exponent. */
  lemma Below(x: real, n: nat, prec: nat)
    requires 0.0 <= x <= Shift(n, Etop(prec)) && n < TenTo(prec)
    ensures !TooLarge(x, prec)
  {
    Twice(n, Etop(prec));
    ShiftOrder(2 * n, 2 * TenTo(prec) - 1, Etop(prec));
  }

  /** At a smaller exponent `10^prec` units are not too many. */
  lemma BelowFiner(x: real, e: int, prec: nat)
    requires prec >= 1 && 0.0 <= x <= Shift(TenTo(prec), e) && e < Etop(prec)
    ensures !TooLarge(x, prec)
  {
    var k := Etop(prec) - 1 - e;
    ShiftTen(TenTo(prec - 1), Etop(prec) - 1);
    ShiftRescale(TenTo(prec), e, k);
    GrowsBy(TenTo(prec), TenTo(k));
    ShiftOrder(TenTo(prec) * TenTo(k), TenTo(prec), e);
    Below(x, TenTo(prec - 1), prec);
  }

  // ------------------------------------------------------------ rounding to the context

  /** Too many digits before the point. */
  predicate Huge(d: Dec, prec: nat) { NumDigits(d.coef) + d.exp - prec > Etop(prec) }

  lemma LeastOfLength(d: Dec, prec: nat)
    requires d.coef > 0 && Huge(d, prec)
    ensures d.coef >= TenTo(NumDigits(d.coef) - 1)
    ensures Shift(TenTo(NumDigits(d.coef) - 1), d.exp) >= Shift(TenTo(prec), Etop(prec))
  {
    var k := NumDigits(d.coef) - 1;
    DigitBounds(d.coef);
    ShiftRescale(1, d.exp, k);
    ShiftRescale(1, Etop(prec), prec);
    ShiftExponent(prec + Etop(prec), k + d.exp);
  }

  lemma ShiftExponent(e: int, f: int)
    requires e <= f
    ensures Shift(1, e) <= Shift(1, f)
  {
    ShiftRescale(1, e, f - e);
    ShiftOrder(TenTo(f - e), 1, e);
  }

  lemma HugeIsTooLarge(d: Dec, prec: nat)
    requires d.coef > 0 && Huge(d, prec)
    ensures TooLarge(Shift(d.coef, d.exp), prec)
  {
    LeastOfLength(d, prec);
    ShiftOrder(d.coef, TenTo(NumDigits(d.coef) - 1), d.exp);
    Above(Shift(d.coef, d.exp), prec);
  }

  lemma ShortIsNotTooLarge(d: Dec, prec: nat)
    requires prec >= 1 && d.coef > 0 && !Huge(d, prec) && TargetExp(d, prec) <= d.exp
    ensures !TooLarge(Shift(d.coef, d.exp), prec)
  {
    ShiftPositive(d.coef, d.exp);
    if d.exp >= Etop(prec) {
      var k := d.exp - Etop(prec);
      MulPositive(d.coef, TenTo(k));
      ShiftRescale(d.coef, Etop(prec), k);
      LeadingDigits(d.coef, k);
      TenToMonotone(NumDigits(d.coef) + k, prec);
      Below(Shift(d.coef, d.exp), d.coef * TenTo(k), prec);
    } else {
      DigitsUpTo(d.coef, prec);
      ShiftOrder(d.coef, TenTo(prec), d.exp);
      BelowFiner(Shift(d.coef, d.exp), d.exp, prec);
    }
  }

  lemma OddBelow(prec: nat)
    requires prec >= 1
    ensures (TenTo(prec) - 1) % 2 == 1
  {
    TensAreEven(TenTo(prec - 1));
  }

  lemma TensAreEven(n: nat)
    requires n >= 1
    ensures (10 * n) % 5 == 0 && (10 * n - 1) % 2 == 1
  {
    OddNumber(10 * n - 1, 5 * n - 1);
  }

  lemma OddNumber(n: nat, half: nat)
    requires n == 2 * half + 1
    ensures n % 2 == 1
  {
  }

  /** Only at the largest exponent can a rounding carry too far. */
  lemma CarryIff(c: nat, q: nat, r: nat, m: nat, k: nat, prec: nat, t: nat)
    requires prec >= 1 && c == q * m + r && r < m && q < TenTo(prec) && k == HalfEven(q, r, m)
    requires t == (2 * TenTo(prec) - 1) * m
    ensures k >= TenTo(prec) <==> 2 * c >= t
  {
    OddBelow(prec);
    var top := TenTo(prec) - 1;
    assert t == 2 * (top * m) + m;
    if q < top { MulLess(q, top, m); }
  }

  lemma KeptOkIff(d: Dec, prec: nat, drop: nat, q: nat, r: nat, k: nat, t: nat)
    requires prec >= 1 && IsKept(d, prec, drop, q, r, k) && !Huge(d, prec) && t == (2 * TenTo(prec) - 1) * TenTo(drop)
    ensures d.exp + drop <= Etop(prec)
    ensures Fix(d, prec).Ok? <==> d.exp + drop < Etop(prec) || 2 * d.coef < t
  {
    KeptBounds(d, prec, drop, q, r, k);
    CarryIff(d.coef, q, r, TenTo(drop), k, prec, t);
  }

  /** Below the largest exponent what is rounded is not too large. */
  lemma RoomAbove(d: Dec, prec: nat, drop: nat, q: nat, r: nat, k: nat, x: real)
    requires prec >= 1 && IsKept(d, prec, drop, q, r, k) && d.exp + drop < Etop(prec)
    requires 0.0 <= x <= Shift(d.coef + 1, d.exp)
    ensures !TooLarge(x, prec)
  {
    KeptBounds(d, prec, drop, q, r, k);
    NextMultiple(q, TenTo(drop));
    AtMostTimes(q + 1, TenTo(prec), TenTo(drop));
    ShiftRescale(TenTo(prec), d.exp, drop);
    ShiftOrder(TenTo(prec) * TenTo(drop), d.coef + 1, d.exp);
    BelowFiner(x, d.exp + drop, prec);
  }

  lemma AtMostTimes(a: nat, b: nat, m: nat)
    requires a <= b
    ensures a * m <= b * m
  {
    if a < b { MulLess(a, b, m); }
  }

  lemma FixAnswers(d: Dec, prec: nat)
    requires prec >= 2
    ensures AnswersTo(Fix(d, prec), Value(d), prec)
  {
    FixRounds(d, prec);
    SignedValue(d);
    if d.coef == 0 {
      ShiftPositive(0, Etop(prec));
      Below(0.0, 0, prec);
    } else if Huge(d, prec) {
      HugeIsTooLarge(d, prec);
      TooLargeSize(Value(d), prec);
    } else if TargetExp(d, prec) <= d.exp {
      ShortIsNotTooLarge(d, prec);
      TooLargeSize(Value(d), prec);
    } else {
      var drop := TargetExp(d, prec) - d.exp;
      var q, r := Quot(d.coef, TenTo(drop)), Rest(d.coef, TenTo(drop));
      KeptAnswers(d, prec, drop, q, r, HalfEven(q, r, TenTo(drop)));
      TooLargeSize(Value(d), prec);
    }
  }

  lemma TooLargeSize(x: real, prec: nat)
    ensures TooLarge(x, prec) <==> TooLarge(AbsReal(x), prec)
  {
  }

  lemma KeptAnswers(d: Dec, prec: nat, drop: nat, q: nat, r: nat, k: nat)
    requires prec >= 2 && IsKept(d, prec, drop, q, r, k) && !Huge(d, prec)
    ensures Fix(d, prec).Ok? <==> !TooLarge(Shift(d.coef, d.exp), prec)
  {
    var t := (2 * TenTo(prec) - 1) * TenTo(drop);
    KeptOkIff(d, prec, drop, q, r, k, t);
    ShiftPositive(d.coef, d.exp);
    if d.exp + drop < Etop(prec) {
      ShiftOrder(d.coef, d.coef + 1, d.exp);
      RoomAbove(d, prec, drop, q, r, k, Shift(d.coef, d.exp));
    } else {
      ShiftRescale(2 * TenTo(prec) - 1, d.exp, drop);
      Twice(d.coef, d.exp);
      ShiftOrder(2 * d.coef, t, d.exp);
    }
  }

  /** A number strictly between the neighbours of `d`, which is long and no multiple of five. */
  lemma FixStickyAnswers(d: Dec, prec: nat, x: real)
    requires prec >= 2 && d.coef >= TenTo(prec) && d.coef % 5 != 0
    requires x != 0.0 && (x < 0.0 <==> d.neg) && Shift(d.coef - 1, d.exp) < AbsReal(x) < Shift(d.coef + 1, d.exp)
    ensures AnswersTo(Fix(d, prec), x, prec)
  {
    FixStickyRounds(d, prec, x);
    TooLargeSize(x, prec);
    if Huge(d, prec) {
      HugeSticky(d, prec, AbsReal(x));
    } else {
      DropsSome(d, prec);
      var drop := TargetExp(d, prec) - d.exp;
      var q, r := Quot(d.coef, TenTo(drop)), Rest(d.coef, TenTo(drop));
      StickyAnswers(d, prec, drop, q, r, HalfEven(q, r, TenTo(drop)), AbsReal(x));
    }
  }

  lemma HugeSticky(d: Dec, prec: nat, x: real)
    requires prec >= 2 && d.coef >= TenTo(prec) && d.coef % 5 != 0 && Huge(d, prec)
    requires Shift(d.coef - 1, d.exp) < x
    ensures TooLarge(x, prec)
  {
    var k := NumDigits(d.coef) - 1;
    LeastOfLength(d, prec);
    DigitsUpTo(d.coef, prec);
    TensAreEven(TenTo(k - 1));
    ShiftOrder(d.coef - 1, TenTo(k), d.exp);
    Above(x, prec);
  }

  lemma StickyAnswers(d: Dec, prec: nat, drop: nat, q: nat, r: nat, k: nat, x: real)
    requires prec >= 2 && IsKept(d, prec, drop, q, r, k) && !Huge(d, prec) && d.coef % 5 != 0
    requires x >= 0.0 && Shift(d.coef - 1, d.exp) < x < Shift(d.coef + 1, d.exp)
    ensures Fix(d, prec).Ok? <==> !TooLarge(x, prec)
  {
    var t := (2 * TenTo(prec) - 1) * TenTo(drop);
    KeptOkIff(d, prec, drop, q, r, k, t);
    if d.exp + drop < Etop(prec) {
      RoomAbove(d, prec, drop, q, r, k, x);
    } else {
      StickyAtTop(d.coef, d.exp, drop, 2 * TenTo(prec) - 1, t, x);
    }
  }

  lemma StickyAtTop(c: nat, e: int, drop: nat, n: nat, t: nat, x: real)
    requires drop >= 1 && t == n * TenTo(drop) && c % 5 != 0 && Shift(c - 1, e) < x < Shift(c + 1, e)
    ensures 2.0 * x >= Shift(n, e + drop) <==> 2 * c >= t
  {
    var h := Tenth(n, drop, t);
    ShiftRescale(n, e, drop);
    StickyAgainst(c, e, h, x);
  }

  lemma Tenth(n: nat, drop: nat, t: nat) returns (h: nat)
    requires drop >= 1 && t == n * TenTo(drop)
    ensures t == 10 * h
  {
    MulPositive(n, TenTo(drop - 1));
    h := n * TenTo(drop - 1);
    MulLeft(n, TenTo(drop - 1));
  }

  lemma StickyAgainst(c: nat, e: int, h: nat, x: real)
    requires c % 5 != 0 && Shift(c - 1, e) < x < Shift(c + 1, e)
    ensures 2.0 * x >= Shift(10 * h, e) <==> 2 * c >= 10 * h
  {
    Twice(5 * h, e);
    if c > 5 * h { ShiftOrder(c - 1, 5 * h, e); } else { ShiftOrder(5 * h, c + 1, e); }
  }

  // ------------------------------------------------------------ the operations

  lemma AddAnswers(a: Dec, b: Dec, prec: nat)
    requires prec >= 2
    ensures AnswersTo(Add(a, b, prec), Value(a) + Value(b), prec)
    ensures AnswersTo(Subtract(a, b, prec), Value(a) - Value(b), prec)
  {
    var n := b.(neg := !b.neg);
    SumValue(a, b);
    SumValue(a, n);
    SignedValue(b);
    FixAnswers(Sum(a, b), prec);
    FixAnswers(Sum(a, n), prec);
  }

  lemma MultiplyAnswers(a: Dec, b: Dec, prec: nat, product: real)
    requires prec >= 2 && product == Value(a) * Value(b)
    ensures AnswersTo(Multiply(a, b, prec), product, prec)
  {
    ProductValue(a, b);
    FixAnswers(Product(a, b), prec);
  }

  lemma SignAnswers(d: Dec, prec: nat)
    requires prec >= 2
    ensures AnswersTo(Plus(d, prec), Value(d), prec) && AnswersTo(Minus(d, prec), -Value(d), prec)
  {
    SignedValue(d);
    SignedValue(Abs(d));
    FixAnswers(d, prec);
    FixAnswers(Abs(d), prec);
    FixAnswers(d.(neg := !d.neg), prec);
  }

  /** The integer quotient has at most `prec` digits. */
  predicate ShortQuotient(a: real, b: real, prec: nat)
    requires b != 0.0
  {
    AbsReal(Truncate(a / b)) < TenTo(prec) as real
  }

  lemma QuotientIsShort(a: Dec, b: Dec, prec: nat, x: nat, y: nat)
    requires b.coef != 0 && x == Magnitude(a, Min(a.exp, b.exp)) && y == Magnitude(b, Min(a.exp, b.exp))
    ensures Value(b) != 0.0 && (ShortQuotient(Value(a), Value(b), prec) <==> Quot(x, y) < TenTo(prec))
  {
    IntegerQuotient(a, b, x, y);
  }

  lemma FloorDivideAnswers(a: Dec, b: Dec, prec: nat)
    requires prec >= 1
    ensures var o := FloorDivide(a, b, prec);
            && (o.Ok? <==> Value(b) != 0.0 && ShortQuotient(Value(a), Value(b), prec))
            && (o.Ok? ==> !o.inexact && Held(o.value, prec) && Value(o.value) == Truncate(Value(a) / Value(b)))
  {
    SignedValue(b);
    FloorDivideExact(a, b, prec);
    if b.coef != 0 {
      var exp := Min(a.exp, b.exp);
      QuotientIsShort(a, b, prec, Magnitude(a, exp), Magnitude(b, exp));
    }
  }

  lemma RemainderAnswers(a: Dec, b: Dec, prec: nat)
    requires prec >= 2
    ensures var o := Remainder(a, b, prec);
            && (Value(b) == 0.0 || !ShortQuotient(Value(a), Value(b), prec) ==> o.Err?)
            && (Value(b) != 0.0 && ShortQuotient(Value(a), Value(b), prec) ==>
                  AnswersTo(o, IdealRest(Value(a), Value(b)), prec))
  {
    SignedValue(b);
    if b.coef != 0 {
      var exp := Min(a.exp, b.exp);
      var x, y := Magnitude(a, exp), Magnitude(b, exp);
      QuotientIsShort(a, b, prec, x, y);
      RemainderValue(a, b, x, y);
      FixAnswers(Dec(a.neg, Rest(x, y), exp), prec);
    }
  }

  lemma DivideAtAnswers(neg: bool, num: nat, den: nat, exp: int, ideal: int, prec: nat, x: real)
    requires prec >= 2 && den >= 1 && Quot(num, den) >= TenTo(prec)
    requires x != 0.0 && (x < 0.0 <==> neg)
    requires Rest(num, den) == 0 ==> x == Value(Dec(neg, Quot(num, den), exp))
    requires Rest(num, den) != 0 ==> Shift(Quot(num, den), exp) < AbsReal(x) < Shift(Quot(num, den) + 1, exp)
    ensures AnswersTo(DivideAt(neg, num, den, exp, ideal, prec), x, prec)
  {
    var q := Quot(num, den);
    if Rest(num, den) != 0 {
      StickyBetween(q, exp, AbsReal(x));
      FixStickyAnswers(Dec(neg, StickyDigit(q), exp), prec, x);
    } else {
      var (exp', q') := TowardsIdeal(q, exp, ideal);
      FixAnswers(Dec(neg, q', exp'), prec);
      IdealValue(neg, q, exp, ideal);
    }
  }

  /** A quotient has an answer unless the divisor is zero or the quotient too large. */
  lemma DivideAnswers(a: Dec, b: Dec, prec: nat)
    requires prec >= 2
    ensures Value(b) == 0.0 ==> Divide(a, b, prec).Err?
    ensures Value(b) != 0.0 ==> AnswersTo(Divide(a, b, prec), Value(a) / Value(b), prec)
  {
    SignedValue(b);
    if b.coef != 0 {
      if a.coef == 0 { ZeroQuotientAnswers(a, b, prec); } else { NonzeroAnswers(a, b, prec); }
    }
  }

  lemma ZeroQuotientAnswers(a: Dec, b: Dec, prec: nat)
    requires prec >= 2 && a.coef == 0 && b.coef != 0 && Value(b) != 0.0
    ensures AnswersTo(Divide(a, b, prec), Value(a) / Value(b), prec)
  {
    var zero := Dec(a.neg != b.neg, 0, a.exp - b.exp);
    FixAnswers(zero, prec);
    SignedValue(zero);
    SignedValue(a);
  }

  lemma NonzeroAnswers(a: Dec, b: Dec, prec: nat)
    requires prec >= 2 && a.coef > 0 && b.coef > 0 && Value(b) != 0.0
    ensures AnswersTo(Divide(a, b, prec), Value(a) / Value(b), prec)
  {
    var shift := DivShift(a.coef, b.coef, prec);
    var num, den := Numerator(a.coef, shift), Denominator(b.coef, shift);
    LongQuotient(a.coef, b.coef, num, den, shift, prec);
    QuotientSize(a, b, shift, num, den, a.exp - b.exp - shift);
    DivideAtAnswers(a.neg != b.neg, num, den, a.exp - b.exp - shift, a.exp - b.exp, prec, Value(a) / Value(b));
  }
}
