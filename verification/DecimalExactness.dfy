/** A decimal operation that does not signal inexact returns exactly the real result. */
module DecimalExactness {
  import opened Powers
  import opened DecimalArithmetic

  // ------------------------------------------------------------ the ideal operations

  function AbsReal(x: real): real { if x < 0.0 then -x else x }

  /** Truncation towards zero. */
  function Truncate(x: real): real {
    if x >= 0.0 then x.Floor as real else -((-x).Floor as real)
  }

  function RealPow(x: real, n: nat): real {
    if n == 0 then 1.0 else x * RealPow(x, n - 1)
  }

  /** An outcome is `exact` for the real `x`: whatever is returned without the signal is `x`. */
  predicate ExactFor(o: Outcome, x: real) {
    o.Ok? && !o.inexact ==> Value(o.value) == x
  }

  // ------------------------------------------------------------ sums and products

  lemma SignedValue(d: Dec)
    ensures Value(d.(neg := !d.neg)) == -Value(d)
    ensures Value(Abs(d)) == AbsReal(Value(d)) == Shift(d.coef, d.exp)
    ensures Value(d) == 0.0 <==> d.coef == 0
    ensures Value(d) < 0.0 <==> d.neg && d.coef > 0
  {
    ShiftNegate(d.coef, d.exp);
    ShiftPositive(d.coef, d.exp);
    ShiftPositive(Signed(d), d.exp);
  }

  lemma SumValue(a: Dec, b: Dec)
    ensures Value(Sum(a, b)) == Value(a) + Value(b)
  {
    var exp := Min(a.exp, b.exp);
    ScaledValue(a, exp);
    ScaledValue(b, exp);
    ShiftAdd(Scaled(a, exp), Scaled(b, exp), exp);
  }

  lemma SignedProduct(a: Dec, b: Dec)
    ensures Signed(Product(a, b)) == Signed(a) * Signed(b)
  {
  }

  lemma ProductValue(a: Dec, b: Dec)
    ensures Value(Product(a, b)) == Value(a) * Value(b)
  {
    SignedProduct(a, b);
    ProductOfShifts(Signed(Product(a, b)), Signed(a), a.exp, Signed(b), b.exp);
  }

  lemma ProductOfShifts(p: int, a: int, e: int, b: int, f: int)
    requires p == a * b
    ensures Shift(p, e + f) == Shift(a, e) * Shift(b, f)
  {
    ShiftProduct(a, e, b, f);
  }

  lemma AddExact(a: Dec, b: Dec, prec: nat)
    requires prec >= 1
    ensures ExactFor(Add(a, b, prec), Value(a) + Value(b))
    ensures ExactFor(Subtract(a, b, prec), Value(a) - Value(b))
  {
    var n := b.(neg := !b.neg);
    SumValue(a, b);
    SumValue(a, n);
    SignedValue(b);
    FixExactFor(Sum(a, b), prec);
    FixExactFor(Sum(a, n), prec);
  }

  lemma MultiplyExact(a: Dec, b: Dec, prec: nat, product: real)
    requires prec >= 1 && product == Value(a) * Value(b)
    ensures ExactFor(Multiply(a, b, prec), product)
  {
    ProductValue(a, b);
    FixExactFor(Product(a, b), prec);
  }

  lemma FixExactFor(d: Dec, prec: nat)
    requires prec >= 1
    ensures ExactFor(Fix(d, prec), Value(d))
  {
    if Fix(d, prec).Ok? && !Fix(d, prec).inexact { FixExact(d, prec); }
  }

  lemma SignExact(d: Dec, prec: nat)
    requires prec >= 1
    ensures ExactFor(Plus(d, prec), Value(d)) && ExactFor(Minus(d, prec), -Value(d))
  {
    SignedValue(d);
    SignedValue(Abs(d));
    FixExactFor(d, prec);
    FixExactFor(Abs(d), prec);
    FixExactFor(d.(neg := !d.neg), prec);
  }

  // ------------------------------------------------------------ division

  /** A number that does not end in zero cannot lose a digit unnoticed. */
  lemma StickyIsInexact(d: Dec, prec: nat)
    requires prec >= 1 && d.coef % 10 != 0 && d.coef >= TenTo(prec)
    ensures Fix(d, prec).Ok? ==> Fix(d, prec).inexact
  {
    var drop := TargetExp(d, prec) - d.exp;
    DropsSome(d, prec);
    NonzeroRest(d.coef, drop);
  }

  lemma DropsSome(d: Dec, prec: nat)
    requires prec >= 1 && d.coef >= TenTo(prec)
    ensures TargetExp(d, prec) - d.exp >= 1
  {
    DigitsUpTo(d.coef, prec);
  }

  lemma NonzeroRest(n: nat, drop: nat)
    requires drop >= 1 && n % 10 != 0
    ensures Rest(n, TenTo(drop)) != 0
  {
    QuotRest(n, TenTo(drop));
    if Rest(n, TenTo(drop)) == 0 { EndsInZero(n, Quot(n, TenTo(drop)), drop); }
  }

  lemma EndsInZero(n: nat, q: nat, drop: nat)
    requires drop >= 1 && n == q * TenTo(drop)
    ensures n % 10 == 0
  {
    MulLeft(q, TenTo(drop - 1));
  }

  /** The quotient is computed to more digits than the precision. */
  lemma QuotientIsLong(num: nat, den: nat, k: nat, prec: nat)
    requires 1 <= den < TenTo(k) && num >= TenTo(k + prec)
    ensures Quot(num, den) >= TenTo(prec)
  {
    TenToAdd(k, prec);
    QuotRest(num, den);
    if Quot(num, den) < TenTo(prec) {
      MulLess(Quot(num, den), TenTo(prec), den);
      MulLess(den, TenTo(k), TenTo(prec));
    }
  }

  lemma TowardsIdealValue(coef: nat, exp: int, ideal: int)
    ensures var (e, c) := TowardsIdeal(coef, exp, ideal); Shift(c, e) == Shift(coef, exp)
    decreases ideal - exp
  {
    if exp < ideal && coef % 10 == 0 {
      ShiftTen(coef / 10, exp);
      TowardsIdealValue(coef / 10, exp + 1, ideal);
    }
  }

  lemma LeadingDigits(d: nat, k: nat)
    requires d > 0
    ensures TenTo(NumDigits(d) - 1 + k) <= d * TenTo(k) < TenTo(NumDigits(d) + k)
  {
    DigitBounds(d);
    TenToAdd(NumDigits(d) - 1, k);
    TenToAdd(NumDigits(d), k);
    MulLess(d, TenTo(NumDigits(d)), TenTo(k));
    if d > TenTo(NumDigits(d) - 1) { MulLess(TenTo(NumDigits(d) - 1), d, TenTo(k)); }
  }

  /** An exact integer quotient, taken `shift` places further, is the exact quotient. */
  lemma ExactQuotient(a: nat, ea: int, b: nat, eb: int, q: nat, shift: int, n: nat)
    requires b > 0 && n == q * b && Shift(n, ea - shift) == Shift(a, ea)
    ensures Shift(b, eb) > 0.0 && Shift(q, ea - eb - shift) == Shift(a, ea) / Shift(b, eb)
  {
    QuotientOfShifts(n, q, ea - eb - shift, b, eb);
  }

  lemma QuotientOfShifts(n: int, q: int, e: int, b: int, f: int)
    requires n == q * b && b > 0
    ensures Shift(b, f) > 0.0 && Shift(q, e) == Shift(n, e + f) / Shift(b, f)
  {
    ShiftPositive(b, f);
    ProductOfShifts(n, q, e, b, f);
    QuotientIs(Shift(q, e), Shift(n, e + f), Shift(b, f));
  }

  lemma ShiftedUp(a: nat, ea: int, k: nat, n: nat)
    requires n == a * TenTo(k)
    ensures Shift(n, ea - k) == Shift(a, ea)
  {
    ShiftRescale(a, ea - k, k);
  }

  lemma ShiftedDown(a: nat, ea: int, q: nat, b: nat, k: nat, n: nat)
    requires n == q * b && a == q * (b * TenTo(k))
    ensures Shift(n, ea + k) == Shift(a, ea)
  {
    IntMulAssoc(q, b, TenTo(k), n);
    ShiftRescale(n, ea, k);
  }

  lemma IntMulAssoc(a: int, b: int, c: int, ab: int)
    requires ab == a * b
    ensures a * (b * c) == ab * c
  {
  }

  lemma IdealValue(neg: bool, coef: nat, exp: int, ideal: int)
    ensures var (e, c) := TowardsIdeal(coef, exp, ideal);
            Value(Dec(neg, c, e)) == Value(Dec(neg, coef, exp))
  {
    var (e, c) := TowardsIdeal(coef, exp, ideal);
    TowardsIdealValue(coef, exp, ideal);
    ShiftNegate(coef, exp);
    ShiftNegate(c, e);
  }

  /** A long quotient is returned without the signal only if nothing was left over. */
  lemma DivideAtExact(neg: bool, num: nat, den: nat, exp: int, ideal: int, prec: nat)
    requires prec >= 1 && den >= 1 && Quot(num, den) >= TenTo(prec)
    ensures var r := DivideAt(neg, num, den, exp, ideal, prec);
            r.Ok? && !r.inexact ==>
              Rest(num, den) == 0 && Value(r.value) == Value(Dec(neg, Quot(num, den), exp))
  {
    var q := Quot(num, den);
    if Rest(num, den) != 0 {
      StickyIsInexact(Dec(neg, StickyDigit(q), exp), prec);
    } else {
      var (exp', q') := TowardsIdeal(q, exp, ideal);
      FixExactFor(Dec(neg, q', exp'), prec);
      IdealValue(neg, q, exp, ideal);
    }
  }

  lemma DivideExact(a: Dec, b: Dec, prec: nat)
    requires prec >= 1
    ensures Divide(a, b, prec).Ok? ==> Value(b) != 0.0
    ensures Value(b) != 0.0 ==> ExactFor(Divide(a, b, prec), Value(a) / Value(b))
  {
    SignedValue(b);
    var r := Divide(a, b, prec);
    if r.Ok? && !r.inexact {
      if a.coef == 0 {
        FixExactFor(Dec(a.neg != b.neg, 0, a.exp - b.exp), prec);
        ShiftPositive(0, a.exp - b.exp);
        ShiftPositive(0, a.exp);
      } else {
        var shift := DivShift(a.coef, b.coef, prec);
        DivideNonzero(a, b, shift, Numerator(a.coef, shift), Denominator(b.coef, shift), prec);
      }
    }
  }

  lemma DivideNonzero(a: Dec, b: Dec, shift: int, num: nat, den: nat, prec: nat)
    requires prec >= 1 && a.coef > 0 && b.coef > 0 && shift == DivShift(a.coef, b.coef, prec)
    requires num == Numerator(a.coef, shift) && den == Denominator(b.coef, shift)
    ensures Value(b) != 0.0
    ensures ExactFor(DivideAt(a.neg != b.neg, num, den, a.exp - b.exp - shift, a.exp - b.exp, prec),
                     Value(a) / Value(b))
  {
    var exp, neg := a.exp - b.exp - shift, a.neg != b.neg;
    LongQuotient(a.coef, b.coef, num, den, shift, prec);
    DivideAtExact(neg, num, den, exp, a.exp - b.exp, prec);
    SignedValue(b);
    if Rest(num, den) == 0 {
      WholeQuotient(a, b, shift);
      QuotientValue(a, b, Dec(neg, Quot(num, den), exp), Shift(Quot(num, den), exp));
    }
  }

  lemma WholeQuotient(a: Dec, b: Dec, shift: int)
    requires b.coef > 0
    requires Rest(Numerator(a.coef, shift), Denominator(b.coef, shift)) == 0
    ensures Shift(b.coef, b.exp) > 0.0
    ensures Shift(Quot(Numerator(a.coef, shift), Denominator(b.coef, shift)), a.exp - b.exp - shift)
            == Shift(a.coef, a.exp) / Shift(b.coef, b.exp)
  {
    var q := Quot(Numerator(a.coef, shift), Denominator(b.coef, shift));
    ShiftPositive(b.coef, b.exp);
    QuotRest(Numerator(a.coef, shift), Denominator(b.coef, shift));
    MulPositive(q, b.coef);
    if shift >= 0 { ShiftedUp(a.coef, a.exp, shift, q * b.coef); }
    else { ShiftedDown(a.coef, a.exp, q, b.coef, -shift, q * b.coef); }
    ExactQuotient(a.coef, a.exp, b.coef, b.exp, q, shift, q * b.coef);
  }

  lemma QuotientValue(a: Dec, b: Dec, r: Dec, size: real)
    requires a.coef > 0 && b.coef > 0 && r.neg == (a.neg != b.neg) && size == Shift(r.coef, r.exp)
    requires Shift(b.coef, b.exp) > 0.0 && size == Shift(a.coef, a.exp) / Shift(b.coef, b.exp)
    ensures Value(b) != 0.0 && Value(r) == Value(a) / Value(b)
  {
    QuotientSigns(a, b, r);
    RatioSign(Value(a), Value(b), Shift(a.coef, a.exp), Shift(b.coef, b.exp));
  }

  lemma QuotientSigns(a: Dec, b: Dec, r: Dec)
    requires a.coef > 0 && b.coef > 0 && r.neg == (a.neg != b.neg)
    ensures Value(b) != 0.0 && Value(r) == WithSign(Value(a), Value(b), Shift(r.coef, r.exp))
    ensures Shift(a.coef, a.exp) == AbsReal(Value(a)) && Shift(b.coef, b.exp) == AbsReal(Value(b))
  {
    SignedValue(r);
    SignedValue(a);
    SignedValue(b);
  }

  lemma LongQuotient(a: nat, b: nat, num: nat, den: nat, shift: int, prec: nat)
    requires a > 0 && b > 0 && shift == NumDigits(b) - NumDigits(a) + prec + 1
    requires shift >= 0 ==> num == a * TenTo(shift) && den == b
    requires shift < 0 ==> num == a && den == b * TenTo(-shift)
    requires den >= 1
    ensures Quot(num, den) >= TenTo(prec)
  {
    if shift >= 0 {
      LeadingDigits(a, shift);
      DigitBounds(b);
      QuotientIsLong(num, den, NumDigits(b), prec);
    } else {
      LeadingDigits(b, -shift);
      DigitBounds(a);
      QuotientIsLong(num, den, NumDigits(b) - shift, prec);
    }
  }

  lemma NegateFactors(x: real, y: real, product: real)
    requires x * y == product
    ensures (-x) * y == -product && x * (-y) == -product && (-x) * (-y) == product
  {
  }

  lemma QuotientIs(r: real, a: real, b: real)
    requires b != 0.0 && r * b == a
    ensures r == a / b
  {
    var x := a / b;
    assert x * b == a;
    MulCancel(r, x, b);
  }

  // ------------------------------------------------------------ integer quotient and remainder

  lemma MagnitudeValue(d: Dec, exp: int)
    requires exp <= d.exp
    ensures Shift(Magnitude(d, exp), exp) == AbsReal(Value(d))
  {
    ShiftRescale(d.coef, exp, d.exp - exp);
    SignedValue(d);
  }

  lemma QuotBounds(x: nat, y: nat, e: int, b: real, product: real)
    requires y >= 1 && Shift(y, e) == b && product == b * Quot(x, y) as real
    ensures product <= Shift(x, e) < product + b
    ensures Shift(Rest(x, y), e) == Shift(x, e) - product
  {
    QuotRest(x, y);
    TimesShift(y, e, Quot(x, y), Quot(x, y) * y, b, product);
    SplitValue(y, e, Quot(x, y) * y, Rest(x, y), product);
  }

  lemma TimesShift(y: nat, e: int, q: nat, n: nat, b: real, product: real)
    requires n == q * y && b == Shift(y, e) && product == b * q as real
    ensures Shift(n, e) == product
  {
    ShiftTimes(y, e, q);
    assert y * q == n;
  }

  lemma SplitValue(y: nat, e: int, n: nat, r: nat, product: real)
    requires r < y && Shift(n, e) == product
    ensures product <= Shift(n + r, e) < product + Shift(y, e)
    ensures Shift(r, e) == Shift(n + r, e) - product
  {
    ShiftAdd(n, r, e);
    ShiftOrder(r, y, e);
    ShiftPositive(r, e);
  }

  lemma RatioBetween(a: real, b: real, q: real)
    requires b > 0.0 && b * q <= a < b * q + b
    ensures q <= a / b < q + 1.0
  {
    var x := a / b;
    assert x * b == a;
    if x < q { RealMulLess(x, q, b); }
    if x >= q + 1.0 { MulMono(q + 1.0, x, b); }
  }

  lemma RealMulLess(x: real, y: real, z: real)
    requires x < y && z > 0.0
    ensures x * z < y * z
  {
  }

  lemma TruncateIs(a: real, b: real, q: nat, sizeA: real, sizeB: real, product: real)
    requires b != 0.0 && sizeA == AbsReal(a) && sizeB == AbsReal(b)
    requires product == sizeB * q as real && product <= sizeA < product + sizeB
    ensures Truncate(a / b) == WithSign(a, b, q as real)
  {
    RatioBetween(sizeA, sizeB, q as real);
    RatioSign(a, b, sizeA, sizeB);
    TruncateSigned(sizeA / sizeB, q, (a < 0.0) == (b < 0.0));
  }

  lemma TruncateSigned(x: real, q: nat, same: bool)
    requires q as real <= x < q as real + 1.0
    ensures Truncate(if same then x else -x) == if same then q as real else -(q as real)
  {
    FloorIs(x, q);
  }

  lemma FloorIs(x: real, q: nat)
    requires q as real <= x < q as real + 1.0
    ensures x.Floor == q
  {
  }

  lemma RatioSign(a: real, b: real, sizeA: real, sizeB: real)
    requires b != 0.0 && sizeA == AbsReal(a) && sizeB == AbsReal(b)
    ensures a / b == WithSign(a, b, sizeA / sizeB)
  {
    var x := sizeA / sizeB;
    assert x * sizeB == sizeA;
    NegateFactors(x, sizeB, sizeA);
    QuotientIs(WithSign(a, b, x), a, b);
  }

  /** `q` with the sign of a quotient of `a` by `b`. */
  function WithSign(a: real, b: real, q: real): real { if (a < 0.0) == (b < 0.0) then q else -q }

  lemma IntegerQuotientOf(a: real, b: real, x: nat, y: nat, exp: int, sizeA: real, sizeB: real)
    requires b != 0.0 && y >= 1 && sizeA == AbsReal(a) && sizeB == AbsReal(b)
    requires Shift(x, exp) == sizeA && Shift(y, exp) == sizeB
    ensures Truncate(a / b) == WithSign(a, b, Quot(x, y) as real)
    ensures Shift(Rest(x, y), exp) == sizeA - sizeB * Quot(x, y) as real
  {
    QuotBounds(x, y, exp, sizeB, sizeB * Quot(x, y) as real);
    TruncateIs(a, b, Quot(x, y), sizeA, sizeB, sizeB * Quot(x, y) as real);
  }

  /** What the integer quotient of two decimals means. */
  lemma IntegerQuotient(a: Dec, b: Dec, x: nat, y: nat)
    requires b.coef != 0 && x == Magnitude(a, Min(a.exp, b.exp)) && y == Magnitude(b, Min(a.exp, b.exp))
    ensures Value(b) != 0.0
    ensures Truncate(Value(a) / Value(b)) == WithSign(Value(a), Value(b), Quot(x, y) as real)
    ensures Shift(Rest(x, y), Min(a.exp, b.exp)) == AbsReal(Value(a)) - AbsReal(Value(b)) * Quot(x, y) as real
  {
    var exp := Min(a.exp, b.exp);
    MagnitudeValue(a, exp);
    MagnitudeValue(b, exp);
    SignedValue(b);
    IntegerQuotientOf(Value(a), Value(b), x, y, exp, AbsReal(Value(a)), AbsReal(Value(b)));
  }

  lemma ZeroDividend(x: nat, y: nat)
    requires y >= 1
    ensures x == 0 ==> Quot(x, y) == 0 && Rest(x, y) == 0
  {
    if x == 0 { QuotUnique(x, y, 0); }
  }

  /** Signs of decimals and of their values differ only at zero. */
  lemma SignOfQuotient(a: Dec, b: Dec, q: nat)
    requires b.coef != 0 && (a.coef == 0 ==> q == 0)
    ensures Value(Dec(a.neg != b.neg, q, 0)) == WithSign(Value(a), Value(b), q as real)
  {
    SignedValue(a);
    SignedValue(b);
  }

  lemma FloorDivideExact(a: Dec, b: Dec, prec: nat)
    requires prec >= 1
    ensures FloorDivide(a, b, prec).Ok? ==> Value(b) != 0.0
    ensures Value(b) != 0.0 ==> ExactFor(FloorDivide(a, b, prec), Truncate(Value(a) / Value(b)))
  {
    SignedValue(b);
    if b.coef != 0 {
      var exp := Min(a.exp, b.exp);
      var x, y := Magnitude(a, exp), Magnitude(b, exp);
      IntegerQuotient(a, b, x, y);
      ZeroDividend(x, y);
      SignOfQuotient(a, b, Quot(x, y));
    }
  }

  /** What `//` leaves over. */
  function IdealRest(a: real, b: real): real
    requires b != 0.0
  {
    a - b * Truncate(a / b)
  }

  lemma RestSigned(a: real, b: real, q: real, rest: real, t: real, product: real)
    requires product == AbsReal(b) * q && rest == AbsReal(a) - product && t == WithSign(a, b, q)
    ensures (if a < 0.0 then -rest else rest) == a - b * t
  {
    NegateFactors(AbsReal(b), q, product);
  }

  lemma RestIsIdeal(a: real, b: real, q: real, rest: real)
    requires b != 0.0 && Truncate(a / b) == WithSign(a, b, q) && rest == AbsReal(a) - AbsReal(b) * q
    ensures (if a < 0.0 then -rest else rest) == IdealRest(a, b)
  {
    RestSigned(a, b, q, rest, Truncate(a / b), AbsReal(b) * q);
  }

  lemma SignOfRest(a: Dec, r: nat, exp: int)
    requires a.coef == 0 ==> r == 0
    ensures Value(Dec(a.neg, r, exp)) == if Value(a) < 0.0 then -Shift(r, exp) else Shift(r, exp)
  {
    SignedValue(a);
    ShiftNegate(r, exp);
    ShiftPositive(r, exp);
  }

  lemma RestValue(a: Dec, b: Dec, x: nat, y: nat, rest: real)
    requires b.coef != 0 && x == Magnitude(a, Min(a.exp, b.exp)) && y == Magnitude(b, Min(a.exp, b.exp))
    requires rest == Shift(Rest(x, y), Min(a.exp, b.exp))
    ensures Value(b) != 0.0 && (if Value(a) < 0.0 then -rest else rest) == IdealRest(Value(a), Value(b))
  {
    IntegerQuotient(a, b, x, y);
    RestIsIdeal(Value(a), Value(b), Quot(x, y) as real, rest);
  }

  lemma RemainderValue(a: Dec, b: Dec, x: nat, y: nat)
    requires b.coef != 0 && x == Magnitude(a, Min(a.exp, b.exp)) && y == Magnitude(b, Min(a.exp, b.exp))
    ensures Value(b) != 0.0
    ensures Value(Dec(a.neg, Rest(x, y), Min(a.exp, b.exp))) == IdealRest(Value(a), Value(b))
  {
    ZeroDividend(x, y);
    SignOfRest(a, Rest(x, y), Min(a.exp, b.exp));
    RestValue(a, b, x, y, Shift(Rest(x, y), Min(a.exp, b.exp)));
  }

  lemma RemainderExactFor(a: Dec, b: Dec, prec: nat)
    requires prec >= 1 && b.coef != 0 && Value(b) != 0.0
    ensures ExactFor(Remainder(a, b, prec), IdealRest(Value(a), Value(b)))
  {
    var exp := Min(a.exp, b.exp);
    var x, y := Magnitude(a, exp), Magnitude(b, exp);
    RemainderValue(a, b, x, y);
    FixExactFor(Dec(a.neg, Rest(x, y), exp), prec);
  }

  lemma RemainderExact(a: Dec, b: Dec, prec: nat)
    requires prec >= 1
    ensures Remainder(a, b, prec).Ok? ==> Value(b) != 0.0
    ensures Value(b) != 0.0 ==> ExactFor(Remainder(a, b, prec), IdealRest(Value(a), Value(b)))
  {
    SignedValue(b);
    if b.coef != 0 { RemainderExactFor(a, b, prec); }
  }

  // ------------------------------------------------------------ powers

  lemma {:induction false} PowSum(x: real, m: nat, n: nat)
    ensures RealPow(x, m + n) == RealPow(x, m) * RealPow(x, n)
  {
    if m > 0 {
      PowSum(x, m - 1, n);
      MulAssoc(x, RealPow(x, m - 1), RealPow(x, n));
    }
  }

  lemma {:induction false} PowerUpExact(base: Dec, n: nat, prec: nat)
    requires prec >= 1 && n >= 1
    ensures ExactFor(PowerUp(base, n, prec), RealPow(Value(base), n))
    decreases n
  {
    if n == 1 {
      assert RealPow(Value(base), 1) == Value(base) * RealPow(Value(base), 0);
    } else {
      var half := PowerUp(base, n / 2, prec);
      PowerUpExact(base, n / 2, prec);
      if half.Ok? && !half.inexact { SquareExact(half.value, base, n, prec); }
    }
  }

  lemma SquareExact(half: Dec, base: Dec, n: nat, prec: nat)
    requires prec >= 1 && n >= 2 && Value(half) == RealPow(Value(base), n / 2)
    ensures ExactFor(SquareUp(half, base, n % 2 == 1, prec), RealPow(Value(base), n))
  {
    HalfPow(Value(base), n);
    SquareUpExact(half, base, n % 2 == 1, prec, RealPow(Value(base), n / 2), RealPow(Value(base), n));
  }

  lemma SquareUpExact(half: Dec, base: Dec, odd: bool, prec: nat, h: real, target: real)
    requires prec >= 1 && Value(half) == h
    requires target == if odd then (h * h) * Value(base) else h * h
    ensures ExactFor(SquareUp(half, base, odd, prec), target)
  {
    MultiplyExact(half, half, prec, h * h);
    TimesBase(Multiply(half, half, prec), base, odd, prec, h * h, target);
  }

  lemma TimesBase(square: Outcome, base: Dec, odd: bool, prec: nat, s: real, target: real)
    requires prec >= 1 && ExactFor(square, s) && target == if odd then s * Value(base) else s
    ensures ExactFor(if square.Ok? && odd then Sticky(square.inexact, Multiply(square.value, base, prec)) else square,
                     target)
  {
    if square.Ok? && !square.inexact && odd { MultiplyExact(square.value, base, prec, target); }
  }

  lemma HalfPow(x: real, n: nat)
    ensures var half := RealPow(x, n / 2);
            RealPow(x, n) == if n % 2 == 1 then (half * half) * x else half * half
  {
    PowSum(x, n / 2, n / 2);
    if n % 2 == 1 { PowStep(x, n); }
  }

  lemma PowStep(x: real, n: nat)
    requires n >= 1
    ensures RealPow(x, n) == RealPow(x, n - 1) * x
  {
  }

  /** The ideal power: negative exponents invert. */
  function IdealPow(x: real, n: int): real
    requires n < 0 ==> x != 0.0
  {
    if n >= 0 then RealPow(x, n) else RealPow(1.0 / x, -n)
  }

  /** Inverting first is the same as inverting last. */
  lemma {:induction false} PowInverse(x: real, n: nat)
    requires x != 0.0
    ensures RealPow(1.0 / x, n) * RealPow(x, n) == 1.0
  {
    if n > 0 {
      PowInverse(x, n - 1);
      var i, p := RealPow(1.0 / x, n - 1), RealPow(x, n - 1);
      assert (1.0 / x * i) * (x * p) == (1.0 / x * x) * (i * p);
    }
  }

  lemma PowerRoundedExact(base: Dec, n: nat, work: nat, prec: nat)
    requires prec >= 1 && work >= 1 && n >= 1
    ensures ExactFor(PowerRounded(base, n, work, prec), RealPow(Value(base), n))
  {
    PowerUpExact(base, n, work);
    if PowerUp(base, n, work).Ok? { FixExactFor(PowerUp(base, n, work).value, prec); }
  }

  lemma PositivePowerExact(base: Dec, n: nat, prec: nat)
    requires prec >= 1 && n >= 1
    ensures ExactFor(Power(base, n, prec), RealPow(Value(base), n))
  {
    PowerRoundedExact(base, n, prec + NumDigits(n) + 2, prec);
  }

  lemma InversePowerExact(base: Dec, n: int, prec: nat)
    requires prec >= 1 && n < 0 && base.coef != 0
    ensures Value(base) != 0.0 && ExactFor(Power(base, n, prec), RealPow(1.0 / Value(base), -n))
  {
    NegativePowerExact(base, -n, prec + NumDigits(-n) + 3, prec);
  }

  lemma PowerExact(base: Dec, n: int, prec: nat)
    requires prec >= 1
    ensures Power(base, n, prec).Ok? ==> n > 0 || Value(base) != 0.0
    ensures Power(base, n, prec).Ok? ==> ExactFor(Power(base, n, prec), IdealPow(Value(base), n))
  {
    SignedValue(base);
    if n > 0 {
      PositivePowerExact(base, n, prec);
    } else if n < 0 && base.coef != 0 {
      InversePowerExact(base, n, prec);
    } else if n == 0 {
      ZerothPower(Value(base));
    }
  }

  lemma ZerothPower(x: real)
    ensures RealPow(x, 0) == 1.0 == Value(One)
  {
  }

  lemma NegativePowerExact(base: Dec, n: nat, work: nat, prec: nat)
    requires prec >= 1 && work >= 1 && n >= 1 && base.coef != 0
    ensures Value(base) != 0.0
    ensures var inverse := Divide(One, base, work);
            inverse.Ok? && !inverse.inexact ==>
              ExactFor(PowerRounded(inverse.value, n, work, prec), RealPow(1.0 / Value(base), n))
  {
    SignedValue(base);
    DivideExact(One, base, work);
    var inverse := Divide(One, base, work);
    if inverse.Ok? { PowerRoundedExact(inverse.value, n, work, prec); }
  }
}
