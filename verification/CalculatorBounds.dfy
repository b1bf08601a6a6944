/** How large a calculator value can be. `_checked` compares the rounded size with 10^24, so a literal
    longer than the precision may pass although it is above the bound; nothing else does. */
module CalculatorBounds {
  import opened Powers
  import opened DecimalArithmetic
  import opened DecimalExactness
  import opened DecimalRounding
  import opened Calculator

  /** 10^24, and the largest size that still rounds to it: half a unit of the 34th digit more. */
  const BOUND: real := Shift(TenTo(34), -10)
  const LIMIT: real := Shift(TenTo(34) + 5, -10)

  lemma BoundIsMaxMagnitude()
    ensures BOUND == Value(MAX_MAGNITUDE)
  {
    ShiftRescale(1, -10, 34);
  }

  // ------------------------------------------------------------ numbers the context can hold

  predicate Fits(d: Dec) { Held(d, PRECISION) }

  /** The integers behind a rounding: what is kept and what is dropped. */
  lemma RoundingParts(d: Dec)
    requires d.coef > 0 && TargetExp(d, PRECISION) > d.exp
    ensures var m := TenTo(TargetExp(d, PRECISION) - d.exp);
            var q, r := Quot(d.coef, m), Rest(d.coef, m);
            && d.coef == q * m + r && r < m && q < TenTo(PRECISION)
            && (TargetExp(d, PRECISION) > Etiny(PRECISION) ==> q >= TenTo(PRECISION - 1))
  {
    var m := TenTo(TargetExp(d, PRECISION) - d.exp);
    var q, r := Quot(d.coef, m), Rest(d.coef, m);
    KeptBounds(d, PRECISION, TargetExp(d, PRECISION) - d.exp, q, r, HalfEven(q, r, m));
  }

  lemma RoundedFits(d: Dec)
    requires Fix(d, PRECISION).Ok? && d.coef > 0 && TargetExp(d, PRECISION) > d.exp
    ensures Fits(Fix(d, PRECISION).value)
  {
    var m := TenTo(TargetExp(d, PRECISION) - d.exp);
    RoundingParts(d);
    CarryFits(HalfEven(Quot(d.coef, m), Rest(d.coef, m), m));
  }

  lemma CarryFits(rounded: nat)
    requires rounded <= TenTo(PRECISION)
    ensures rounded / 10 < TenTo(PRECISION)
  {
  }

  lemma FixFits(d: Dec)
    requires Fix(d, PRECISION).Ok?
    ensures Fits(Fix(d, PRECISION).value)
  {
    if d.coef > 0 {
      if TargetExp(d, PRECISION) > d.exp { RoundedFits(d); } else { DigitsUpTo(d.coef, PRECISION); }
    }
  }

  lemma FixOfFits(d: Dec)
    requires Fits(d) && Fix(d, PRECISION).Ok?
    ensures !Fix(d, PRECISION).inexact && Value(Fix(d, PRECISION).value) == Value(d)
  {
    if d.coef == 0 {
      FixExact(d, PRECISION);
    } else {
      DigitsUpTo(d.coef, PRECISION);
    }
  }

  // ------------------------------------------------------------ rounding against the bound

  lemma ShiftExpOrder(n: nat, a: int, b: int)
    requires a <= b
    ensures Shift(n, a) <= Shift(n, b)
  {
    ShiftRescale(n, a, b - a);
    ShiftOrder(n, n * TenTo(b - a), a);
    assert n * (TenTo(b - a) - 1) >= 0;
  }

  /** A coefficient of the full length is far above the bound unless its exponent is below -8. */
  lemma FarAbove(n: nat, e: int)
    requires n >= TenTo(33) && e >= -8
    ensures Shift(n, e) > LIMIT > BOUND
  {
    ShiftExpOrder(n, -8, e);
    ShiftRescale(n, -10, 2);
    ShiftOrder(TenTo(34) + 5, n * TenTo(2), -10);
    ShiftOrder(TenTo(34), TenTo(34) + 5, -10);
  }

  lemma FarBelow(n: nat, e: int)
    requires n <= TenTo(34) && e <= -10
    ensures Shift(n, e) <= BOUND < LIMIT
  {
    ShiftExpOrder(n, e, -10);
    ShiftOrder(TenTo(34), n, -10);
    ShiftOrder(TenTo(34), TenTo(34) + 5, -10);
  }

  lemma AtTenth(n: nat)
    ensures Shift(n, -9) <= BOUND <==> n <= TenTo(33)
    ensures Shift(n, -9) <= LIMIT <==> n <= TenTo(33)
  {
    ShiftTen(n, -10);
    ShiftOrder(TenTo(34), 10 * n, -10);
    ShiftOrder(TenTo(34) + 5, 10 * n, -10);
  }

  /** Unrounded numbers: no number of 34 digits lies between the bound and the limit. */
  lemma ShortLimit(c: nat, e: int)
    requires c < TenTo(34)
    ensures Shift(c, e) <= BOUND <==> Shift(c, e) <= LIMIT
  {
    if e <= -10 {
      FarBelow(c, e);
    } else {
      var n := InTenths(c, e);
      AtTenth(n);
    }
  }

  /** The number in units of 10^-9: itself, or a multiple of ten. */
  lemma InTenths(c: nat, e: int) returns (n: nat)
    requires e >= -9
    ensures Shift(c, e) == Shift(n, -9) && (if e == -9 then n == c else n % 10 == 0)
  {
    ShiftRescale(c, -9, e + 9);
    MulPositive(c, TenTo(e + 9));
    n := c * TenTo(e + 9);
    if e > -9 { MulLeft(c, TenTo(e + 8)); }
  }

  /** Half to even keeps to `a` exactly up to half a unit more, when `a` is even. */
  lemma HalfEvenLimit(a: nat, q: nat, r: nat, t: nat, c: nat)
    requires a % 2 == 0 && q >= a && t >= 1 && r < 10 * t && c == q * (10 * t) + r
    ensures HalfEven(q, r, 10 * t) <= a <==> c <= a * (10 * t) + 5 * t
  {
    if q > a { MulLess(a, q, 10 * t); }
  }

  /** Rounded numbers whose 34th digit is worth 10^-9. */
  lemma NearLimit(c: nat, q: nat, r: nat, drop: nat, e: int)
    requires drop >= 1 && e + drop == -9 && q >= TenTo(33)
    requires c == q * TenTo(drop) + r && r < TenTo(drop)
    ensures Shift(HalfEven(q, r, TenTo(drop)), -9) <= BOUND <==> Shift(c, e) <= LIMIT
  {
    var t := TenTo(drop - 1);
    AtTenth(HalfEven(q, r, 10 * t));
    TenToEven(33);
    HalfEvenLimit(TenTo(33), q, r, t, c);
    LimitAt(e, drop, c);
  }

  lemma LimitAt(e: int, drop: nat, c: nat)
    requires drop >= 1 && e + drop == -9
    ensures var t := TenTo(drop - 1); Shift(c, e) <= LIMIT <==> c <= TenTo(33) * (10 * t) + 5 * t
  {
    var t, digits := TenTo(drop - 1), TenTo(34) + 5;
    MulPositive(digits, t);
    LimitScaled(e, drop - 1, digits * t);
    Distribute(TenTo(33), t, digits * t);
    ShiftOrder(digits * t, c, e);
  }

  lemma LimitScaled(e: int, k: nat, m: nat)
    requires e + k == -10 && m == (TenTo(34) + 5) * TenTo(k)
    ensures Shift(m, e) == LIMIT
  {
    ShiftRescale(TenTo(34) + 5, e, k);
  }

  lemma Distribute(a: int, t: int, m: int)
    requires m == (10 * a + 5) * t
    ensures m == a * (10 * t) + 5 * t
  {
  }

  lemma TenToEven(n: nat)
    requires n >= 1
    ensures TenTo(n) % 2 == 0
  {
    TwiceIsEven(5 * TenTo(n - 1), TenTo(n));
  }

  lemma TwiceIsEven(half: nat, n: nat)
    requires n == 2 * half
    ensures n % 2 == 0
  {
  }

  lemma Overflows(d: Dec)
    requires d.coef > 0 && NumDigits(d.coef) + d.exp >= 26
    ensures Shift(d.coef, d.exp) > LIMIT > BOUND
  {
    DigitBounds(d.coef);
    var k := NumDigits(d.coef) - 1;
    PowerBelow(d.coef, k, d.exp);
    ShiftExpOrder(1, 25, d.exp + k);
    HighPower();
  }

  lemma PowerBelow(c: nat, k: nat, e: int)
    requires TenTo(k) <= c
    ensures Shift(1, e + k) <= Shift(c, e)
  {
    ShiftRescale(1, e, k);
    ShiftOrder(c, TenTo(k), e);
  }

  lemma HighPower()
    ensures Shift(1, 25) > LIMIT > BOUND
  {
    ShiftRescale(1, -8, 33);
    FarAbove(TenTo(33), -8);
  }

  /** Rounding lands at most on the bound exactly for sizes up to the limit. */
  lemma RoundedAgainstBound(d: Dec)
    requires !d.neg
    ensures Value(d) <= LIMIT <==>
              Fix(d, PRECISION).Ok? && Value(Fix(d, PRECISION).value) <= BOUND
  {
    if d.coef == 0 {
      ShiftPositive(0, d.exp);
      ShiftPositive(0, Fix(d, PRECISION).value.exp);
      FarBelow(0, -10);
      ShiftPositive(0, -10);
    } else if NumDigits(d.coef) + d.exp - PRECISION > Etop(PRECISION) {
      Overflows(d);
    } else if TargetExp(d, PRECISION) <= d.exp {
      DigitsUpTo(d.coef, PRECISION);
      ShortLimit(d.coef, d.exp);
    } else {
      RoundedLimit(d, TargetExp(d, PRECISION));
    }
  }

  lemma RoundedLimit(d: Dec, to: int)
    requires d.coef > 0 && !d.neg && to == TargetExp(d, PRECISION) > d.exp
    requires NumDigits(d.coef) + d.exp - PRECISION <= Etop(PRECISION)
    ensures Value(d) <= LIMIT <==>
              Fix(d, PRECISION).Ok? && Value(Fix(d, PRECISION).value) <= BOUND
  {
    var drop := to - d.exp;
    RoundingParts(d);
    RoundedCompare(d.coef, d.exp, Quot(d.coef, TenTo(drop)), Rest(d.coef, TenTo(drop)), drop);
    RoundedValue(d, drop);
  }

  /** The integers of a rounding, against the bound. */
  lemma RoundedCompare(c: nat, e: int, q: nat, r: nat, drop: nat)
    requires drop >= 1 && c == q * TenTo(drop) + r && r < TenTo(drop) && q < TenTo(34)
    requires e + drop > -10 ==> q >= TenTo(33)
    ensures Shift(c, e) <= LIMIT <==> Shift(HalfEven(q, r, TenTo(drop)), e + drop) <= BOUND
    ensures e + drop > -9 ==> Shift(c, e) > LIMIT
  {
    var rounded := HalfEven(q, r, TenTo(drop));
    BelowNext(c, e, q, drop);
    if e + drop <= -10 {
      FarBelow(rounded, e + drop);
      FarBelow(q + 1, e + drop);
    } else if e + drop == -9 {
      NearLimit(c, q, r, drop, e);
    } else {
      FarAbove(rounded, e + drop);
      FarAbove(q, e + drop);
    }
  }

  /** What a rounding returns; a carry into a new digit leaves the value where it is. */
  lemma RoundedValue(d: Dec, drop: nat)
    requires d.coef > 0 && !d.neg && drop == TargetExp(d, PRECISION) - d.exp && drop >= 1
    requires NumDigits(d.coef) + d.exp - PRECISION <= Etop(PRECISION)
    requires Quot(d.coef, TenTo(drop)) < TenTo(PRECISION)
    ensures var rounded := HalfEven(Quot(d.coef, TenTo(drop)), Rest(d.coef, TenTo(drop)), TenTo(drop));
            && (Fix(d, PRECISION).Ok? ==> Value(Fix(d, PRECISION).value) == Shift(rounded, d.exp + drop))
            && (Fix(d, PRECISION).Err? ==> d.exp + drop > -9)
  {
    CarryValue(d.exp + drop);
  }

  lemma CarryValue(to: int)
    ensures Shift(TenTo(PRECISION) / 10, to + 1) == Shift(TenTo(PRECISION), to)
  {
    ShiftTen(TenTo(PRECISION - 1), to);
  }

  lemma BelowNext(c: nat, e: int, q: nat, drop: nat)
    requires q * TenTo(drop) <= c < q * TenTo(drop) + TenTo(drop)
    ensures Shift(q, e + drop) <= Shift(c, e) < Shift(q + 1, e + drop)
  {
    ShiftRescale(q, e, drop);
    ShiftRescale(q + 1, e, drop);
    assert (q + 1) * TenTo(drop) == q * TenTo(drop) + TenTo(drop);
    ShiftOrder(c, q * TenTo(drop), e);
    ShiftOrder(c, (q + 1) * TenTo(drop), e);
  }

  // ------------------------------------------------------------ the bound on calculator values

  /** `_checked` lets a value through exactly when its size is at most 10^24 + 5 · 10^-10. */
  lemma CheckedIff(v: Dec)
    ensures Checked(v).Ok? <==> AbsReal(Value(v)) <= LIMIT
  {
    SignedValue(v);
    BoundIsMaxMagnitude();
    RoundedAgainstBound(Abs(v));
  }

  /** A rounded value that passes is at most 10^24. */
  lemma CheckedFits(v: Dec)
    requires Fits(v) && Checked(v).Ok?
    ensures AbsReal(Value(v)) <= BOUND && !Checked(v).inexact
  {
    SignedValue(v);
    BoundIsMaxMagnitude();
    FixOfFits(Abs(v));
  }

  lemma OperateFits(op: Op, l: Dec, r: Dec)
    requires Operate(op, l, r).Ok?
    ensures Fits(Operate(op, l, r).value)
  {
    match op
    case Add => FixFits(Sum(l, r));
    case Sub => FixFits(Sum(l, r.(neg := !r.neg)));
    case Mul => FixFits(Product(l, r));
    case Div => DivideFits(l, r);
    case FloorDiv =>
    case Mod => RemainderFits(l, r);
    case Pow => PowerFits(l, Value(r).Floor);
  }

  lemma DivideFits(l: Dec, r: Dec)
    requires Divide(l, r, PRECISION).Ok?
    ensures Fits(Divide(l, r, PRECISION).value)
  {
    if l.coef == 0 {
      FixFits(Dec(l.neg != r.neg, 0, l.exp - r.exp));
      assert Divide(l, r, PRECISION) == Fix(Dec(l.neg != r.neg, 0, l.exp - r.exp), PRECISION);
    } else {
      var shift := DivShift(l.coef, r.coef, PRECISION);
      DivideAtFits(l.neg != r.neg, Numerator(l.coef, shift), Denominator(r.coef, shift),
                   l.exp - r.exp - shift, l.exp - r.exp);
    }
  }

  lemma DivideAtFits(neg: bool, num: nat, den: nat, exp: int, ideal: int)
    requires den >= 1 && DivideAt(neg, num, den, exp, ideal, PRECISION).Ok?
    ensures Fits(DivideAt(neg, num, den, exp, ideal, PRECISION).value)
  {
    var q := Quot(num, den);
    if Rest(num, den) != 0 {
      FixFits(Dec(neg, StickyDigit(q), exp));
    } else {
      var (exp', q') := TowardsIdeal(q, exp, ideal);
      FixFits(Dec(neg, q', exp'));
    }
  }

  lemma RemainderFits(l: Dec, r: Dec)
    requires Remainder(l, r, PRECISION).Ok?
    ensures Fits(Remainder(l, r, PRECISION).value)
  {
    var exp := Min(l.exp, r.exp);
    FixFits(Dec(l.neg, Rest(Magnitude(l, exp), Magnitude(r, exp)), exp));
  }

  lemma PowerFits(base: Dec, n: int)
    requires Power(base, n, PRECISION).Ok?
    ensures Fits(Power(base, n, PRECISION).value)
  {
    if n > 0 {
      FixFits(PowerUp(base, n, PRECISION + NumDigits(n) + 2).value);
    } else if n < 0 {
      var work := PRECISION + NumDigits(-n) + 3;
      FixFits(PowerUp(Divide(One, base, work).value, -n, work).value);
    }
  }

  lemma CombineBounded(op: Op, l: Dec, r: Dec)
    requires Combine(op, l, r).Ok?
    ensures Fits(Combine(op, l, r).value) && AbsReal(Value(Combine(op, l, r).value)) <= BOUND
  {
    OperateFits(op, l, r);
    CheckedFits(Operate(op, l, r).value);
  }

  lemma FixSign(d: Dec)
    ensures Fix(d, PRECISION).Ok? == Fix(Abs(d), PRECISION).Ok?
    ensures Fix(d, PRECISION).Ok? ==>
              Fix(d, PRECISION).inexact == Fix(Abs(d), PRECISION).inexact
              && Abs(Fix(d, PRECISION).value) == Fix(Abs(d), PRECISION).value
  {
  }

  lemma SignBounded(d: Dec)
    requires AbsReal(Value(d)) <= LIMIT
    ensures Fix(d, PRECISION).Ok? && AbsReal(Value(Fix(d, PRECISION).value)) <= BOUND
  {
    SignedValue(d);
    RoundedAgainstBound(Abs(d));
    FixSign(d);
    SignedValue(Fix(d, PRECISION).value);
  }

  lemma BoundBelowLimit()
    ensures 0.0 < BOUND < LIMIT
  {
    FarBelow(0, -10);
    ShiftPositive(TenTo(34), -10);
  }

  /** Every value is at most 10^24 in size; only a literal may exceed it, by 5 · 10^-10 at most. */
  lemma {:induction false} EvalBounded(e: Expr)
    requires Eval(e).Ok?
    ensures AbsReal(Value(Eval(e).value)) <= if e.Num? then LIMIT else BOUND
    ensures !e.Num? ==> Fits(Eval(e).value)
  {
    BoundBelowLimit();
    match e
    case Num(d) => CheckedIff(d);
    case Bin(op, left, right) => CombineBounded(op, Eval(left).value, Eval(right).value);
    case Pos(x) =>
      EvalBounded(x);
      SignStep(Eval(x).value);
    case Neg(x) =>
      EvalBounded(x);
      SignStep(Eval(x).value);
  }

  lemma SignStep(v: Dec)
    requires AbsReal(Value(v)) <= LIMIT
    ensures Plus(v, PRECISION).Ok? && AbsReal(Value(Plus(v, PRECISION).value)) <= BOUND
            && Fits(Plus(v, PRECISION).value)
    ensures Minus(v, PRECISION).Ok? && AbsReal(Value(Minus(v, PRECISION).value)) <= BOUND
            && Fits(Minus(v, PRECISION).value)
  {
    SignedValue(v);
    SignedValue(Abs(v));
    var n := v.(neg := !v.neg);
    SignBounded(v);
    SignBounded(Abs(v));
    SignBounded(n);
    FixFits(v);
    FixFits(Abs(v));
    FixFits(n);
  }

  predicate Within(sub: Expr, e: Expr) {
    sub == e ||
    match e
    case Bin(_, left, right) => Within(sub, left) || Within(sub, right)
    case Pos(x) => Within(sub, x)
    case Neg(x) => Within(sub, x)
    case _ => false
  }

  /** The bound holds inside an expression too, at every node that was evaluated, unary ones
      included; and when nothing was rounded, without exception. */
  lemma {:induction false} SubtreeBounded(sub: Expr, e: Expr)
    requires Within(sub, e) && Eval(e).Ok?
    ensures Eval(sub).Ok?
    ensures AbsReal(Value(Eval(sub).value)) <= if sub.Num? then LIMIT else BOUND
    ensures !Eval(e).inexact ==> !Eval(sub).inexact && AbsReal(Value(Eval(sub).value)) <= BOUND
    decreases e
  {
    if sub == e {
      EvalBounded(e);
      if e.Num? && !Eval(e).inexact { ExactLiteral(e.literal); }
    } else {
      match e
      case Bin(_, left, right) =>
        if Within(sub, left) { SubtreeBounded(sub, left); } else { SubtreeBounded(sub, right); }
      case Pos(x) => SubtreeBounded(sub, x);
      case Neg(x) => SubtreeBounded(sub, x);
    }
  }

  lemma ExactLiteral(d: Dec)
    requires Checked(d).Ok? && !Checked(d).inexact
    ensures AbsReal(Value(d)) <= BOUND
  {
    SignedValue(d);
    BoundIsMaxMagnitude();
    FixExact(Abs(d), PRECISION);
  }

  lemma LongLiteralSize(c: nat)
    ensures var d := Dec(false, c, -10);
            && (AbsReal(Value(d)) <= LIMIT <==> c <= TenTo(34) + 5)
            && (Value(d) > Value(MAX_MAGNITUDE) <==> TenTo(34) + 1 <= c)
  {
    ShiftOrder(TenTo(34) + 5, c, -10);
    ShiftOrder(TenTo(34), c, -10);
    SignedValue(Dec(false, c, -10));
    BoundIsMaxMagnitude();
  }

  /** The exception is real: a literal of ten decimals passes the check although it is too big
      exactly from 10^24 + 10^-10 to 10^24 + 5 · 10^-10. */
  lemma LongLiteralPasses(c: nat)
    ensures var d := Dec(false, c, -10);
            Eval(Num(d)).Ok? && Value(d) > Value(MAX_MAGNITUDE) <==> TenTo(34) + 1 <= c <= TenTo(34) + 5
  {
    LongLiteralSize(c);
    CheckedIff(Dec(false, c, -10));
  }

  /** A value is clean when it is within the bound and rounding it would change nothing. */
  predicate Clean(v: Dec) {
    AbsReal(Value(v)) <= BOUND && Fix(Abs(v), PRECISION).Ok? && !Fix(Abs(v), PRECISION).inexact
  }

  lemma ExactIsClean(e: Expr)
    requires Eval(e).Ok? && !Eval(e).inexact
    ensures Clean(Eval(e).value)
  {
    var v := Eval(e).value;
    if e.Num? {
      ExactLiteral(e.literal);
    } else {
      EvalBounded(e);
      BoundBelowLimit();
      SignedValue(v);
      RoundedAgainstBound(Abs(v));
      FixOfFits(Abs(v));
    }
  }
}
