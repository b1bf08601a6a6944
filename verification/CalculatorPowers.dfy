/** Which powers the calculator takes, and how exact they are. */
module CalculatorPowers {
  import opened Powers
  import opened DecimalArithmetic
  import opened DecimalExactness
  import opened DecimalRounding
  import opened DecimalOverflow
  import opened PowerAccuracy
  import opened Calculator
  import opened CalculatorBounds
  import opened CalculatorRounding

  /** An integer between -12 and 12. */
  predicate SmallExponent(y: real) { IsInteger(y) && -12.0 <= y <= 12.0 }

  lemma Twelve(sum: nat)
    requires sum == 12 || sum == 13
    ensures Held(Dec(false, sum, 0), PRECISION) && Value(Dec(false, sum, 0)) == sum as real
  {
    TenToMonotone(2, PRECISION);
    assert TenTo(2) == 10 * TenTo(1);
  }

  /** Rounding the size of an exponent does not carry an integer over twelve. */
  lemma RoundedExponent(x: real, d: Dec)
    requires x >= 0.0 && IsInteger(x) && (Value(d) == x || Rounds(x, d, PRECISION))
    ensures Value(d) <= 12.0 <==> x <= 12.0
  {
    if Value(d) != x {
      Twelve(12);
      Twelve(13);
      assert Distance(x, d) <= Distance(x, Dec(false, 12, 0)) && Distance(x, d) <= Distance(x, Dec(false, 13, 0));
    }
  }

  lemma SmallPowerIff(l: Dec, r: Dec)
    requires InRange(Value(r))
    ensures SmallExponent(Value(r)) ==>
              SmallPower(l, r).Ok? == Power(l, Value(r).Floor, PRECISION).Ok?
              && (SmallPower(l, r).Ok? ==> SmallPower(l, r).value == Power(l, Value(r).Floor, PRECISION).value)
    ensures !SmallExponent(Value(r)) ==> SmallPower(l, r) == Err(PowerNotSmall)
  {
    SignedValue(r);
    FixAnswers(Abs(r), PRECISION);
    InRangeIsNotTooLarge(AbsReal(Value(r)));
    if IsInteger(Value(r)) {
      IntegerSize(Value(r));
      RoundedExponent(AbsReal(Value(r)), Fix(Abs(r), PRECISION).value);
    }
  }

  lemma IntegerSize(x: real)
    requires IsInteger(x)
    ensures IsInteger(AbsReal(x)) && (AbsReal(x) <= 12.0 <==> -12.0 <= x <= 12.0)
  {
    if x < 0.0 { assert -x == (-x.Floor) as real; }
  }

  /** `value` is off by less than a unit of the last of 34 digits. */
  predicate PowerClose(value: real, x: real) { AbsReal(value - x) <= Relative(PRECISION) * AbsReal(x) }

  /** A power is taken only for a small integer exponent, and not of zero unless that is positive; the
      result is in range and off by less than a unit of its last digit, unless it is next to nothing. */
  lemma PowerAnswers(left: Expr, right: Expr)
    ensures var o, l, r := Eval(Bin(Pow, left, right)), Eval(left), Eval(right);
            if l.Err? || r.Err? then o.Err?
            else
              IsPowerOf(o, Value(l.value), Value(r.value))
  {
    var o, l, r := Eval(Bin(Pow, left, right)), Eval(left), Eval(right);
    if o.Ok? { EvalInRange(Bin(Pow, left, right)); }
    if l.Ok? && r.Ok? {
      EvalInRange(right);
      PowerNode(o, l, r);
    }
  }

  ghost predicate IsPowerOf(o: Outcome, x: real, y: real) {
    && (!SmallExponent(y) ==> o == Err(PowerNotSmall))
    && (o.Ok? ==>
          && SmallExponent(y) && (y > 0.0 || x != 0.0) && InRange(Value(o.value))
          && (IsLarge(IdealPow(x, y.Floor)) ==> PowerClose(Value(o.value), IdealPow(x, y.Floor))))
  }

  lemma PowerNode(o: Outcome, l: Outcome, r: Outcome)
    requires l.Ok? && r.Ok? && InRange(Value(r.value))
    requires o == Sticky(l.inexact || r.inexact, Combine(Pow, l.value, r.value)) && (o.Ok? ==> InRange(Value(o.value)))
    ensures IsPowerOf(o, Value(l.value), Value(r.value))
  {
    SmallPowerIff(l.value, r.value);
    if o.Ok? { PowerIsClose(l.value, Value(r.value).Floor, PRECISION); }
  }
}
