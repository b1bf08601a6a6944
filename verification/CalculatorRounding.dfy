/** Every node of an expression is rounded once: its value is the number nearest to what the operation
    means on the values of its operands, and it has one exactly when that is defined and in range. */
module CalculatorRounding {
  import opened Powers
  import opened DecimalArithmetic
  import opened DecimalExactness
  import opened DecimalRounding
  import opened DecimalOverflow
  import opened Calculator
  import opened CalculatorBounds

  predicate InRange(x: real) { AbsReal(x) <= LIMIT }

  /** `d` is `x`, or the nearest number to it. */
  ghost predicate Represents(d: Dec, x: real) {
    Held(d, PRECISION) && (Value(d) == x || Rounds(x, d, PRECISION))
  }

  // ------------------------------------------------------------ rounding against the bound

  /** The next number after the bound. */
  const NextNumber: Dec := Dec(false, TenTo(33) + 1, -9)

  lemma NumbersAtBound()
    ensures Held(MAX_MAGNITUDE, PRECISION) && Value(MAX_MAGNITUDE) == BOUND
    ensures Held(NextNumber, PRECISION)
    ensures BOUND < LIMIT < Value(NextNumber) && Value(NextNumber) - LIMIT == LIMIT - BOUND
  {
    BoundIsMaxMagnitude();
    AroundLimit(TenTo(33), TenTo(34), -10, BOUND, LIMIT, Value(NextNumber));
    BoundsAreHeld();
  }

  /** The limit lies halfway between the bound and the next number. */
  lemma AroundLimit(n: nat, m: nat, e: int, bound: real, limit: real, next: real)
    requires m == 10 * n && bound == Shift(m, e) && limit == Shift(m + 5, e) && next == Shift(n + 1, e + 1)
    ensures bound < limit < next && next - limit == limit - bound
  {
    Steps(n, m, e);
  }

  lemma BoundsAreHeld()
    ensures Held(MAX_MAGNITUDE, PRECISION) && Held(NextNumber, PRECISION) && Value(NextNumber) == Shift(TenTo(33) + 1, -9)
  {
    assert 1 < TenTo(34) && TenTo(34) == 10 * TenTo(33);
  }

  lemma Steps(n: nat, m: nat, e: int)
    requires m == 10 * n
    ensures Shift(m, e) < Shift(m + 5, e) < Shift(n + 1, e + 1)
    ensures Shift(n + 1, e + 1) - Shift(m + 5, e) == Shift(m + 5, e) - Shift(m, e)
  {
    ShiftTen(n + 1, e);
    ShiftAdd(m, 5, e);
    ShiftAdd(m + 5, 5, e);
    ShiftPositive(5, e);
  }

  /** A number beyond the limit is not before the next number, and odd if it is that one. */
  lemma BeyondLimit(d: Dec)
    requires Held(d, PRECISION) && Value(d) > LIMIT
    ensures Value(d) >= Value(NextNumber) && (Value(d) == Value(NextNumber) ==> d.coef % 2 == 1)
  {
    PositiveValue(d);
    BoundsAreHeld();
    BeyondAt(d.coef, d.exp);
  }

  lemma BeyondAt(c: nat, e: int)
    requires c < TenTo(PRECISION) && Shift(c, e) > LIMIT
    ensures Shift(c, e) >= Shift(TenTo(33) + 1, -9)
    ensures Shift(c, e) == Shift(TenTo(33) + 1, -9) ==> c % 2 == 1
  {
    if e <= -10 { FarBelow(c, e); } else { BeyondTenths(c, e); }
  }

  lemma PositiveValue(d: Dec)
    requires Value(d) > LIMIT
    ensures Value(d) == Shift(d.coef, d.exp)
  {
    LimitIsPositive();
    SignedValue(d);
  }

  lemma LimitIsPositive()
    ensures LIMIT > 0.0
  {
    ShiftPositive(TenTo(34) + 5, -10);
  }

  lemma BeyondTenths(c: nat, e: int)
    requires e >= -9 && Shift(c, e) > LIMIT
    ensures Shift(c, e) >= Shift(TenTo(33) + 1, -9)
    ensures Shift(c, e) == Shift(TenTo(33) + 1, -9) ==> c % 2 == 1
  {
    var n := InTenths(c, e);
    AtTenth(n);
    OddPlace(c, e, n, TenTo(33), TenTo(32), -9);
  }

  lemma NotTens(n: nat, tenth: nat)
    requires n == 10 * tenth + 1
    ensures n % 10 != 0
  {
  }

  lemma OddPlace(c: nat, e: int, n: nat, m: nat, tenth: nat, to: int)
    requires n > m && m == 10 * tenth && (if e == to then n == c else n % 10 == 0)
    ensures Shift(n, to) >= Shift(m + 1, to)
    ensures Shift(n, to) == Shift(m + 1, to) ==> c % 2 == 1
  {
    ShiftOrder(n, m + 1, to);
    if n == m + 1 {
      NotTens(n, tenth);
      OddNumber(n, 5 * tenth);
    }
  }

  /** A number the context holds is at most the limit exactly if it is at most the bound. */
  lemma HeldRange(d: Dec)
    requires Held(d, PRECISION)
    ensures AbsReal(Value(d)) <= LIMIT <==> AbsReal(Value(d)) <= BOUND
  {
    SignedValue(d);
    ShortLimit(d.coef, d.exp);
  }

  /** Rounding does not cross the limit. */
  lemma SizeRange(x: real, d: Dec)
    requires x >= 0.0 && Value(d) >= 0.0 && Rounds(x, d, PRECISION)
    ensures x <= LIMIT <==> Value(d) <= LIMIT
  {
    NumbersAtBound();
    HeldRange(d);
    if Value(d) > LIMIT {
      BeyondLimit(d);
      assert Distance(x, d) <= Distance(x, MAX_MAGNITUDE);
    } else {
      assert Distance(x, d) <= Distance(x, NextNumber);
    }
  }

  lemma SignKept(x: real, d: Dec)
    requires x >= 0.0 && Rounds(x, d, PRECISION)
    ensures Value(d) >= 0.0
  {
    var zero := Dec(false, 0, 0);
    SignedValue(zero);
    assert Held(zero, PRECISION);
    assert Distance(x, d) <= Distance(x, zero);
  }

  lemma RoundedRange(x: real, d: Dec)
    requires Represents(d, x)
    ensures InRange(x) <==> InRange(Value(d))
  {
    if Value(d) != x {
      if x >= 0.0 {
        PositiveRange(x, d);
      } else {
        NegateRounds(x, d, PRECISION);
        SignedValue(d);
        PositiveRange(-x, d.(neg := !d.neg));
      }
    }
  }

  lemma PositiveRange(x: real, d: Dec)
    requires x >= 0.0 && Rounds(x, d, PRECISION)
    ensures Value(d) >= 0.0 && (x <= LIMIT <==> Value(d) <= LIMIT)
  {
    SignKept(x, d);
    SizeRange(x, d);
  }

  lemma InRangeIsNotTooLarge(x: real)
    requires InRange(x)
    ensures !TooLarge(x, PRECISION)
  {
    FarAbove(TenTo(33), -8);
    ShiftTen(TenTo(33), -9);
    BelowFiner(AbsReal(x), -9, PRECISION);
    TooLargeSize(x, PRECISION);
  }

  // ------------------------------------------------------------ one node

  /** The operation has a value on those of its operands. */
  predicate Defined(op: Op, x: real, y: real)
    requires !op.Pow?
  {
    (op.Div? ==> y != 0.0) && (op.FloorDiv? || op.Mod? ==> y != 0.0 && ShortQuotient(x, y, PRECISION))
  }

  /** What it is. */
  function Ideally(op: Op, x: real, y: real): real
    requires !op.Pow? && Defined(op, x, y)
  {
    match op
    case Add => x + y
    case Sub => x - y
    case Mul => x * y
    case Div => x / y
    case FloorDiv => Truncate(x / y)
    case Mod => x - y * Truncate(x / y)
  }

  /** There is an answer exactly when `x` is in range: the nearest number, flagged if it is not `x`. */
  ghost predicate IsAnswer(o: Outcome, x: real) {
    && (o.Ok? <==> InRange(x))
    && (o.Ok? ==> Represents(o.value, x) && (o.inexact <==> Value(o.value) != x))
  }

  /** The outcome is what the node should give on operands `x` and `y`. */
  ghost predicate Answers(o: Outcome, op: Op, x: real, y: real)
    requires !op.Pow?
  {
    if Defined(op, x, y) then IsAnswer(o, Ideally(op, x, y)) else o.Err?
  }

  /** Before it is compared with the bound. */
  ghost predicate Operates(o: Outcome, op: Op, x: real, y: real)
    requires !op.Pow?
  {
    if Defined(op, x, y) then AnswersTo(o, Ideally(op, x, y), PRECISION) else o.Err?
  }

  ghost predicate OperationAnswers(op: Op, l: Dec, r: Dec)
    requires !op.Pow?
  {
    Operates(Operate(op, l, r), op, Value(l), Value(r))
  }

  lemma SumsAnswer(l: Dec, r: Dec)
    ensures OperationAnswers(Add, l, r) && OperationAnswers(Sub, l, r)
  {
    AddAnswers(l, r, PRECISION);
  }

  lemma ProductAnswers(l: Dec, r: Dec)
    ensures OperationAnswers(Mul, l, r)
  {
    ProductOperates(l, r, Value(l), Value(r), Value(l) * Value(r));
  }

  lemma ProductOperates(l: Dec, r: Dec, x: real, y: real, product: real)
    requires x == Value(l) && y == Value(r) && product == x * y
    ensures Operates(Operate(Mul, l, r), Mul, x, y)
  {
    MultiplyAnswers(l, r, PRECISION, product);
    ProductIdeal(Multiply(l, r, PRECISION), x, y, product);
  }

  lemma ProductIdeal(o: Outcome, x: real, y: real, product: real)
    requires product == x * y && AnswersTo(o, product, PRECISION)
    ensures Operates(o, Mul, x, y)
  {
  }

  lemma QuotientAnswers(l: Dec, r: Dec)
    ensures OperationAnswers(Div, l, r)
  {
    DivideAnswers(l, r, PRECISION);
  }

  lemma FloorAnswers(l: Dec, r: Dec)
    ensures OperationAnswers(FloorDiv, l, r)
  {
    FloorDivideAnswers(l, r, PRECISION);
    if Value(r) != 0.0 && ShortQuotient(Value(l), Value(r), PRECISION) {
      IntegerIsNotTooLarge(Truncate(Value(l) / Value(r)));
    }
  }

  lemma IntegerIsNotTooLarge(x: real)
    requires AbsReal(x) < TenTo(PRECISION) as real
    ensures !TooLarge(x, PRECISION)
  {
    BelowFiner(AbsReal(x), 0, PRECISION);
    TooLargeSize(x, PRECISION);
  }

  lemma RestAnswers(l: Dec, r: Dec)
    ensures OperationAnswers(Mod, l, r)
  {
    RemainderAnswers(l, r, PRECISION);
  }

  lemma OperateAnswers(op: Op, l: Dec, r: Dec)
    requires !op.Pow?
    ensures OperationAnswers(op, l, r)
  {
    match op
    case Add => SumsAnswer(l, r);
    case Sub => SumsAnswer(l, r);
    case Mul => ProductAnswers(l, r);
    case Div => QuotientAnswers(l, r);
    case FloorDiv => FloorAnswers(l, r);
    case Mod => RestAnswers(l, r);
  }

  /** The comparison with the bound adds nothing but the bound. */
  lemma CheckedAnswers(o: Outcome, x: real)
    requires AnswersTo(o, x, PRECISION)
    ensures IsAnswer(if o.Err? then o else Sticky(o.inexact, Checked(o.value)), x)
  {
    if InRange(x) { InRangeIsNotTooLarge(x); }
    if o.Ok? {
      CheckedIff(o.value);
      RoundedRange(x, o.value);
      if Checked(o.value).Ok? { CheckedFits(o.value); }
    }
  }

  ghost predicate NodeAnswers(op: Op, l: Dec, r: Dec)
    requires !op.Pow?
  {
    Answers(Combine(op, l, r), op, Value(l), Value(r))
  }

  lemma CombineAnswers(op: Op, l: Dec, r: Dec)
    requires !op.Pow?
    ensures NodeAnswers(op, l, r)
  {
    OperateAnswers(op, l, r);
    CheckedNode(op, Operate(op, l, r), Value(l), Value(r));
  }

  lemma CheckedNode(op: Op, o: Outcome, x: real, y: real)
    requires !op.Pow? && Operates(o, op, x, y)
    ensures Answers(if o.Err? then o else Sticky(o.inexact, Checked(o.value)), op, x, y)
  {
    if Defined(op, x, y) { CheckedAnswers(o, Ideally(op, x, y)); }
  }

  /** Something that is neither a number, an operation nor a sign. */
  predicate HasForeign(e: Expr) {
    match e
    case Num(_) => false
    case Bin(_, left, right) => HasForeign(left) || HasForeign(right)
    case Pos(x) => HasForeign(x)
    case Neg(x) => HasForeign(x)
    case Foreign => true
  }

  lemma {:induction false} PowerUpFails(base: Dec, n: nat, prec: nat)
    requires prec >= 1 && n >= 1
    ensures PowerUp(base, n, prec).Err? ==> PowerUp(base, n, prec) == Err(DecimalArithmetic.Undefined)
    decreases n
  {
    if n > 1 { PowerUpFails(base, n / 2, prec); }
  }

  lemma PowerFails(base: Dec, n: int)
    ensures Power(base, n, PRECISION) != Err(Malformed)
  {
    if n > 0 {
      PowerUpFails(base, n, PRECISION + NumDigits(n) + 2);
    } else if n < 0 && base.coef != 0 {
      var work := PRECISION + NumDigits(-n) + 3;
      if Divide(One, base, work).Ok? { PowerUpFails(Divide(One, base, work).value, -n, work); }
    }
  }

  lemma OperationFails(op: Op, l: Dec, r: Dec)
    ensures Combine(op, l, r) != Err(Malformed)
  {
    if op.Pow? { PowerFails(l, Value(r).Floor); }
  }

  /** Such an expression is refused, and only such a one as malformed. */
  lemma {:induction false} ForeignIsRefused(e: Expr)
    ensures HasForeign(e) ==> Eval(e).Err?
    ensures !HasForeign(e) ==> Eval(e) != Err(Malformed)
    ensures Eval(Foreign) == Err(Malformed)
  {
    match e
    case Num(_) =>
    case Bin(op, left, right) =>
      ForeignIsRefused(left);
      ForeignIsRefused(right);
      if Eval(left).Ok? && Eval(right).Ok? { OperationFails(op, Eval(left).value, Eval(right).value); }
    case Pos(x) => ForeignIsRefused(x);
    case Neg(x) => ForeignIsRefused(x);
    case Foreign =>
  }

  /** A binary node has a value exactly when its operands have one, the operation is defined on them and
      what it means is in range; the value is the nearest number, and the flag tells whether that or
      anything below rounded. */
  lemma BinaryRounds(op: Op, left: Expr, right: Expr)
    requires !op.Pow?
    ensures var o, l, r := Eval(Bin(op, left, right)), Eval(left), Eval(right);
            if l.Err? || r.Err? then o.Err?
            else
              var x, y := Value(l.value), Value(r.value);
              && (o.Ok? <==> Defined(op, x, y) && InRange(Ideally(op, x, y)))
              && (o.Ok? ==>
                    && Represents(o.value, Ideally(op, x, y))
                    && (o.inexact <==> l.inexact || r.inexact || Value(o.value) != Ideally(op, x, y)))
  {
    var l, r := Eval(left), Eval(right);
    if l.Ok? && r.Ok? { CombineAnswers(op, l.value, r.value); }
  }

  /** What the signs of an operand should give: it, and its negation, rounded. */
  ghost predicate SignsAnswer(v: Outcome, pos: Outcome, neg: Outcome) {
    && pos.Ok? == neg.Ok? == v.Ok?
    && (v.Ok? ==> Represents(pos.value, Value(v.value)) && Represents(neg.value, -Value(v.value)))
  }

  /** A sign rounds its operand, which changes nothing but a literal that is too long. */
  lemma SignRounds(operand: Expr)
    ensures SignsAnswer(Eval(operand), Eval(Pos(operand)), Eval(Neg(operand)))
  {
    if Eval(operand).Ok? { EvalInRange(operand); }
    SignNode(Eval(operand), Eval(Pos(operand)), Eval(Neg(operand)));
  }

  lemma SignNode(v: Outcome, pos: Outcome, neg: Outcome)
    requires v.Ok? ==> InRange(Value(v.value))
    requires pos == if v.Err? then v else Sticky(v.inexact, Plus(v.value, PRECISION))
    requires neg == if v.Err? then v else Sticky(v.inexact, Minus(v.value, PRECISION))
    ensures SignsAnswer(v, pos, neg)
  {
    if v.Ok? { SignRepresents(v.value); }
  }

  lemma SignRepresents(d: Dec)
    requires InRange(Value(d))
    ensures Plus(d, PRECISION).Ok? && Represents(Plus(d, PRECISION).value, Value(d))
    ensures Minus(d, PRECISION).Ok? && Represents(Minus(d, PRECISION).value, -Value(d))
  {
    InRangeIsNotTooLarge(Value(d));
    InRangeIsNotTooLarge(-Value(d));
    SignAnswers(d, PRECISION);
  }

  lemma EvalInRange(e: Expr)
    requires Eval(e).Ok?
    ensures InRange(Value(Eval(e).value))
  {
    EvalBounded(e);
    BoundBelowLimit();
  }
}
