/** `_checked`, `_eval` and `_evaluate` of `agents/calculator.py`: expression trees evaluated in a
    decimal context whose inexact flag, once raised, stays. */
module Calculator {
  import opened Powers
  import opened DecimalArithmetic
  import opened DecimalExactness

  const MAX_MAGNITUDE: Dec := Dec(false, 1, 24)
  const MAX_EXPONENT: int := 12

  datatype Op = Add | Sub | Mul | Div | FloorDiv | Mod | Pow

  /** What `ast.parse` yields; `Foreign` is any node the calculator does not know. */
  datatype Expr =
    | Num(literal: Dec)
    | Bin(op: Op, left: Expr, right: Expr)
    | Pos(operand: Expr)
    | Neg(operand: Expr)
    | Foreign

  // ------------------------------------------------------------ evaluation

  /** Comparing `abs(value)` rounds it, and may raise the flag; the value itself is kept. */
  function Checked(v: Dec): Outcome {
    var size := Fix(Abs(v), PRECISION);
    if size.Err? then size
    else if Value(size.value) > Value(MAX_MAGNITUDE) then Err(OutOfRange)
    else Ok(v, size.inexact)
  }

  predicate IsInteger(x: real) { x == x.Floor as real }

  function SmallPower(left: Dec, right: Dec): Outcome {
    var size := Fix(Abs(right), PRECISION);
    if size.Err? then size
    else if Value(size.value) > MAX_EXPONENT as real || !IsInteger(Value(right)) then Err(PowerNotSmall)
    else Sticky(size.inexact, Power(left, Value(right).Floor, PRECISION))
  }

  function Operate(op: Op, left: Dec, right: Dec): Outcome {
    match op
    case Add => DecimalArithmetic.Add(left, right, PRECISION)
    case Sub => Subtract(left, right, PRECISION)
    case Mul => Multiply(left, right, PRECISION)
    case Div => Divide(left, right, PRECISION)
    case FloorDiv => FloorDivide(left, right, PRECISION)
    case Mod => Remainder(left, right, PRECISION)
    case Pow => SmallPower(left, right)
  }

  /** A binary node whose operands are known. */
  function Combine(op: Op, left: Dec, right: Dec): Outcome {
    var r := Operate(op, left, right);
    if r.Err? then r else Sticky(r.inexact, Checked(r.value))
  }

  function Eval(e: Expr): Outcome {
    match e
    case Num(d) => Checked(d)
    case Bin(op, left, right) =>
      var l := Eval(left);
      if l.Err? then l else
      var r := Eval(right);
      if r.Err? then r else Sticky(l.inexact || r.inexact, Combine(op, l.value, r.value))
    case Pos(x) =>
      var v := Eval(x);
      if v.Err? then v else Sticky(v.inexact, Plus(v.value, PRECISION))
    case Neg(x) =>
      var v := Eval(x);
      if v.Err? then v else Sticky(v.inexact, Minus(v.value, PRECISION))
    case Foreign => Err(Malformed)
  }

  // ------------------------------------------------------------ the imperative evaluator

  datatype Node = Result(value: Dec) | Failed(error: CalcError)

  /** `localcontext()`: the flag every operation of one evaluation shares. */
  class Context {
    var inexact: bool

    constructor ()
      ensures !inexact
    {
      inexact := false;
    }

    /** An operation has run in this context. */
    method Signal(o: Outcome) returns (r: Node)
      modifies this
      ensures o.Ok? ==> r == Result(o.value) && inexact == (old(inexact) || o.inexact)
      ensures o.Err? ==> r == Failed(o.error) && inexact == old(inexact)
    {
      match o
      case Ok(v, raised) =>
        if raised { inexact := true; }
        r := Result(v);
      case Err(e) => r := Failed(e);
    }
  }

  /** `_eval`: walks the tree left to right, sharing the flag. */
  method EvalNode(ctx: Context, e: Expr) returns (r: Node)
    modifies ctx
    ensures Eval(e).Ok? ==> r == Result(Eval(e).value) && ctx.inexact == (old(ctx.inexact) || Eval(e).inexact)
    ensures Eval(e).Err? ==> r == Failed(Eval(e).error)
    decreases e
  {
    match e
    case Num(d) => r := ctx.Signal(Checked(d));
    case Bin(op, left, right) =>
      var l := EvalNode(ctx, left);
      if l.Failed? { return l; }
      var x := EvalNode(ctx, right);
      if x.Failed? { return x; }
      var o := ctx.Signal(Operate(op, l.value, x.value));
      if o.Failed? { return o; }
      r := ctx.Signal(Checked(o.value));
    case Pos(x) =>
      var v := EvalNode(ctx, x);
      if v.Failed? { return v; }
      r := ctx.Signal(Plus(v.value, PRECISION));
    case Neg(x) =>
      var v := EvalNode(ctx, x);
      if v.Failed? { return v; }
      r := ctx.Signal(Minus(v.value, PRECISION));
    case Foreign => r := Failed(Malformed);
  }

  /** `_evaluate` on a parsed expression: a fresh context, its flags clear. */
  method Evaluate(e: Expr) returns (r: Node, inexact: bool)
    ensures Eval(e).Ok? ==> r == Result(Eval(e).value) && inexact == Eval(e).inexact
    ensures Eval(e).Err? ==> r == Failed(Eval(e).error)
  {
    var ctx := new Context();
    r := EvalNode(ctx, e);
    inexact := ctx.inexact;
  }

  // ------------------------------------------------------------ exactness

  datatype Ideal = Defined(x: real) | Undefined

  /** The rational arithmetic an expression stands for. `//` and `%` are the decimal ones, which
      truncate towards zero. */
  function Meaning(e: Expr): Ideal {
    match e
    case Num(d) => Defined(Value(d))
    case Bin(op, left, right) =>
      var l, r := Meaning(left), Meaning(right);
      if l.Undefined? || r.Undefined? then Ideal.Undefined else MeaningOf(op, l.x, r.x)
    case Pos(x) => Meaning(x)
    case Neg(x) => if Meaning(x).Defined? then Defined(-Meaning(x).x) else Ideal.Undefined
    case Foreign => Ideal.Undefined
  }

  function MeaningOf(op: Op, l: real, r: real): Ideal {
    match op
    case Add => Defined(l + r)
    case Sub => Defined(l - r)
    case Mul => Defined(l * r)
    case Div => if r == 0.0 then Ideal.Undefined else Defined(l / r)
    case FloorDiv => if r == 0.0 then Ideal.Undefined else Defined(Truncate(l / r))
    case Mod => if r == 0.0 then Ideal.Undefined else Defined(IdealRest(l, r))
    case Pow =>
      if IsInteger(r) && (r > 0.0 || l != 0.0) then Defined(IdealPow(l, r.Floor)) else Ideal.Undefined
  }

  /** An operation that returns without the signal returns what it means. */
  predicate Means(op: Op, l: Dec, r: Dec) {
    Operate(op, l, r).Ok? && !Operate(op, l, r).inexact ==>
      MeaningOf(op, Value(l), Value(r)) == Defined(Value(Operate(op, l, r).value))
  }

  lemma SumsMean(l: Dec, r: Dec)
    ensures Means(Add, l, r) && Means(Sub, l, r)
  {
    AddExact(l, r, PRECISION);
  }

  lemma ProductMeans(l: Dec, r: Dec)
    ensures Means(Mul, l, r)
  {
    ProductIs(l, r, Value(l) * Value(r));
  }

  lemma ProductIs(l: Dec, r: Dec, product: real)
    requires product == Value(l) * Value(r)
    ensures ExactFor(Operate(Mul, l, r), product)
  {
    MultiplyExact(l, r, PRECISION, product);
  }

  lemma QuotientMeans(l: Dec, r: Dec)
    ensures Means(Div, l, r)
  {
    DivideExact(l, r, PRECISION);
  }

  lemma FloorMeans(l: Dec, r: Dec)
    ensures Means(FloorDiv, l, r)
  {
    FloorDivideExact(l, r, PRECISION);
  }

  lemma RestMeans(l: Dec, r: Dec)
    ensures Means(Mod, l, r)
  {
    RemainderExact(l, r, PRECISION);
  }

  lemma PowerMeans(l: Dec, r: Dec)
    ensures Means(Pow, l, r)
  {
    PowerExact(l, Value(r).Floor, PRECISION);
  }

  lemma OperateExact(op: Op, l: Dec, r: Dec)
    ensures Means(op, l, r)
  {
    match op
    case Add => SumsMean(l, r);
    case Sub => SumsMean(l, r);
    case Mul => ProductMeans(l, r);
    case Div => QuotientMeans(l, r);
    case FloorDiv => FloorMeans(l, r);
    case Mod => RestMeans(l, r);
    case Pow => PowerMeans(l, r);
  }

  lemma BinExact(op: Op, left: Expr, right: Expr)
    requires Eval(Bin(op, left, right)).Ok? && !Eval(Bin(op, left, right)).inexact
    ensures Eval(left).Ok? && !Eval(left).inexact && Eval(right).Ok? && !Eval(right).inexact
    ensures MeaningOf(op, Value(Eval(left).value), Value(Eval(right).value))
            == Defined(Value(Eval(Bin(op, left, right)).value))
  {
    OperateExact(op, Eval(left).value, Eval(right).value);
  }

  lemma SignsExact(x: Expr)
    ensures Eval(Pos(x)).Ok? && !Eval(Pos(x)).inexact ==>
              Eval(x).Ok? && !Eval(x).inexact && Value(Eval(Pos(x)).value) == Value(Eval(x).value)
    ensures Eval(Neg(x)).Ok? && !Eval(Neg(x)).inexact ==>
              Eval(x).Ok? && !Eval(x).inexact && Value(Eval(Neg(x)).value) == -Value(Eval(x).value)
  {
    if Eval(x).Ok? { SignExact(Eval(x).value, PRECISION); }
  }

  /** Whenever an evaluation does not report inexact, its value is exactly what the tree means. */
  lemma {:induction false} EvalExact(e: Expr)
    requires Eval(e).Ok? && !Eval(e).inexact
    ensures Meaning(e) == Defined(Value(Eval(e).value))
  {
    match e
    case Num(_) =>
    case Bin(op, left, right) =>
      BinExact(op, left, right);
      EvalExact(left);
      EvalExact(right);
    case Pos(x) =>
      SignsExact(x);
      EvalExact(x);
    case Neg(x) =>
      SignsExact(x);
      EvalExact(x);
  }
}
