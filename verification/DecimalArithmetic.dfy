/** The decimal arithmetic `agents/calculator.py` computes with: Python's `decimal` at 34 digits,
    rounding half to even (section 4.3.1 of IEEE 754-2008) and reporting the inexact signal
    (section 7.6). Every operation returns its result with the signal, or the trapped error. */
module DecimalArithmetic {
  import opened Powers

  const PRECISION: nat := 34
  const EMAX: int := 999999
  const EMIN: int := -999999

  datatype CalcError = Ambiguous | Malformed | OutOfRange | PowerNotSmall | Undefined

  /** A finite decimal: sign, digits and exponent. Zero keeps its sign. */
  datatype Dec = Dec(neg: bool, coef: nat, exp: int)

  datatype Outcome = Ok(value: Dec, inexact: bool) | Err(error: CalcError)

  function Signed(d: Dec): int { if d.neg then -(d.coef as int) else d.coef }

  function Value(d: Dec): real { Shift(Signed(d), d.exp) }

  function Abs(d: Dec): Dec { d.(neg := false) }

  function Min(a: int, b: int): int { if a < b then a else b }

  function Max(a: int, b: int): int { if a < b then b else a }

  // ------------------------------------------------------------ rounding

  function Etiny(prec: nat): int { EMIN - (prec - 1) }

  function Etop(prec: nat): int { EMAX - (prec - 1) }

  function HalfEven(q: nat, r: nat, m: nat): nat {
    if 2 * r > m || (2 * r == m && q % 2 == 1) then q + 1 else q
  }

  /** The exponent a nonzero number is rounded to: the one that leaves `prec` digits. */
  function TargetExp(d: Dec, prec: nat): int {
    Max(NumDigits(d.coef) + d.exp - prec, Etiny(prec))
  }

  /** Rounding to the context: `Decimal._fix`. */
  function Fix(d: Dec, prec: nat): Outcome
    requires prec >= 1
  {
    if d.coef == 0 then Ok(d.(exp := Min(Max(d.exp, Etiny(prec)), EMAX)), false)
    else if NumDigits(d.coef) + d.exp - prec > Etop(prec) then Err(Undefined)
    else if TargetExp(d, prec) <= d.exp then Ok(d, false)
    else
      var to := TargetExp(d, prec);
      var m := TenTo(to - d.exp);
      var q, rest := Quot(d.coef, m), Rest(d.coef, m);
      var rounded := HalfEven(q, rest, m);
      if rounded < TenTo(prec) then Ok(Dec(d.neg, rounded, to), rest != 0)
      else if to + 1 > Etop(prec) then Err(Undefined)
      else Ok(Dec(d.neg, rounded / 10, to + 1), rest != 0)
  }

  // ------------------------------------------------------------ operations

  /** Zero loses its sign before rounding. */
  function Plus(d: Dec, prec: nat): Outcome
    requires prec >= 1
  {
    Fix(if d.coef == 0 then Abs(d) else d, prec)
  }

  function Minus(d: Dec, prec: nat): Outcome
    requires prec >= 1
  {
    Fix(if d.coef == 0 then Abs(d) else d.(neg := !d.neg), prec)
  }

  /** The integer that `d` is at the exponent `exp` or below. */
  function Scaled(d: Dec, exp: int): int
    requires exp <= d.exp
  {
    Signed(d) * TenTo(d.exp - exp)
  }

  function Magnitude(d: Dec, exp: int): (m: nat)
    requires exp <= d.exp
    ensures d.coef > 0 ==> m > 0
  {
    MulPositive(d.coef, TenTo(d.exp - exp));
    d.coef * TenTo(d.exp - exp)
  }

  lemma MulPositive(a: nat, b: nat)
    ensures a * b >= 0
    ensures a > 0 && b > 0 ==> a * b > 0
  {
  }

  function FromSigned(n: int, exp: int, negZero: bool): Dec {
    if n < 0 then Dec(true, -n, exp) else Dec(n == 0 && negZero, n, exp)
  }

  function Sum(a: Dec, b: Dec): Dec {
    var exp := Min(a.exp, b.exp);
    FromSigned(Scaled(a, exp) + Scaled(b, exp), exp, a.neg && b.neg)
  }

  function Product(a: Dec, b: Dec): Dec {
    MulPositive(a.coef, b.coef);
    Dec(a.neg != b.neg, a.coef * b.coef, a.exp + b.exp)
  }

  function Add(a: Dec, b: Dec, prec: nat): Outcome
    requires prec >= 1
  {
    Fix(Sum(a, b), prec)
  }

  function Subtract(a: Dec, b: Dec, prec: nat): Outcome
    requires prec >= 1
  {
    Fix(Sum(a, b.(neg := !b.neg)), prec)
  }

  function Multiply(a: Dec, b: Dec, prec: nat): Outcome
    requires prec >= 1
  {
    Fix(Product(a, b), prec)
  }

  /** Drop factors of ten while the exponent is below the ideal one. */
  function TowardsIdeal(coef: nat, exp: int, ideal: int): (int, nat)
    decreases ideal - exp
  {
    if exp < ideal && coef % 10 == 0 then TowardsIdeal(coef / 10, exp + 1, ideal) else (exp, coef)
  }

  /** How many places further than the integers a division is carried. */
  function DivShift(a: nat, b: nat, prec: nat): int {
    NumDigits(b) - NumDigits(a) + prec + 1
  }

  function Numerator(a: nat, shift: int): nat {
    if shift >= 0 then Magnitude(Dec(false, a, shift), 0) else a
  }

  function Denominator(b: nat, shift: int): (d: nat)
    ensures b > 0 ==> d > 0
  {
    if shift >= 0 then b else Magnitude(Dec(false, b, -shift), 0)
  }

  /** Division: a quotient of more than `prec` digits, made sticky when something is left over. */
  function Divide(a: Dec, b: Dec, prec: nat): Outcome
    requires prec >= 1
  {
    if b.coef == 0 then Err(Undefined)
    else if a.coef == 0 then Fix(Dec(a.neg != b.neg, 0, a.exp - b.exp), prec)
    else
      var shift := DivShift(a.coef, b.coef, prec);
      DivideAt(a.neg != b.neg, Numerator(a.coef, shift), Denominator(b.coef, shift),
               a.exp - b.exp - shift, a.exp - b.exp, prec)
  }

  /** Something is left over: the last digit must not be a 0 or a 5, which would round as if exact. */
  function StickyDigit(q: nat): (s: nat)
    ensures s % 5 != 0 && q <= s <= q + 1
  {
    if q % 5 == 0 then q + 1 else q
  }

  function DivideAt(neg: bool, num: nat, den: nat, exp: int, ideal: int, prec: nat): Outcome
    requires prec >= 1 && den >= 1
  {
    var q := Quot(num, den);
    if Rest(num, den) != 0 then Fix(Dec(neg, StickyDigit(q), exp), prec)
    else
      var (exp', q') := TowardsIdeal(q, exp, ideal);
      Fix(Dec(neg, q', exp'), prec)
  }

  /** `//` truncates towards zero; a quotient longer than the precision is refused. */
  function FloorDivide(a: Dec, b: Dec, prec: nat): Outcome
    requires prec >= 1
  {
    if b.coef == 0 then Err(Undefined)
    else
      var exp := Min(a.exp, b.exp);
      var q := Quot(Magnitude(a, exp), Magnitude(b, exp));
      if q < TenTo(prec) then Ok(Dec(a.neg != b.neg, q, 0), false) else Err(Undefined)
  }

  /** `%`: what `//` leaves over, with the sign of the dividend. */
  function Remainder(a: Dec, b: Dec, prec: nat): Outcome
    requires prec >= 1
  {
    if b.coef == 0 then Err(Undefined)
    else
      var exp := Min(a.exp, b.exp);
      var x, y := Magnitude(a, exp), Magnitude(b, exp);
      if Quot(x, y) < TenTo(prec) then Fix(Dec(a.neg, Rest(x, y), exp), prec) else Err(Undefined)
  }

  /** The inexact signal is sticky: once raised it stays. */
  function Sticky(raised: bool, o: Outcome): Outcome {
    if o.Ok? then o.(inexact := raised || o.inexact) else o
  }

  /** One step of a power by squaring, every product rounded. */
  function SquareUp(half: Dec, base: Dec, odd: bool, prec: nat): Outcome
    requires prec >= 1
  {
    var square := Multiply(half, half, prec);
    if square.Ok? && odd then Sticky(square.inexact, Multiply(square.value, base, prec)) else square
  }

  /** A positive integer power by squaring. */
  function PowerUp(base: Dec, n: nat, prec: nat): Outcome
    requires prec >= 1 && n >= 1
  {
    if n == 1 then Ok(base, false)
    else
      var half := PowerUp(base, n / 2, prec);
      if half.Ok? then Sticky(half.inexact, SquareUp(half.value, base, n % 2 == 1, prec)) else half
  }

  /** A power taken with `work` digits and rounded at the end. */
  function PowerRounded(base: Dec, n: nat, work: nat, prec: nat): Outcome
    requires prec >= 1 && work >= 1 && n >= 1
  {
    var p := PowerUp(base, n, work);
    if p.Ok? then Sticky(p.inexact, Fix(p.value, prec)) else p
  }

  const One: Dec := Dec(false, 1, 0)

  /** An integer power: a few extra digits on the way, the inverse first when it is negative. */
  function Power(base: Dec, n: int, prec: nat): Outcome
    requires prec >= 1
  {
    if n == 0 then (if base.coef == 0 then Err(Undefined) else Ok(One, false))
    else if n > 0 then PowerRounded(base, n, prec + NumDigits(n) + 2, prec)
    else if base.coef == 0 then Err(OutOfRange)
    else
      var work := prec + NumDigits(-n) + 3;
      var inverse := Divide(One, base, work);
      if inverse.Ok? then Sticky(inverse.inexact, PowerRounded(inverse.value, -n, work, prec)) else inverse
  }

  // ------------------------------------------------------------ exactness

  lemma ScaledValue(d: Dec, exp: int)
    requires exp <= d.exp
    ensures Shift(Scaled(d, exp), exp) == Value(d)
  {
    ShiftRescale(Signed(d), exp, d.exp - exp);
  }

  /** Fewer digits to keep than the precision holds. */
  lemma KeptDigits(coef: nat, drop: nat, prec: nat)
    requires prec >= 1 && NumDigits(coef) <= prec + drop
    ensures Quot(coef, TenTo(drop)) < TenTo(prec)
  {
    DigitsUpTo(coef, prec + drop);
    TenToAdd(prec, drop);
    QuotRest(coef, TenTo(drop));
    if Quot(coef, TenTo(drop)) > TenTo(prec) {
      MulLess(TenTo(prec), Quot(coef, TenTo(drop)), TenTo(drop));
    }
  }

  /** Dropping zeros changes nothing. */
  lemma DroppedZeros(neg: bool, coef: nat, exp: int, q: nat, drop: nat)
    requires coef == q * TenTo(drop)
    ensures Value(Dec(neg, q, exp + drop)) == Value(Dec(neg, coef, exp))
  {
    var n: int := if neg then -(q as int) else q;
    NegatedProduct(q, TenTo(drop), coef);
    ShiftRescale(n, exp, drop);
  }

  lemma NegatedProduct(q: int, m: int, product: int)
    requires product == q * m
    ensures (-q) * m == -product
  {
  }

  lemma RoundedExact(d: Dec, prec: nat, drop: nat)
    requires prec >= 1 && d.coef > 0 && drop == TargetExp(d, prec) - d.exp && drop > 0
    requires Fix(d, prec).Ok? && !Fix(d, prec).inexact
    ensures Rest(d.coef, TenTo(drop)) == 0
    ensures Fix(d, prec).value == Dec(d.neg, Quot(d.coef, TenTo(drop)), d.exp + drop)
  {
    KeptDigits(d.coef, drop, prec);
  }

  /** Rounding without the inexact signal changes nothing. */
  lemma FixExact(d: Dec, prec: nat)
    requires prec >= 1 && Fix(d, prec).Ok? && !Fix(d, prec).inexact
    ensures Value(Fix(d, prec).value) == Value(d)
  {
    if d.coef == 0 {
      ShiftPositive(0, d.exp);
      ShiftPositive(0, Fix(d, prec).value.exp);
    } else if TargetExp(d, prec) > d.exp {
      var drop := TargetExp(d, prec) - d.exp;
      RoundedExact(d, prec, drop);
      QuotRest(d.coef, TenTo(drop));
      DroppedZeros(d.neg, d.coef, d.exp, Quot(d.coef, TenTo(drop)), drop);
    }
  }
}
