/** What the calculator prints is what it would read: an exact result, fed back, gives the same
    number, or the complaint that it is ambiguous, never another number. */
module CalculatorReadback {
  import opened Options
  import opened Powers
  import opened DecimalArithmetic
  import opened DecimalExactness
  import opened DecimalRounding
  import opened NumberText
  import opened Calculator
  import opened CalculatorBounds
  import opened CalculatorText
  import opened NormalizeNumbers

  // ------------------------------------------------------------ what is printed

  /** An unsigned number as printed: whole part, decimals that do not end in zero, and its size. */
  predicate Parts(whole: string, frac: string, size: real) {
    && AllDigits(whole) && AllDigits(frac) && AllDigits(whole + frac)
    && NoLeadingZero(whole) && (frac != [] ==> frac[|frac| - 1] != '0')
    && size == Shift(ReadDigits(whole + frac), -|frac|)
  }

  lemma {:induction false} RStripBehind(p: string, t: string, c: char)
    requires RStrip(t, c) != []
    ensures RStrip(p + t, c) == p + RStrip(t, c)
    decreases |t|
  {
    if t[|t| - 1] == c {
      assert (p + t)[..|p + t| - 1] == p + t[..|t| - 1];
      RStripBehind(p, t[..|t| - 1], c);
    }
  }

  lemma PaddedReads(n: nat, k: nat)
    requires k >= 1
    ensures AllDigits(Padded(n, k)) && ReadDigits(Padded(n, k)) == n
    ensures NoLeadingZero(Padded(n, k)[..|Padded(n, k)| - k])
  {
    DigitsReadBack(n);
    if |Digits(n)| <= k { ZerosInFront(k + 1 - |Digits(n)|, Digits(n)); }
  }

  lemma ZerosInFront(k: nat, t: string)
    requires AllDigits(t)
    ensures AllDigits(Zeros(k) + t) && ReadDigits(Zeros(k) + t) == ReadDigits(t)
  {
    ReadZeros(k);
    ReadConcat(Zeros(k), t);
  }

  lemma WholeReads(n: nat, k: nat)
    requires n > 0
    ensures Parts(Digits(n) + Zeros(k), "", Shift(n, k))
  {
    DigitsReadBack(n);
    ReadZeros(k);
    ReadConcat(Digits(n), Zeros(k));
    ShiftRescale(n, 0, k);
    assert Digits(n) + Zeros(k) + "" == Digits(n) + Zeros(k);
  }

  lemma NoPoint(t: string)
    requires AllDigits(t)
    ensures '.' !in t
  {
  }

  /** Numbers printed without a point. */
  lemma WholeShape(v: Dec) returns (whole: string)
    requires v.exp >= 0
    ensures FormatPlain(v) == MinusSign(v.neg) + whole && '.' !in FormatPlain(v)
    ensures Parts(whole, "", Shift(v.coef, v.exp))
  {
    if v.coef == 0 {
      whole := "0";
      assert whole + "" == whole;
      ShiftPositive(0, v.exp);
      assert Shift(ReadDigits("0"), 0) == 0.0;
    } else {
      whole := Digits(v.coef) + Zeros(v.exp);
      WholeReads(v.coef, v.exp);
    }
    NoPoint(whole);
  }

  lemma PaddedSplits(n: nat, k: nat) returns (whole: string, decimals: string)
    requires k >= 1
    ensures Padded(n, k) == whole + decimals && |decimals| == k
    ensures AllDigits(whole + decimals) && NoLeadingZero(whole) && ReadDigits(whole + decimals) == n
  {
    var digits := Padded(n, k);
    PaddedReads(n, k);
    whole, decimals := digits[..|digits| - k], digits[|digits| - k..];
    assert whole + decimals == digits;
  }

  lemma PointInside(sign: string, whole: string, decimals: string)
    ensures '.' in sign + (whole + ['.'] + decimals)
  {
    assert (sign + (whole + ['.'] + decimals))[|sign| + |whole|] == '.';
  }

  /** Numbers printed with a point, after their zeros are stripped. */
  lemma DecimalShape(v: Dec) returns (whole: string, frac: string)
    requires v.exp < 0
    ensures RStrip(RStrip(FormatPlain(v), '0'), '.') == MinusSign(v.neg) + Plain(whole, frac)
    ensures Parts(whole, frac, Shift(v.coef, v.exp))
    ensures '.' in FormatPlain(v)
  {
    var decimals;
    whole, decimals := PaddedSplits(v.coef, -v.exp);
    PlainText(v, whole, decimals);
    PointInside(MinusSign(v.neg), whole, decimals);
    frac := DecimalParts(whole, decimals, v.coef);
    StripSigned(v.neg, whole, decimals);
  }

  lemma PlainText(v: Dec, whole: string, decimals: string)
    requires v.exp < 0 && |decimals| == -v.exp && Padded(v.coef, -v.exp) == whole + decimals
    ensures FormatPlain(v) == MinusSign(v.neg) + (whole + ['.'] + decimals)
  {
    var digits := Padded(v.coef, -v.exp);
    assert digits[..|digits| + v.exp] == whole && digits[|digits| + v.exp..] == decimals;
  }

  lemma DecimalParts(whole: string, decimals: string, n: nat) returns (frac: string)
    requires AllDigits(whole + decimals) && NoLeadingZero(whole) && ReadDigits(whole + decimals) == n
    ensures AllDigits(whole) && AllDigits(decimals)
    ensures RStrip(RStrip(whole + ['.'] + decimals, '0'), '.') == Plain(whole, frac)
    ensures Parts(whole, frac, Shift(n, -|decimals|))
  {
    AllDigitsConcat(whole, decimals);
    frac := StripZeros(whole, decimals);
  }

  lemma StripSigned(neg: bool, whole: string, decimals: string)
    requires AllDigits(whole) && whole != [] && AllDigits(decimals)
    ensures var text := whole + ['.'] + decimals;
            RStrip(RStrip(MinusSign(neg) + text, '0'), '.') == MinusSign(neg) + RStrip(RStrip(text, '0'), '.')
  {
    var text := whole + ['.'] + decimals;
    var frac := StripZeros(whole, decimals);
    var kept := StripsDecimals(whole, decimals);
    RStripBehind(MinusSign(neg), text, '0');
    RStripBehind(MinusSign(neg), RStrip(text, '0'), '.');
  }

  lemma ZeroText(whole: string, frac: string, size: real)
    requires Parts(whole, frac, size)
    ensures size == 0.0 <==> Plain(whole, frac) == "0"
  {
    ShiftPositive(ReadDigits(whole + frac), -|frac|);
    assert frac != [] ==> Plain(whole, frac)[|whole|] == '.';
    assert frac == [] ==> whole + frac == whole;
    assert whole + frac == "0" ==> ReadDigits(whole + frac) == 0;
    assert frac != [] ==> (whole + frac)[|whole + frac| - 1] == frac[|frac| - 1];
    assert (whole + frac)[0] == whole[0];
    if size == 0.0 { ZeroDigits(whole + frac); }
  }

  lemma {:induction false} ZeroDigits(t: string)
    requires AllDigits(t) && ReadDigits(t) == 0
    ensures forall i :: 0 <= i < |t| ==> t[i] == '0'
  {
    if t != [] {
      ZeroDigits(t[..|t| - 1]);
      assert t == t[..|t| - 1] + [t[|t| - 1]];
    }
  }

  /** The text of an exact result: plain notation, at most 80 characters, denoting the value. */
  lemma ResultDenotes(v: Dec) returns (neg: bool, whole: string, frac: string)
    requires FormatResult(v, false).Good?
    ensures var text := FormatResult(v, false).value;
            text == MinusSign(neg) + Plain(whole, frac) && 1 <= |text| <= 80
    ensures Parts(whole, frac, AbsReal(Value(v)))
    ensures neg <==> Value(v) < 0.0
  {
    SignedValue(v);
    if v.exp >= 0 {
      whole := WholeShape(v);
      frac := "";
    } else {
      whole, frac := DecimalShape(v);
    }
    ZeroText(whole, frac, AbsReal(Value(v)));
    neg := v.neg && v.coef > 0;
    var text := MinusSign(v.neg) + Plain(whole, frac);
    if v.neg {
      assert text[1..] == Plain(whole, frac);
    } else {
      assert text == Plain(whole, frac) && text[0] == whole[0];
    }
  }

  /** What is printed of an inexact result: the number of twelve decimals nearest to it, of two as near the
      even one; or the result itself if it has no more. */
  lemma InexactDenotes(v: Dec) returns (w: Dec)
    requires FormatResult(v, true).Good?
    ensures FormatResult(v, true) == FormatResult(w, false) == FormatWhole(w)
    ensures -12 <= w.exp && (v.exp >= -12 ==> w == v)
    ensures 2.0 * AbsReal(Value(w) - Value(v)) <= Shift(1, -12)
    ensures v.exp < -12 && 2.0 * AbsReal(Value(w) - Value(v)) == Shift(1, -12) ==> w.coef % 2 == 0
  {
    w := v;
    if v.exp < -12 {
      w := RoundedAt(v, -12);
      QuantizedText(v, w);
    } else {
      ShiftPositive(1, -12);
    }
  }

  lemma QuantizedText(v: Dec, w: Dec)
    requires v.exp < -12 && FormatResult(v, true).Good?
    requires var m := TenTo(-12 - v.exp); w == Dec(v.neg, HalfEven(Quot(v.coef, m), Rest(v.coef, m), m), -12)
    ensures FormatResult(v, true) == FormatWhole(w)
  {
  }

  lemma RoundedAt(v: Dec, to: int) returns (w: Dec)
    requires v.exp < to
    ensures var m := TenTo(to - v.exp); w == Dec(v.neg, HalfEven(Quot(v.coef, m), Rest(v.coef, m), m), to)
    ensures 2.0 * AbsReal(Value(w) - Value(v)) <= Shift(1, to)
    ensures 2.0 * AbsReal(Value(w) - Value(v)) == Shift(1, to) ==> w.coef % 2 == 0
  {
    var drop := to - v.exp;
    var q, r := Quot(v.coef, TenTo(drop)), Rest(v.coef, TenTo(drop));
    w := Dec(v.neg, HalfEven(q, r, TenTo(drop)), to);
    QuotRest(v.coef, TenTo(drop));
    CloseExact(v.coef, v.exp, q, r, drop, w.coef);
    SameSide(v, w);
  }

  lemma SameSide(v: Dec, w: Dec)
    requires v.neg == w.neg
    ensures AbsReal(Value(w) - Value(v)) == AbsReal(Shift(v.coef, v.exp) - Shift(w.coef, w.exp))
  {
    ShiftNegate(v.coef, v.exp);
    ShiftNegate(w.coef, w.exp);
  }

  /** An exact result is printed unless its exponent is beyond eighty or its text longer than that. */
  lemma PrintedIff(v: Dec)
    ensures FormatResult(v, false).Good? <==>
              && -80 <= v.exp <= 80
              && |if v.exp >= 0 then FormatPlain(v) else RStrip(RStrip(FormatPlain(v), '0'), '.')| <= 80
  {
    if v.exp >= 0 {
      var whole := WholeShape(v);
    } else {
      var whole, frac := DecimalShape(v);
    }
  }

  /** An expression of more than 300 characters is refused unread. */
  lemma LongIsRefused(expression: string, parse: string -> Option<Expr>)
    ensures |expression| > 300 || expression == "" ==> Calculate(expression, parse) == Err(Malformed)
  {
  }

  // ------------------------------------------------------------ what is read

  lemma LastDigit(t: string)
    requires AllDigits(t) && t != [] && t[|t| - 1] != '0'
    ensures ReadDigits(t) % 10 != 0
  {
  }

  lemma NotTens(c: nat, q: nat, k: nat)
    requires c % 10 != 0 && k >= 1
    ensures c != q * TenTo(k)
  {
    if c == q * TenTo(k) { EndsInZero(c, q, k); }
  }

  /** Two ways to write one number: the one not ending in zero has the shorter coefficient. */
  lemma ShortestCoefficient(c: nat, e: int, q: nat, to: int)
    requires c % 10 != 0 && Shift(c, e) == Shift(q, to)
    ensures c <= q
  {
    if to > e {
      ShiftRescale(q, e, to - e);
      ShiftOrder(c, q * TenTo(to - e), e);
      NotTens(c, q, to - e);
    } else {
      ShiftRescale(c, to, e - to);
      ShiftOrder(q, c * TenTo(e - to), to);
      MulGrows(c, TenTo(e - to));
    }
  }

  lemma MulGrows(c: nat, k: nat)
    requires k >= 1
    ensures c <= c * k
  {
  }

  lemma WholeFits(c: nat)
    requires Shift(c, 0) <= BOUND
    ensures c < TenTo(PRECISION)
  {
    ShiftTen(c, -1);
    ShiftRescale(10 * c, -10, 9);
    MulGrows(10 * c, TenTo(9));
    ShiftOrder(TenTo(34), 10 * c * TenTo(9), -10);
  }

  lemma DecimalsFit(v: Dec, c: nat, e: int)
    requires Clean(v) && c % 10 != 0 && Shift(c, e) == AbsReal(Value(v))
    ensures c < TenTo(PRECISION)
  {
    SignedValue(v);
    FixExact(Abs(v), PRECISION);
    FixFits(Abs(v));
    var r := Fix(Abs(v), PRECISION).value;
    ShortestCoefficient(c, e, r.coef, r.exp);
  }

  /** The literal read back from a clean number fits the precision. */
  lemma LiteralFits(v: Dec, whole: string, frac: string)
    requires Clean(v) && Parts(whole, frac, AbsReal(Value(v))) && |frac| <= MAX_RESULT_CHARS
    ensures Fits(Dec(false, ReadDigits(whole + frac), -|frac|))
  {
    if frac == [] {
      WholeFits(ReadDigits(whole + frac));
    } else {
      assert (whole + frac)[|whole + frac| - 1] == frac[|frac| - 1];
      LastDigit(whole + frac);
      DecimalsFit(v, ReadDigits(whole + frac), -|frac|);
    }
  }

  lemma FitsRounds(d: Dec)
    requires Fits(d) && AbsReal(Value(d)) <= LIMIT
    ensures Fix(d, PRECISION).Ok? && !Fix(d, PRECISION).inexact && Value(Fix(d, PRECISION).value) == Value(d)
  {
    SignBounded(d);
    FixOfFits(d);
  }

  lemma NegationIsExact(d: Dec)
    requires Fits(d) && AbsReal(Value(d)) <= LIMIT
    ensures Minus(d, PRECISION).Ok? && !Minus(d, PRECISION).inexact
            && Value(Minus(d, PRECISION).value) == -Value(d)
  {
    SignedValue(d);
    SignedValue(Abs(d));
    FitsRounds(Abs(d));
    var n := d.(neg := !d.neg);
    FitsRounds(n);
  }

  /** A fitting literal within the bound evaluates to itself, and its negation to its negation. */
  lemma LiteralEvaluates(d: Dec, x: real)
    requires Fits(d) && !d.neg && Value(d) == x <= BOUND
    ensures Eval(Num(d)) == Ok(d, false)
    ensures Eval(Neg(Num(d))).Ok? && !Eval(Neg(Num(d))).inexact && Value(Eval(Neg(Num(d))).value) == -x
  {
    SignedValue(d);
    BoundBelowLimit();
    CheckedIff(d);
    CheckedFits(d);
    NegationIsExact(d);
  }

  /** The tree read from a printed number. */
  function TreeOf(neg: bool, whole: string, frac: string): Expr
    requires AllDigits(whole + frac)
  {
    var d := Dec(false, ReadDigits(whole + frac), -|frac|);
    if neg then Neg(Num(d)) else Num(d)
  }

  lemma PrintedEvaluates(v: Dec, neg: bool, whole: string, frac: string)
    requires Clean(v) && Parts(whole, frac, AbsReal(Value(v))) && |frac| <= MAX_RESULT_CHARS
    requires neg <==> Value(v) < 0.0
    ensures var r := Eval(TreeOf(neg, whole, frac)); r.Ok? && !r.inexact && Value(r.value) == Value(v)
  {
    LiteralFits(v, whole, frac);
    LiteralEvaluates(Dec(false, ReadDigits(whole + frac), -|frac|), AbsReal(Value(v)));
  }

  lemma PrintedParses(neg: bool, whole: string, frac: string, parse: string -> Option<Expr>)
    requires AllDigits(whole) && AllDigits(frac) && AllDigits(whole + frac) && NoLeadingZero(whole)
    requires ParsesNumbers(parse) && |MinusSign(neg) + Plain(whole, frac)| <= 300
    ensures Calculate(MinusSign(neg) + Plain(whole, frac), parse) ==
            if LooksLikeThousands(whole, frac) then Err(Ambiguous) else Eval(TreeOf(neg, whole, frac))
  {
    var text := MinusSign(neg) + Plain(whole, frac);
    WrittenPlain(neg, whole, frac);
    NormalizeNumber(neg, whole, '.', frac);
    NumberParses(neg, whole, frac);
    if !LooksLikeThousands(whole, frac) { ParsedIsCalculated(text, text, TreeOf(neg, whole, frac), parse); }
  }

  /** Feeding an exact result back gives the same number, exactly; or, when it was printed as one to
      three digits with three decimals, the complaint that it is ambiguous. */
  lemma PrintedReadsBack(v: Dec, parse: string -> Option<Expr>) returns (whole: string, frac: string)
    requires Clean(v) && FormatResult(v, false).Good? && ParsesNumbers(parse)
    ensures FormatResult(v, false).value == MinusSign(Value(v) < 0.0) + Plain(whole, frac)
    ensures |FormatResult(v, false).value| <= 80
    ensures var r := Calculate(FormatResult(v, false).value, parse);
            if LooksLikeThousands(whole, frac) then r == Err(Ambiguous)
            else r.Ok? && !r.inexact && Value(r.value) == Value(v)
  {
    var neg;
    neg, whole, frac := ResultDenotes(v);
    PrintedEvaluates(v, neg, whole, frac);
    PrintedParses(neg, whole, frac, parse);
  }

  /** The same for whole expressions: compute, print, read. */
  lemma ResultReadsBack(e: Expr, parse: string -> Option<Expr>)
    requires Eval(e).Ok? && !Eval(e).inexact && FormatResult(Eval(e).value, false).Good?
    requires ParsesNumbers(parse)
    ensures |FormatResult(Eval(e).value, false).value| <= 80
    ensures var r := Calculate(FormatResult(Eval(e).value, false).value, parse);
            r == Err(Ambiguous)
            || (r.Ok? && !r.inexact && Meaning(e) == Defined(Value(r.value)))
  {
    ExactIsClean(e);
    var whole, frac := PrintedReadsBack(Eval(e).value, parse);
    EvalExact(e);
  }
}
