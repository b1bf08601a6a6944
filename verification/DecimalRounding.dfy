/** What a decimal operation returns when it signals inexact: of the numbers the context can hold, the
    nearest to the real result, and of two as near the one with an even last digit (section 4.3.1 of
    IEEE 754-2008). */
module DecimalRounding {
  import opened Powers
  import opened DecimalArithmetic
  import opened DecimalExactness

  // ------------------------------------------------------------ what rounding means

  /** A number the context can hold. */
  predicate Held(d: Dec, prec: nat) { d.coef < TenTo(prec) && Etiny(prec) <= d.exp }

  /** All digits are used, unless the exponent is the least. */
  predicate FullLength(d: Dec, prec: nat)
    requires prec >= 1
  {
    d.coef >= TenTo(prec - 1) || d.exp == Etiny(prec)
  }

  function Distance(x: real, d: Dec): real { AbsReal(x - Value(d)) }

  /** At most half a unit of the last digit away, and then that digit is even. */
  predicate HalfUnit(x: real, d: Dec) {
    && 2.0 * Distance(x, d) <= Shift(1, d.exp)
    && (2.0 * Distance(x, d) == Shift(1, d.exp) ==> d.coef % 2 == 0)
  }

  /** No number the context holds is nearer; of two as near, `d` has an even last digit. */
  ghost predicate Nearest(x: real, d: Dec, prec: nat) {
    forall r: Dec :: Held(r, prec) ==>
      && Distance(x, d) <= Distance(x, r)
      && (Distance(x, d) == Distance(x, r) && Value(r) != Value(d) ==> d.coef % 2 == 0)
  }

  ghost predicate Rounds(x: real, d: Dec, prec: nat)
    requires prec >= 1
  {
    Held(d, prec) && FullLength(d, prec) && HalfUnit(x, d) && Nearest(x, d, prec)
  }

  /** The outcome returns `x`, rounded if need be, and signals exactly when that changes it. */
  ghost predicate RoundsTo(o: Outcome, x: real, prec: nat)
    requires prec >= 1
  {
    o.Ok? ==> Held(o.value, prec) && (o.inexact <==> Value(o.value) != x) && (o.inexact ==> Rounds(x, o.value, prec))
  }

  // ------------------------------------------------------------ the integers of a rounding

  /** `n` is the multiple `rounded * m` that half to even makes of `c`. */
  lemma IntegerRounding(c: nat, q: nat, r: nat, m: nat, rounded: nat, n: nat)
    requires c == q * m + r && r < m && rounded == HalfEven(q, r, m) && n == rounded * m
    ensures -(m as int) <= 2 * (c - n) <= m && (2 * (c - n) == m || 2 * (n - c) == m ==> rounded % 2 == 0)
    ensures q <= rounded <= q + 1
  {
    NextMultiple(q, m);
  }

  lemma NextMultiple(q: nat, m: nat)
    ensures (q + 1) * m == q * m + m
  {
  }

  /** A number that is no multiple of five stays strictly inside. */
  lemma StickyRounding(c: nat, m: nat, half: nat, rounded: nat, n: nat)
    requires m == 10 * half && n == rounded * m && -(m as int) <= 2 * (c - n) <= m && c % 5 != 0
    ensures -(m as int) + 2 <= 2 * (c - n) <= m - 2 && c != n
  {
    FiveDivides(rounded, half);
  }

  lemma FiveDivides(rounded: nat, half: nat)
    ensures (rounded * (10 * half)) % 5 == 0
    ensures (rounded * (10 * half) + 5 * half) % 5 == 0
    ensures (rounded * (10 * half) - 5 * half) % 5 == 0
  {
    var p := rounded * half;
    assert rounded * (10 * half) == 10 * p;
    assert (10 * p) % 5 == 0 && (10 * p + 5 * half) % 5 == 0;
    assert 10 * p - 5 * half == 5 * (2 * p - half);
  }

  // ------------------------------------------------------------ sizes

  /** `x` is rounded to `k` at the exponent `to`, and is not below `low` there. */
  predicate Close(x: real, k: nat, to: int, low: nat) {
    && 2.0 * AbsReal(x - Shift(k, to)) <= Shift(1, to)
    && (2.0 * AbsReal(x - Shift(k, to)) == Shift(1, to) ==> k % 2 == 0)
    && Shift(low, to) <= x
  }

  lemma Twice(n: int, e: int)
    ensures Shift(2 * n, e) == 2.0 * Shift(n, e)
  {
    ShiftAdd(n, n, e);
  }

  /** The exact number. */
  lemma CloseExact(c: nat, e: int, q: nat, r: nat, drop: nat, rounded: nat)
    requires c == q * TenTo(drop) + r && r < TenTo(drop) && rounded == HalfEven(q, r, TenTo(drop))
    ensures Close(Shift(c, e), rounded, e + drop, q)
    ensures Shift(rounded, e + drop) == Shift(c, e) <==> r == 0
  {
    var m := TenTo(drop);
    var n := rounded * m;
    IntegerRounding(c, q, r, m, rounded, n);
    ShiftRescale(rounded, e, drop);
    ShiftRescale(q, e, drop);
    ShiftRescale(1, e, drop);
    CloseIntegers(c, e, n, m, rounded % 2 == 0);
    ShiftOrder(q * m, c, e);
    ShiftOrder(n, c, e);
    NextMultiple(q, m);
  }

  lemma CloseIntegers(c: int, e: int, n: int, m: int, even: bool)
    requires 2 * (c - n) <= m && 2 * (n - c) <= m && (2 * (c - n) == m || 2 * (n - c) == m ==> even)
    ensures 2.0 * AbsReal(Shift(c, e) - Shift(n, e)) <= Shift(m, e)
    ensures 2.0 * AbsReal(Shift(c, e) - Shift(n, e)) == Shift(m, e) ==> even
  {
    OneSide(c, e, n, m);
    OneSide(n, e, c, m);
  }

  lemma OneSide(c: int, e: int, n: int, m: int)
    ensures 2 * (c - n) <= m <==> 2.0 * (Shift(c, e) - Shift(n, e)) <= Shift(m, e)
    ensures 2 * (c - n) == m <==> 2.0 * (Shift(c, e) - Shift(n, e)) == Shift(m, e)
  {
    Gap(c, e, n, c - n);
    ShiftOrder(m, 2 * (c - n), e);
  }

  lemma Gap(c: int, e: int, n: int, gap: int)
    requires gap == c - n
    ensures Shift(2 * gap, e) == 2.0 * (Shift(c, e) - Shift(n, e))
  {
    ShiftAdd(n, gap, e);
    Twice(gap, e);
  }

  /** A number strictly between the neighbours of `c`, which is no multiple of five. */
  lemma CloseSticky(x: real, c: nat, e: int, q: nat, r: nat, drop: nat, rounded: nat)
    requires c == q * TenTo(drop) + r && r < TenTo(drop) && rounded == HalfEven(q, r, TenTo(drop))
    requires drop >= 1 && c % 5 != 0 && Shift(c - 1, e) < x < Shift(c + 1, e)
    ensures Close(x, rounded, e + drop, q) && Shift(rounded, e + drop) != x
  {
    var m := TenTo(drop);
    var n := rounded * m;
    IntegerRounding(c, q, r, m, rounded, n);
    StickyRounding(c, m, TenTo(drop - 1), rounded, n);
    ShiftRescale(rounded, e, drop);
    ShiftRescale(q, e, drop);
    ShiftRescale(1, e, drop);
    Between(x, c, e, n, m);
    FiveDivides(q, TenTo(drop - 1));
    if q * m < c { ShiftOrder(q * m - 1, c - 1, e); ShiftOrder(c - 1, q * m, e); }
  }

  lemma Between(x: real, c: nat, e: int, n: nat, m: nat)
    requires Shift(c - 1, e) < x < Shift(c + 1, e) && -(m as int) + 2 <= 2 * (c - n) <= m - 2 && c != n
    ensures 2.0 * AbsReal(x - Shift(n, e)) < Shift(m, e) && x != Shift(n, e)
  {
    ShiftAdd(n, c + 1 - n, e);
    ShiftAdd(n, c - 1 - n, e);
    Twice(c + 1 - n, e);
    Twice(c - 1 - n, e);
    ShiftNegate(m, e);
    ShiftOrder(2 * (c + 1 - n), m + 1, e);
    ShiftOrder(m, 2 * (c + 1 - n), e);
    ShiftOrder(2 * (c - 1 - n), -(m as int), e);
    ShiftOrder(c - 1, n, e);
    ShiftOrder(n, c + 1, e);
  }

  // ------------------------------------------------------------ close is nearest

  lemma NearerInteger(x: real, k: nat, to: int, low: nat, i: int)
    requires Close(x, k, to, low)
    ensures AbsReal(x - Shift(k, to)) <= AbsReal(x - Shift(i, to))
    ensures AbsReal(x - Shift(k, to)) == AbsReal(x - Shift(i, to)) && i != k ==> k % 2 == 0
  {
    UnitsApart(k, i, to);
  }

  /** Two integers are a unit apart, or the same. */
  lemma UnitsApart(k: int, i: int, to: int)
    ensures Shift(1, to) > 0.0
    ensures i > k ==> Shift(i, to) >= Shift(k, to) + Shift(1, to)
    ensures i < k ==> Shift(i, to) <= Shift(k, to) - Shift(1, to)
  {
    ShiftAdd(k, 1, to);
    ShiftAdd(k - 1, 1, to);
    ShiftPositive(1, to);
    ShiftOrder(i, k + 1, to);
    ShiftOrder(k - 1, i, to);
  }

  /** A shorter exponent does not help: such numbers are below `low`. */
  lemma FinerIsLower(r: Dec, prec: nat, to: int, low: nat)
    requires prec >= 1 && r.coef < TenTo(prec) && r.exp < to && low >= TenTo(prec - 1)
    ensures Value(r) < Shift(low, to)
  {
    SignedValue(r);
    ShiftPositive(r.coef, r.exp);
    ShiftOrder(r.coef, TenTo(prec), r.exp);
    ShiftTen(TenTo(prec - 1), to - 1);
    ShiftRescale(TenTo(prec), r.exp, to - 1 - r.exp);
    GrowsBy(TenTo(prec), TenTo(to - 1 - r.exp));
    ShiftOrder(TenTo(prec) * TenTo(to - 1 - r.exp), TenTo(prec), r.exp);
    ShiftOrder(low, TenTo(prec - 1), to);
  }

  lemma GrowsBy(a: nat, b: nat)
    requires b >= 1
    ensures a * b >= a
  {
    MulPositive(a, b - 1);
    assert a * b == a * (b - 1) + a;
  }

  /** The number that stands for `k`. */
  lemma CloseIsNearest(x: real, k: nat, to: int, low: nat, prec: nat, r: Dec)
    requires prec >= 1 && Close(x, k, to, low) && Held(r, prec)
    requires to > Etiny(prec) ==> low >= TenTo(prec - 1)
    ensures AbsReal(x - Shift(k, to)) <= Distance(x, r)
    ensures AbsReal(x - Shift(k, to)) == Distance(x, r) && Value(r) != Shift(k, to) ==> k % 2 == 0
  {
    if r.exp >= to {
      ScaledValue(r, to);
      NearerInteger(x, k, to, low, Scaled(r, to));
    } else {
      FinerIsLower(r, prec, to, low);
      NearerInteger(x, k, to, low, low);
    }
  }

  /** The result of a rounding: `k` itself, or a tenth of it at the next exponent. */
  predicate StandsFor(d: Dec, k: nat, to: int, prec: nat)
    requires prec >= 1
  {
    if k < TenTo(prec) then d.coef == k && d.exp == to
    else k == TenTo(prec) && d.coef == TenTo(prec - 1) && d.exp == to + 1
  }

  lemma StandsValue(d: Dec, k: nat, to: int, prec: nat)
    requires prec >= 1 && !d.neg && StandsFor(d, k, to, prec)
    ensures Value(d) == Shift(k, to)
  {
    ShiftTen(TenTo(prec - 1), to);
  }

  lemma StandsEven(d: Dec, k: nat, to: int, prec: nat)
    requires prec >= 2 && StandsFor(d, k, to, prec) && k % 2 == 0
    ensures d.coef % 2 == 0
  {
    if k == TenTo(prec) { assert TenTo(prec - 1) == 10 * TenTo(prec - 2); }
  }

  lemma StandsHalfUnit(x: real, d: Dec, k: nat, to: int, low: nat, prec: nat)
    requires prec >= 2 && !d.neg && Close(x, k, to, low) && StandsFor(d, k, to, prec)
    ensures HalfUnit(x, d)
  {
    StandsValue(d, k, to, prec);
    ShiftTen(1, to);
    ShiftPositive(1, to);
  }

  /** A rounded size. */
  lemma SizeRounds(x: real, d: Dec, k: nat, to: int, low: nat, prec: nat)
    requires prec >= 2 && !d.neg && Close(x, k, to, low) && StandsFor(d, k, to, prec)
    requires to >= Etiny(prec) && (to > Etiny(prec) ==> low >= TenTo(prec - 1)) && low <= k
    ensures Rounds(x, d, prec)
  {
    StandsValue(d, k, to, prec);
    StandsHalfUnit(x, d, k, to, low, prec);
    assert TenTo(prec) == 10 * TenTo(prec - 1);
    forall r: Dec | Held(r, prec)
      ensures Distance(x, d) <= Distance(x, r)
      ensures Distance(x, d) == Distance(x, r) && Value(r) != Value(d) ==> d.coef % 2 == 0
    {
      CloseIsNearest(x, k, to, low, prec, r);
      if k % 2 == 0 { StandsEven(d, k, to, prec); }
    }
  }

  // ------------------------------------------------------------ signs

  lemma NegateDistance(x: real, d: Dec)
    ensures Distance(-x, d.(neg := !d.neg)) == Distance(x, d)
  {
    SignedValue(d);
  }

  lemma NegateRounds(x: real, d: Dec, prec: nat)
    requires prec >= 1 && Rounds(x, d, prec)
    ensures Rounds(-x, d.(neg := !d.neg), prec)
  {
    var n := d.(neg := !d.neg);
    NegateDistance(x, d);
    SignedValue(d);
    forall r: Dec | Held(r, prec)
      ensures Distance(-x, n) <= Distance(-x, r)
      ensures Distance(-x, n) == Distance(-x, r) && Value(r) != Value(n) ==> n.coef % 2 == 0
    {
      var s := r.(neg := !r.neg);
      assert s.(neg := !s.neg) == r && Held(s, prec);
      NegateDistance(x, s);
      SignedValue(r);
    }
  }

  /** The size is rounded, and the sign kept. */
  lemma SignedRounds(x: real, d: Dec, prec: nat)
    requires prec >= 1 && Rounds(AbsReal(x), Abs(d), prec) && (x < 0.0 ==> d.neg) && (x > 0.0 ==> !d.neg)
    requires x != 0.0
    ensures Rounds(x, d, prec)
  {
    if d.neg { NegateRounds(AbsReal(x), Abs(d), prec); assert Abs(d).(neg := true) == d; }
  }

  // ------------------------------------------------------------ rounding to the context

  /** `k` is what half to even makes of the coefficient at the target exponent. */
  predicate IsKept(d: Dec, prec: nat, drop: nat, q: nat, r: nat, k: nat) {
    && d.coef > 0 && drop == TargetExp(d, prec) - d.exp && drop >= 1
    && q == Quot(d.coef, TenTo(drop)) && r == Rest(d.coef, TenTo(drop)) && k == HalfEven(q, r, TenTo(drop))
  }

  lemma KeptBounds(d: Dec, prec: nat, drop: nat, q: nat, r: nat, k: nat)
    requires prec >= 1 && IsKept(d, prec, drop, q, r, k)
    ensures d.coef == q * TenTo(drop) + r && r < TenTo(drop) && q < TenTo(prec) && q <= k <= q + 1
    ensures TargetExp(d, prec) > Etiny(prec) ==> q >= TenTo(prec - 1)
  {
    QuotRest(d.coef, TenTo(drop));
    KeptDigits(d.coef, drop, prec);
    if TargetExp(d, prec) > Etiny(prec) {
      DigitBounds(d.coef);
      TenToAdd(prec - 1, drop);
      QuotAtLeast(d.coef, TenTo(drop), TenTo(prec - 1));
    }
  }

  lemma QuotAtLeast(x: nat, m: nat, k: nat)
    requires m >= 1 && k * m <= x
    ensures Quot(x, m) >= k
  {
    QuotRest(x, m);
    if Quot(x, m) < k { MulLess(Quot(x, m), k, m); }
  }

  lemma FixStands(d: Dec, prec: nat, drop: nat, q: nat, r: nat, k: nat)
    requires prec >= 1 && IsKept(d, prec, drop, q, r, k) && Fix(d, prec).Ok?
    ensures StandsFor(Fix(d, prec).value, k, d.exp + drop, prec)
    ensures Fix(d, prec).value.neg == d.neg && (Fix(d, prec).inexact <==> r != 0)
  {
    KeptBounds(d, prec, drop, q, r, k);
    assert TenTo(prec) == 10 * TenTo(prec - 1);
  }

  /** The size of what is rounded, and the size it is rounded to. */
  lemma FixSize(d: Dec, prec: nat, drop: nat, q: nat, r: nat, k: nat, x: real)
    requires prec >= 2 && IsKept(d, prec, drop, q, r, k) && Fix(d, prec).Ok? && Close(x, k, d.exp + drop, q)
    ensures Rounds(x, Abs(Fix(d, prec).value), prec) && Value(Abs(Fix(d, prec).value)) == Shift(k, d.exp + drop)
  {
    FixStands(d, prec, drop, q, r, k);
    KeptBounds(d, prec, drop, q, r, k);
    SizeRounds(x, Abs(Fix(d, prec).value), k, d.exp + drop, q, prec);
    StandsValue(Abs(Fix(d, prec).value), k, d.exp + drop, prec);
  }

  lemma FixHeld(d: Dec, prec: nat)
    requires prec >= 1 && Fix(d, prec).Ok? && (d.coef == 0 || TargetExp(d, prec) <= d.exp)
    ensures Held(Fix(d, prec).value, prec) && !Fix(d, prec).inexact
  {
    if d.coef > 0 { DigitsUpTo(d.coef, prec); }
  }

  /** The size of `x` is close to that of `d`, or is it, and their signs agree. */
  lemma FixedSize(d: Dec, prec: nat, drop: nat, q: nat, r: nat, k: nat, x: real, inexact: bool)
    requires prec >= 2 && IsKept(d, prec, drop, q, r, k) && Fix(d, prec).Ok? && Fix(d, prec).inexact == inexact
    requires x != 0.0 && (x < 0.0 <==> d.neg) && Close(AbsReal(x), k, d.exp + drop, q)
    requires inexact <==> Shift(k, d.exp + drop) != AbsReal(x)
    ensures RoundsTo(Fix(d, prec), x, prec)
  {
    FixStands(d, prec, drop, q, r, k);
    FixSize(d, prec, drop, q, r, k, AbsReal(x));
    SignedRounds(x, Fix(d, prec).value, prec);
    SignedValue(Fix(d, prec).value);
  }

  /** Rounding an exact number. */
  lemma FixRounds(d: Dec, prec: nat)
    requires prec >= 2
    ensures RoundsTo(Fix(d, prec), Value(d), prec)
  {
    if Fix(d, prec).Ok? {
      if d.coef == 0 || TargetExp(d, prec) <= d.exp {
        FixHeld(d, prec);
        FixExact(d, prec);
      } else {
        var drop := TargetExp(d, prec) - d.exp;
        var q, r := Quot(d.coef, TenTo(drop)), Rest(d.coef, TenTo(drop));
        var k := HalfEven(q, r, TenTo(drop));
        KeptBounds(d, prec, drop, q, r, k);
        FixStands(d, prec, drop, q, r, k);
        CloseExact(d.coef, d.exp, q, r, drop, k);
        SignedValue(d);
        FixedSize(d, prec, drop, q, r, k, Value(d), Fix(d, prec).inexact);
      }
    }
  }

  /** Rounding a number that stands for another one, strictly between its neighbours. */
  lemma FixStickyRounds(d: Dec, prec: nat, x: real)
    requires prec >= 2 && d.coef >= TenTo(prec) && d.coef % 5 != 0
    requires x != 0.0 && (x < 0.0 <==> d.neg) && Shift(d.coef - 1, d.exp) < AbsReal(x) < Shift(d.coef + 1, d.exp)
    ensures RoundsTo(Fix(d, prec), x, prec)
  {
    if Fix(d, prec).Ok? {
      DropsSome(d, prec);
      var drop := TargetExp(d, prec) - d.exp;
      var q, r := Quot(d.coef, TenTo(drop)), Rest(d.coef, TenTo(drop));
      StickySize(d, prec, drop, q, r, HalfEven(q, r, TenTo(drop)), x);
    }
  }

  lemma StickySize(d: Dec, prec: nat, drop: nat, q: nat, r: nat, k: nat, x: real)
    requires prec >= 2 && IsKept(d, prec, drop, q, r, k) && d.coef % 5 != 0 && Fix(d, prec).Ok?
    requires x != 0.0 && (x < 0.0 <==> d.neg) && Shift(d.coef - 1, d.exp) < AbsReal(x) < Shift(d.coef + 1, d.exp)
    ensures RoundsTo(Fix(d, prec), x, prec)
  {
    KeptBounds(d, prec, drop, q, r, k);
    CloseSticky(AbsReal(x), d.coef, d.exp, q, r, drop, k);
    NonzeroRest(d.coef, drop);
    FixStands(d, prec, drop, q, r, k);
    FixedSize(d, prec, drop, q, r, k, x, true);
  }

  // ------------------------------------------------------------ division

  /** The size of a quotient lies between the integers around `num / den`, at the exponent of the
      division. */
  lemma QuotientBetween(a: nat, ea: int, b: nat, eb: int, shift: int, num: nat, den: nat, q: nat)
    requires b > 0 && num == Numerator(a, shift) && den == Denominator(b, shift) && q * den < num < q * den + den
    ensures Shift(b, eb) > 0.0
    ensures Shift(q, ea - eb - shift) < Shift(a, ea) / Shift(b, eb) < Shift(q + 1, ea - eb - shift)
  {
    var e := if shift >= 0 then ea - shift else ea;
    ShiftPositive(b, eb);
    DividendAt(a, ea, shift, num);
    TimesDivisor(q, ea, b, eb, shift, den, q * den);
    NextMultiple(q, den);
    TimesDivisor(q + 1, ea, b, eb, shift, den, q * den + den);
    ShiftOrder(q * den, num, e);
    ShiftOrder(num, q * den + den, e);
    StrictRatio(Shift(q, ea - eb - shift), Shift(a, ea), Shift(b, eb), Shift(q + 1, ea - eb - shift));
  }

  lemma DividendAt(a: nat, ea: int, shift: int, num: nat)
    requires num == Numerator(a, shift)
    ensures Shift(num, if shift >= 0 then ea - shift else ea) == Shift(a, ea)
  {
    if shift >= 0 { ShiftRescale(a, ea - shift, shift); }
  }

  lemma TimesDivisor(q: nat, ea: int, b: nat, eb: int, shift: int, den: nat, n: nat)
    requires den == Denominator(b, shift) && n == q * den
    ensures Shift(n, if shift >= 0 then ea - shift else ea) == Shift(q, ea - eb - shift) * Shift(b, eb)
  {
    if shift >= 0 {
      ProductOfShifts(n, q, ea - eb - shift, b, eb);
    } else {
      MulPositive(q, b);
      IntMulAssoc(q, b, TenTo(-shift), q * b);
      ShiftRescale(q * b, ea, -shift);
      ProductOfShifts(q * b, q, ea - eb - shift, b, eb);
    }
  }

  lemma StrictRatio(x: real, a: real, b: real, y: real)
    requires b > 0.0 && x * b < a < y * b
    ensures x < a / b < y
  {
    var t := a / b;
    assert t * b == a;
    if t <= x { MulMono(t, x, b); }
    if y <= t { MulMono(y, t, b); }
  }

  /** The sticky digit keeps a quotient that is no integer strictly between its neighbours. */
  lemma StickyBetween(q: nat, e: int, x: real)
    requires Shift(q, e) < x < Shift(q + 1, e)
    ensures Shift(StickyDigit(q) - 1, e) < x < Shift(StickyDigit(q) + 1, e)
  {
    ShiftOrder(q - 1, q, e);
    ShiftOrder(q + 1, q + 2, e);
  }

  lemma QuotientSize(a: Dec, b: Dec, shift: int, num: nat, den: nat, exp: int)
    requires a.coef > 0 && b.coef > 0 && num == Numerator(a.coef, shift) && den == Denominator(b.coef, shift)
    requires exp == a.exp - b.exp - shift && den >= 1 && Quot(num, den) >= 1
    ensures Value(b) != 0.0 && Value(a) / Value(b) != 0.0
    ensures Value(a) / Value(b) < 0.0 <==> a.neg != b.neg
    ensures Rest(num, den) == 0 ==> Value(a) / Value(b) == Value(Dec(a.neg != b.neg, Quot(num, den), exp))
    ensures Rest(num, den) != 0 ==>
              Shift(Quot(num, den), exp) < AbsReal(Value(a) / Value(b)) < Shift(Quot(num, den) + 1, exp)
  {
    var q := Quot(num, den);
    QuotRest(num, den);
    ShiftPositive(q, exp);
    if Rest(num, den) == 0 {
      WholeQuotient(a, b, shift);
      QuotientValue(a, b, Dec(a.neg != b.neg, q, exp), Shift(q, exp));
    } else {
      QuotientBetween(a.coef, a.exp, b.coef, b.exp, shift, num, den, q);
    }
    SignedRatio(a, b, Shift(a.coef, a.exp) / Shift(b.coef, b.exp));
  }

  lemma SignedRatio(a: Dec, b: Dec, size: real)
    requires a.coef > 0 && b.coef > 0 && Shift(b.coef, b.exp) > 0.0
    requires size == Shift(a.coef, a.exp) / Shift(b.coef, b.exp) && size > 0.0
    ensures Value(b) != 0.0 && AbsReal(Value(a) / Value(b)) == size
    ensures Value(a) / Value(b) < 0.0 <==> a.neg != b.neg
  {
    SignedValue(a);
    SignedValue(b);
    RatioSign(Value(a), Value(b), Shift(a.coef, a.exp), Shift(b.coef, b.exp));
  }
}
