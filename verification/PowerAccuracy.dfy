/** How far an inexact power may be from the real one: every product on the way is rounded to a few more
    digits than the result, so their errors stay behind its last digit. */
module PowerAccuracy {
  import opened Powers
  import opened DecimalArithmetic
  import opened DecimalExactness
  import opened DecimalRounding
  import opened DecimalOverflow

  // ------------------------------------------------------------ relative errors

  /** `v` is `x` up to the part `e` of it. */
  predicate Off(v: real, x: real, e: real) { AbsReal(v - x) <= e * AbsReal(x) }

  lemma AbsProduct(x: real, y: real)
    ensures AbsReal(x * y) == AbsReal(x) * AbsReal(y)
  {
    NegateFactors(x, y, x * y);
    ProductSign(AbsReal(x), AbsReal(y));
  }

  lemma ProductSign(x: real, y: real)
    requires x >= 0.0 && y >= 0.0
    ensures x * y >= 0.0
  {
  }

  lemma MulLeq(a: real, b: real, c: real, d: real)
    requires 0.0 <= a <= b && 0.0 <= c <= d
    ensures a * c <= b * d
  {
    MulMono(a, b, c);
    MulMono(c, d, b);
    Commute(b, c);
    Commute(b, d);
  }

  lemma Commute(x: real, y: real)
    ensures x * y == y * x
  {
  }

  lemma SizeOfProduct(x: real, y: real, p: real)
    requires p == x * y
    ensures AbsReal(p) == AbsReal(x) * AbsReal(y)
  {
    AbsProduct(x, y);
  }

  lemma PartBound(x: real, y: real, p: real, a: real, b: real, t: real)
    requires p == x * y && AbsReal(x) <= a && AbsReal(y) <= b && t == a * b
    ensures AbsReal(p) <= t
  {
    SizeOfProduct(x, y, p);
    MulLeq(AbsReal(x), a, AbsReal(y), b);
  }

  lemma GapSplits(v: real, x: real, w: real, y: real, p: real, q: real, first: real, second: real)
    requires p == v * w && q == x * y && first == (v - x) * w && second == x * (w - y)
    ensures p - q == first + second
  {
    assert first == v * w - x * w;
    assert second == x * w - x * y;
  }

  lemma TriangleSum(a: real, b: real)
    ensures AbsReal(a + b) <= AbsReal(a) + AbsReal(b)
  {
  }

  /** Factors that are off by `a` and `b` make a product off by `s + t`. */
  lemma ProductGap(v: real, x: real, a: real, w: real, y: real, b: real, p: real, q: real, s: real, t: real)
    requires p == v * w && q == x * y && AbsReal(v - x) <= a && AbsReal(w - y) <= b
    requires s == a * (AbsReal(y) + b) && t == AbsReal(x) * b
    ensures AbsReal(p - q) <= s + t
  {
    NearSize(w, y, b);
    GapsOf(v, x, a, v - x, w, y, b, w - y, AbsReal(x), AbsReal(y) + b, p, q, s, t);
  }

  /** With a gap `g` and `h` in each factor, and sizes `m` and `n` of the other one. */
  lemma GapsOf(
    v: real, x: real, a: real, g: real, w: real, y: real, b: real, h: real, m: real, n: real, p: real, q: real,
    s: real, t: real)
    requires p == v * w && q == x * y && g == v - x && h == w - y && AbsReal(g) <= a && AbsReal(h) <= b
    requires AbsReal(x) <= m && AbsReal(w) <= n && s == a * n && t == m * b
    ensures AbsReal(p - q) <= s + t
  {
    var first, second := g * w, x * h;
    GapSplits(v, x, w, y, p, q, first, second);
    PartBound(g, w, first, a, n, s);
    PartBound(x, h, second, m, b, t);
    SidesAdd(p, q, first, second, s, t);
  }

  lemma SidesAdd(p: real, q: real, first: real, second: real, s: real, t: real)
    requires p - q == first + second && AbsReal(first) <= s && AbsReal(second) <= t
    ensures AbsReal(p - q) <= s + t
  {
  }

  /** Relative errors of factors add up, and their product comes on top. */
  lemma OffProduct(v: real, x: real, d: real, w: real, y: real, e: real, p: real, q: real, f: real)
    requires Off(v, x, d) && Off(w, y, e) && p == v * w && q == x * y && f == d + e + d * e
    ensures Off(p, q, f)
  {
    SizeOfProduct(x, y, q);
    OffSizes(v, x, d, AbsReal(x), w, y, e, AbsReal(y), p, q, f, AbsReal(q), d * AbsReal(x), e * AbsReal(y));
  }

  lemma OffSizes(
    v: real, x: real, d: real, m: real, w: real, y: real, e: real, n: real, p: real, q: real, f: real, size: real,
    a: real, b: real)
    requires m == AbsReal(x) && n == AbsReal(y) && size == AbsReal(q) && size == m * n && a == d * m && b == e * n
    requires AbsReal(v - x) <= a && AbsReal(w - y) <= b && p == v * w && q == x * y && f == d + e + d * e
    ensures AbsReal(p - q) <= f * size
  {
    ProductGap(v, x, a, w, y, b, p, q, a * (n + b), m * b);
    ErrorTotal(m, n, d, e, a, b, a * (n + b), m * b, size, f);
  }

  lemma ErrorTotal(x: real, y: real, d: real, e: real, a: real, b: real, s: real, t: real, size: real, f: real)
    requires a == d * x && b == e * y && s == a * (y + b) && t == x * b && size == x * y && f == d + e + d * e
    ensures s + t == f * size
  {
    FirstTerm(x, y, d, e, a, b, s, size);
    SecondTerm(x, y, e, b, t, size);
    assert f * size == d * size + e * size + (d * e) * size;
  }

  lemma FirstTerm(x: real, y: real, d: real, e: real, a: real, b: real, s: real, size: real)
    requires a == d * x && b == e * y && s == a * (y + b) && size == x * y
    ensures s == d * size + (d * e) * size
  {
    assert a * y == d * size;
    assert a * b == (d * e) * size;
    assert s == a * y + a * b;
  }

  lemma SecondTerm(x: real, y: real, e: real, b: real, t: real, size: real)
    requires b == e * y && t == x * b && size == x * y
    ensures t == e * size
  {
  }

  lemma NearSize(p: real, x: real, gap: real)
    requires AbsReal(p - x) <= gap
    ensures AbsReal(x) - gap <= AbsReal(p) <= AbsReal(x) + gap
  {
  }

  lemma GapsAdd(v: real, p: real, x: real, a: real, b: real)
    requires AbsReal(v - p) <= a && AbsReal(p - x) <= b
    ensures AbsReal(v - x) <= a + b
  {
  }

  /** A relative error on top of another. */
  lemma OffAgain(v: real, p: real, r: real, x: real, e: real, f: real)
    requires Off(v, p, r) && Off(p, x, e) && r >= 0.0 && f == e + r + r * e
    ensures Off(v, x, f)
  {
    AgainSizes(v, p, r, AbsReal(p), x, e, AbsReal(x), f, r * AbsReal(p), e * AbsReal(x));
  }

  lemma AgainSizes(
    v: real, p: real, r: real, n: real, x: real, e: real, m: real, f: real, part: real, gap: real)
    requires n == AbsReal(p) && m == AbsReal(x) && part == r * n && gap == e * m && r >= 0.0 && f == e + r + r * e
    requires AbsReal(v - p) <= part && AbsReal(p - x) <= gap
    ensures AbsReal(v - x) <= f * m
  {
    NearSize(p, x, gap);
    GapsAdd(v, p, x, part, gap);
    PartGrows(r, n, m + gap, part, r * (m + gap));
    Spread(r, e, m, gap, r * (m + gap), f);
  }

  lemma PartGrows(r: real, x: real, y: real, part: real, t: real)
    requires 0.0 <= r && 0.0 <= x <= y && part == r * x && t == r * y
    ensures part <= t
  {
    MulLeq(r, r, x, y);
  }

  lemma Spread(r: real, e: real, x: real, gap: real, t: real, f: real)
    requires gap == e * x && t == r * (x + gap) && f == e + r + r * e
    ensures t + gap == f * x
  {
    assert r * gap == (r * e) * x;
    assert t == r * x + r * gap;
  }

  lemma OffMore(v: real, x: real, e: real, f: real)
    requires Off(v, x, e) && e <= f
    ensures Off(v, x, f)
  {
    MulMono(e, f, AbsReal(x));
  }

  // ------------------------------------------------------------ one rounding

  /** A unit of the last of `prec` digits, relative to the first. */
  function Relative(prec: nat): real { Shift(1, 1 - prec) }

  /** The least number that is not short of digits. */
  function LeastNormal(): real { Shift(1, EMIN) }

  lemma RelativeUnit(prec: nat, e: int)
    requires prec >= 1
    ensures Relative(prec) > 0.0 && Shift(TenTo(prec - 1), e) * Relative(prec) == Shift(1, e)
  {
    ShiftPositive(1, 1 - prec);
    TimesUnit(TenTo(prec - 1), e, 1 - prec);
    ShiftRescale(1, e + 1 - prec, prec - 1);
  }

  lemma TimesUnit(n: nat, e: int, f: int)
    ensures Shift(n, e) * Shift(1, f) == Shift(n, e + f)
  {
    ProductOfShifts(n, n, e, 1, f);
  }

  /** A unit of the last digit is small, if the number has all its digits or is not too small. */
  lemma UnitIsSmall(p: real, d: Dec, prec: nat)
    requires prec >= 2 && Rounds(p, d, prec) && AbsReal(p) >= LeastNormal()
    ensures 5.0 * Shift(TenTo(prec - 1), d.exp) <= 6.0 * AbsReal(p)
  {
    SignedValue(d);
    TriangleSum(p, Value(d) - p);
    TenTimes(prec, d.exp);
    if d.coef >= TenTo(prec - 1) {
      ShiftOrder(d.coef, TenTo(prec - 1), d.exp);
    } else {
      ShiftRescale(1, Etiny(prec), prec - 1);
    }
  }

  lemma TenTimes(prec: nat, e: int)
    requires prec >= 2
    ensures Shift(TenTo(prec - 1), e) >= 10.0 * Shift(1, e) > 0.0
  {
    ShiftPositive(1, e);
    ShiftTen(TenTo(prec - 2), e);
    ShiftOrder(TenTo(prec - 2), 1, e);
  }

  /** What the outcome returns is off by the part `e` at most. */
  predicate ResultOff(o: Outcome, x: real, e: real) { o.Ok? ==> Off(Value(o.value), x, e) }

  /** One rounding is off by six tenths of a unit at most. */
  lemma RoundingIsOff(o: Outcome, p: real, prec: nat)
    requires prec >= 2 && o.Ok? && RoundsTo(o, p, prec) && AbsReal(p) >= LeastNormal()
    ensures ResultOff(o, p, 0.6 * Relative(prec))
  {
    var d := o.value;
    RelativeUnit(prec, d.exp);
    if o.inexact {
      UnitIsSmall(p, d, prec);
      SmallPart(Shift(TenTo(prec - 1), d.exp), Relative(prec), Shift(1, d.exp), AbsReal(p), Distance(p, d));
    } else {
      ProductSign(0.6 * Relative(prec), AbsReal(p));
    }
  }

  lemma SmallPart(size: real, r: real, unit: real, p: real, gap: real)
    requires r > 0.0 && size * r == unit && 5.0 * size <= 6.0 * p && 2.0 * gap <= unit
    ensures gap <= (0.6 * r) * p
  {
    MulMono(5.0 * size, 6.0 * p, r);
    assert (5.0 * size) * r == 5.0 * unit && (6.0 * p) * r == 10.0 * ((0.6 * r) * p);
  }

  // ------------------------------------------------------------ a rounded product

  /** Small errors: their product, and what a rounding adds to their sum, are next to nothing. */
  lemma ErrorsFit(d: real, e: real, u: real, product: real)
    requires 0.0 <= d <= 40.0 * u && 0.0 <= e <= 40.0 * u && 0.0 < u <= 0.0000001 && product == d * e
    ensures 0.0 <= product <= 0.001 * u
  {
    ProductSign(d, e);
    PartGrows(d, e, 0.000004, product, d * 0.000004);
  }

  lemma RoundingFits(f: real, u: real, more: real)
    requires 0.0 <= f <= 81.0 * u && 0.0 < u <= 0.0000001 && more == (0.6 * u) * f
    ensures more <= 0.001 * u
  {
    PartGrows(0.6 * u, f, 0.00001, more, (0.6 * u) * 0.00001);
  }

  /** The errors of two factors, and one unit for the rounding of their product. */
  lemma ProductIsOff(o: Outcome, v: real, x: real, d: real, w: real, y: real, e: real, prec: nat, p: real, q: real)
    requires prec >= 9 && Off(v, x, d) && Off(w, y, e) && p == v * w && q == x * y
    requires 0.0 <= d <= 40.0 * Relative(prec) && 0.0 <= e <= 40.0 * Relative(prec)
    requires o.Ok? && RoundsTo(o, p, prec) && AbsReal(q) >= 2.0 * LeastNormal()
    ensures ResultOff(o, q, d + e + Relative(prec))
  {
    var f := d + e + d * e;
    OffProduct(v, x, d, w, y, e, p, q, f);
    SumIsOff(o, p, q, d, e, prec, d * e);
  }

  lemma SumIsOff(o: Outcome, p: real, q: real, d: real, e: real, prec: nat, product: real)
    requires prec >= 9 && 0.0 <= d <= 40.0 * Relative(prec) && 0.0 <= e <= 40.0 * Relative(prec) && product == d * e
    requires o.Ok? && RoundsTo(o, p, prec) && AbsReal(q) >= 2.0 * LeastNormal() && Off(p, q, d + e + product)
    ensures ResultOff(o, q, d + e + Relative(prec))
  {
    RelativeIsSmall(prec);
    ErrorsFit(d, e, Relative(prec), product);
    RoundedIsOff(o, p, q, d + e + product, prec, d + e + Relative(prec));
  }

  lemma RoundedIsOff(o: Outcome, p: real, q: real, f: real, prec: nat, total: real)
    requires prec >= 9 && o.Ok? && RoundsTo(o, p, prec) && AbsReal(q) >= 2.0 * LeastNormal() && Off(p, q, f)
    requires 0.0 <= f <= 81.0 * Relative(prec) && total >= f + 0.9 * Relative(prec)
    ensures ResultOff(o, q, total)
  {
    var r := 0.6 * Relative(prec);
    var more := r * f;
    RelativeIsSmall(prec);
    RoundingFits(f, Relative(prec), more);
    StaysAbove(p, q, f, LeastNormal());
    RoundingIsOff(o, p, prec);
    OffAgain(Value(o.value), p, r, q, f, f + r + more);
    OffMore(Value(o.value), q, f + r + more, total);
  }

  lemma RelativeIsSmall(prec: nat)
    requires prec >= 9
    ensures 0.0 < Relative(prec) <= 0.0000001
  {
    ShiftPositive(1, 1 - prec);
    ShiftExponent(1 - prec, -8);
    assert Shift(1, -8) == 0.00000001;
  }

  lemma StaysAbove(p: real, x: real, e: real, least: real)
    requires Off(p, x, e) && e <= 0.5 && AbsReal(x) >= 2.0 * least
    ensures AbsReal(p) >= least
  {
    HalfLeft(AbsReal(x), e, e * AbsReal(x));
    NearSize(p, x, e * AbsReal(x));
  }

  lemma HalfLeft(x: real, e: real, gap: real)
    requires x >= 0.0 && e <= 0.5 && gap == e * x
    ensures 2.0 * gap <= x
  {
    MulMono(e, 0.5, x);
  }

  // ------------------------------------------------------------ powers

  /** The error of a power by squaring, when its base is off by `e` and a rounding by `u`. */
  function PowerError(n: nat, e: real, u: real): real
    requires n >= 1
  {
    if n == 1 then e
    else
      var half := PowerError(n / 2, e, u);
      if n % 2 == 1 then half + half + u + e + u else half + half + u
  }

  lemma PowerErrorFits(n: nat, e: real, u: real)
    requires 1 <= n <= 15 && 0.0 <= e <= u
    ensures 0.0 <= PowerError(n, e, u) <= 29.0 * u
    ensures n <= 7 ==> PowerError(n, e, u) <= 13.0 * u
    ensures n <= 3 ==> PowerError(n, e, u) <= 5.0 * u
    ensures n <= 1 ==> PowerError(n, e, u) <= u
  {
    if n > 1 { PowerErrorFits(n / 2, e, u); }
  }

  /** The powers before the last are not smaller than it, or than one. */
  lemma {:induction false} PowerAtLeast(x: real, m: nat, n: nat, least: real)
    requires m <= n && 0.0 < least <= 1.0 && least <= AbsReal(RealPow(x, n))
    ensures least <= AbsReal(RealPow(x, m))
    decreases n
  {
    if m < n {
      if AbsReal(x) >= 1.0 {
        LargePower(x, m);
      } else {
        ShrinksBy(x, RealPow(x, n - 1), RealPow(x, n));
        PowerAtLeast(x, m, n - 1, least);
      }
    }
  }

  lemma {:induction false} LargePower(x: real, m: nat)
    requires AbsReal(x) >= 1.0
    ensures AbsReal(RealPow(x, m)) >= 1.0
  {
    if m > 0 {
      LargePower(x, m - 1);
      SizeOfProduct(x, RealPow(x, m - 1), RealPow(x, m));
      MulLeq(1.0, AbsReal(x), 1.0, AbsReal(RealPow(x, m - 1)));
    }
  }

  lemma ShrinksBy(x: real, y: real, p: real)
    requires AbsReal(x) < 1.0 && p == x * y
    ensures AbsReal(p) <= AbsReal(y)
  {
    SizeOfProduct(x, y, p);
    Shrinks(AbsReal(x), AbsReal(y), AbsReal(p));
  }

  lemma Shrinks(a: real, b: real, c: real)
    requires a <= 1.0 && b >= 0.0 && c == a * b
    ensures c <= b
  {
    MulMono(a, 1.0, b);
  }

  /** A power by squaring is off by what its products add up to. */
  lemma {:induction false} PowerUpIsOff(base: Dec, x: real, e: real, n: nat, prec: nat)
    requires prec >= 9 && 1 <= n <= 15 && Off(Value(base), x, e) && 0.0 <= e <= Relative(prec)
    requires IsLarge(RealPow(x, n)) && PowerUp(base, n, prec).Ok?
    ensures ResultOff(PowerUp(base, n, prec), RealPow(x, n), PowerError(n, e, Relative(prec)))
    decreases n
  {
    if n == 1 {
      FirstPower(x);
    } else {
      var half := PowerUp(base, n / 2, prec);
      PowerUpUnfolds(base, n, prec, half);
      var h, s := HalfIsLarge(x, n, RealPow(x, n));
      PowerUpIsOff(base, x, e, n / 2, prec);
      PowerStepOff(PowerUp(base, n, prec), base, x, e, n, prec, half.value, h, s, RealPow(x, n));
    }
  }

  /** A power, half of it, and the square of that. */
  predicate Squares(x: real, h: real, s: real, odd: bool, target: real) {
    s == h * h && target == (if odd then s * x else s) && IsLarge(s) && IsLarge(target)
  }

  lemma PowerStepOff(
    o: Outcome, base: Dec, x: real, e: real, n: nat, prec: nat, half: Dec, h: real, s: real, target: real)
    requires prec >= 9 && 2 <= n <= 15 && Off(Value(base), x, e) && 0.0 <= e <= Relative(prec)
    requires Off(Value(half), h, PowerError(n / 2, e, Relative(prec))) && Squares(x, h, s, n % 2 == 1, target)
    requires SquareUp(half, base, n % 2 == 1, prec).Ok? && o.Ok?
    requires o.value == SquareUp(half, base, n % 2 == 1, prec).value
    ensures ResultOff(o, target, PowerError(n, e, Relative(prec)))
  {
    PowerErrorFits(n / 2, e, Relative(prec));
    SquareIsOff(half, base, x, e, n % 2 == 1, prec, PowerError(n / 2, e, Relative(prec)), h, s, target);
  }

  predicate IsLarge(x: real) { AbsReal(x) >= 2.0 * LeastNormal() }

  lemma PowerUpUnfolds(base: Dec, n: nat, prec: nat, half: Outcome)
    requires prec >= 1 && n >= 2 && half == PowerUp(base, n / 2, prec) && PowerUp(base, n, prec).Ok?
    ensures half.Ok? && SquareUp(half.value, base, n % 2 == 1, prec).Ok?
    ensures PowerUp(base, n, prec).value == SquareUp(half.value, base, n % 2 == 1, prec).value
  {
  }

  lemma FirstPower(x: real)
    ensures RealPow(x, 1) == x
  {
    assert RealPow(x, 0) == 1.0;
  }

  lemma LeastIsSmall()
    ensures 0.0 < 2.0 * LeastNormal() <= 1.0
  {
    ShiftPositive(1, EMIN);
    ShiftExponent(EMIN, -1);
    assert Shift(1, -1) == 0.1;
  }

  /** Half a power, and its square. */
  lemma HalfIsLarge(x: real, n: nat, target: real) returns (h: real, s: real)
    requires n >= 2 && IsLarge(target) && target == RealPow(x, n)
    ensures h == RealPow(x, n / 2) && IsLarge(h) && Squares(x, h, s, n % 2 == 1, target)
  {
    HalvesAreLarge(x, n);
    h, s := RealPow(x, n / 2), RealPow(x, n / 2 + n / 2);
    SquareOfHalf(x, n, h, s);
  }

  lemma SquareOfHalf(x: real, n: nat, h: real, s: real)
    requires h == RealPow(x, n / 2) && s == RealPow(x, n / 2 + n / 2)
    ensures s == h * h && RealPow(x, n) == if n % 2 == 1 then s * x else s
  {
    PowSum(x, n / 2, n / 2);
    if n % 2 == 1 { PowStep(x, n); }
  }

  lemma HalvesAreLarge(x: real, n: nat)
    requires n >= 2 && IsLarge(RealPow(x, n))
    ensures IsLarge(RealPow(x, n / 2)) && IsLarge(RealPow(x, n / 2 + n / 2))
  {
    LeastIsSmall();
    PowerAtLeast(x, n / 2, n, 2.0 * LeastNormal());
    PowerAtLeast(x, n / 2 + n / 2, n, 2.0 * LeastNormal());
  }

  lemma SquareIsOff(
    half: Dec, base: Dec, x: real, e: real, odd: bool, prec: nat, d: real, h: real, s: real, target: real)
    requires prec >= 9 && Off(Value(base), x, e) && 0.0 <= e <= Relative(prec)
    requires Off(Value(half), h, d) && 0.0 <= d <= 13.0 * Relative(prec)
    requires Squares(x, h, s, odd, target) && SquareUp(half, base, odd, prec).Ok?
    ensures ResultOff(SquareUp(half, base, odd, prec), target,
                      if odd then d + d + Relative(prec) + e + Relative(prec) else d + d + Relative(prec))
  {
    RelativeIsSmall(prec);
    var square := Multiply(half, half, prec);
    ProductOff(half, half, h, h, d, d, prec, s);
    if odd { ProductOff(square.value, base, s, x, d + d + Relative(prec), e, prec, target); }
  }

  ghost predicate Answered(o: Outcome, x: real, prec: nat)
    requires prec >= 1
  {
    AnswersTo(o, x, prec)
  }

  lemma ProductAnswered(a: Dec, b: Dec, v: real, w: real, prec: nat, p: real)
    requires prec >= 2 && v == Value(a) && w == Value(b) && p == v * w
    ensures Answered(Multiply(a, b, prec), p, prec)
  {
    MultiplyAnswers(a, b, prec, p);
  }

  /** A rounded product of decimals that are off by `d` and `e`. */
  lemma ProductOff(a: Dec, b: Dec, x: real, y: real, d: real, e: real, prec: nat, q: real)
    requires prec >= 9 && Off(Value(a), x, d) && Off(Value(b), y, e)
    requires 0.0 <= d <= 27.0 * Relative(prec) && 0.0 <= e <= 27.0 * Relative(prec)
    requires q == x * y && IsLarge(q) && Multiply(a, b, prec).Ok?
    ensures ResultOff(Multiply(a, b, prec), q, d + e + Relative(prec))
  {
    ProductOffAt(a, b, Value(a), Value(b), x, y, d, e, prec, Value(a) * Value(b), q);
  }

  lemma ProductOffAt(
    a: Dec, b: Dec, v: real, w: real, x: real, y: real, d: real, e: real, prec: nat, p: real, q: real)
    requires prec >= 9 && v == Value(a) && w == Value(b) && Off(v, x, d) && Off(w, y, e)
    requires 0.0 <= d <= 27.0 * Relative(prec) && 0.0 <= e <= 27.0 * Relative(prec)
    requires p == v * w && q == x * y && IsLarge(q) && Multiply(a, b, prec).Ok?
    ensures ResultOff(Multiply(a, b, prec), q, d + e + Relative(prec))
  {
    ProductAnswered(a, b, v, w, prec, p);
    FactorsOff(Multiply(a, b, prec), v, x, d, w, y, e, prec, p, q);
  }

  lemma FactorsOff(o: Outcome, v: real, x: real, d: real, w: real, y: real, e: real, prec: nat, p: real, q: real)
    requires prec >= 9 && Off(v, x, d) && Off(w, y, e) && p == v * w && q == x * y && IsLarge(q)
    requires 0.0 <= d <= 27.0 * Relative(prec) && 0.0 <= e <= 27.0 * Relative(prec)
    requires o.Ok? && Answered(o, p, prec)
    ensures ResultOff(o, q, d + e + Relative(prec))
  {
    RelativeIsSmall(prec);
    ProductIsOff(o, v, x, d, w, y, e, prec, p, q);
  }

  // ------------------------------------------------------------ rounded at the end

  lemma WorkIsFine(work: nat, prec: nat)
    requires prec >= 9 && work >= prec + 3
    ensures 0.0 < 1000.0 * Relative(work) <= Relative(prec) <= 0.0000001
  {
    RelativeIsSmall(prec);
    RelativeIsSmall(work);
    ShiftExponent(1 - work, -2 - prec);
    Thousand(-2 - prec);
  }

  lemma Thousand(e: int)
    ensures Shift(1, e + 3) == 1000.0 * Shift(1, e)
  {
    ShiftTen(1, e);
    ShiftTen(1, e + 1);
    ShiftTen(1, e + 2);
    ShiftTen(10, e);
    ShiftTen(10, e + 1);
    ShiftTen(100, e);
  }

  /** The last rounding leaves room for what the products were off. */
  lemma LastRounding(o: Outcome, p: real, x: real, e: real, work: nat, prec: nat)
    requires prec >= 9 && work >= prec + 3 && Off(p, x, e) && 0.0 <= e <= 29.0 * Relative(work) && IsLarge(x)
    requires Answered(o, p, prec)
    ensures ResultOff(o, x, Relative(prec))
  {
    if o.Ok? {
      var r := 0.6 * Relative(prec);
      WorkIsFine(work, prec);
      StaysAbove(p, x, e, LeastNormal());
      RoundingIsOff(o, p, prec);
      OffAgain(Value(o.value), p, r, x, e, e + r + r * e);
      RoomLeft(e, r, Relative(prec), r * e);
      OffMore(Value(o.value), x, e + r + r * e, Relative(prec));
    }
  }

  lemma RoomLeft(e: real, r: real, u: real, product: real)
    requires 0.0 <= e <= 0.029 * u && r == 0.6 * u && 0.0 < u <= 0.0000001 && product == r * e
    ensures e + r + product <= u
  {
    PartGrows(r, e, 0.5, product, r * 0.5);
  }

  lemma PowerRoundedIsOff(base: Dec, x: real, e: real, n: nat, work: nat, prec: nat)
    requires prec >= 9 && work >= prec + 3 && 1 <= n <= 15 && Off(Value(base), x, e) && 0.0 <= e <= Relative(work)
    requires IsLarge(RealPow(x, n))
    ensures ResultOff(PowerRounded(base, n, work, prec), RealPow(x, n), Relative(prec))
  {
    var p := PowerUp(base, n, work);
    if p.Ok? {
      PowerUpIsOff(base, x, e, n, work);
      PowerErrorFits(n, e, Relative(work));
      FixAnswers(p.value, prec);
      LastRounding(Fix(p.value, prec), Value(p.value), RealPow(x, n), PowerError(n, e, Relative(work)), work, prec);
    }
  }

  lemma NothingOff(x: real)
    ensures Off(x, x, 0.0)
  {
  }

  lemma InverseIsOff(base: Dec, x: real, n: nat, work: nat)
    requires work >= 9 && n >= 1 && Value(base) != 0.0 && x == 1.0 / Value(base) && IsLarge(RealPow(x, n))
    ensures ResultOff(Divide(One, base, work), x, 0.6 * Relative(work))
  {
    LeastIsSmall();
    PowerAtLeast(x, 1, n, 2.0 * LeastNormal());
    FirstPower(x);
    assert Value(One) == 1.0;
    DivideAnswers(One, base, work);
    if Divide(One, base, work).Ok? { RoundingIsOff(Divide(One, base, work), x, work); }
  }

  lemma NegativePowerIsOff(base: Dec, x: real, n: nat, work: nat, prec: nat)
    requires prec >= 9 && work >= prec + 3 && 1 <= n <= 15 && Value(base) != 0.0 && x == 1.0 / Value(base)
    requires IsLarge(RealPow(x, n))
    ensures var inverse := Divide(One, base, work);
            inverse.Ok? ==> ResultOff(PowerRounded(inverse.value, n, work, prec), RealPow(x, n), Relative(prec))
  {
    var inverse := Divide(One, base, work);
    InverseIsOff(base, x, n, work);
    RelativeIsSmall(work);
    if inverse.Ok? { PowerRoundedIsOff(inverse.value, x, 0.6 * Relative(work), n, work, prec); }
  }

  /** A small integer power is off by less than a unit of its last digit, unless it is next to nothing. */
  lemma PowerIsClose(base: Dec, n: int, prec: nat)
    requires prec >= 9 && -15 <= n <= 15 && Power(base, n, prec).Ok?
    ensures n > 0 || Value(base) != 0.0
    ensures IsLarge(IdealPow(Value(base), n)) ==> ResultOff(Power(base, n, prec), IdealPow(Value(base), n), Relative(prec))
  {
    SignedValue(base);
    if IsLarge(IdealPow(Value(base), n)) {
      if n > 0 { PositiveIsClose(base, n, prec); }
      else if n < 0 { NegativeIsClose(base, n, -n, prec, 1.0 / Value(base)); }
      else { ZerothIsClose(Value(base), prec); }
    }
  }

  lemma PositiveIsClose(base: Dec, n: nat, prec: nat)
    requires prec >= 9 && 1 <= n <= 15 && IsLarge(RealPow(Value(base), n))
    ensures ResultOff(Power(base, n, prec), RealPow(Value(base), n), Relative(prec))
  {
    NothingOff(Value(base));
    RelativeIsSmall(prec + NumDigits(n) + 2);
    PowerRoundedIsOff(base, Value(base), 0.0, n, prec + NumDigits(n) + 2, prec);
  }

  lemma NegativeIsClose(base: Dec, m: int, n: nat, prec: nat, x: real)
    requires prec >= 9 && 1 <= n <= 15 && m == 0 - n && base.coef != 0 && Value(base) != 0.0 && x == 1.0 / Value(base)
    requires IsLarge(RealPow(x, n))
    ensures ResultOff(Power(base, m, prec), RealPow(x, n), Relative(prec))
  {
    NegativePowerIsOff(base, x, n, prec + NumDigits(n) + 3, prec);
  }

  lemma ZerothIsClose(x: real, prec: nat)
    requires prec >= 9
    ensures ResultOff(Ok(One, false), RealPow(x, 0), Relative(prec))
  {
    RelativeIsSmall(prec);
    ZerothPower(x);
  }
}
