/** Powers of ten, numbers n · 10^e, and the number of digits of a natural number. */
module Powers {
  function TenTo(n: nat): (p: nat)
    ensures p >= 1
  {
    if n == 0 then 1 else 10 * TenTo(n - 1)
  }

  /** The number n · 10^e. */
  function Shift(n: int, e: int): real
    decreases if e < 0 then -e else e
  {
    if e == 0 then n as real
    else if e > 0 then Shift(10 * n, e - 1)
    else Shift(n, e + 1) / 10.0
  }

  /** How many decimal digits `n` is written with. */
  function NumDigits(n: nat): (k: nat)
    ensures k >= 1
  {
    if n < 10 then 1 else 1 + NumDigits(n / 10)
  }

  // ------------------------------------------------------------ nonlinear steps, one at a time

  /** Integer quotient and rest; `QuotRest` has the facts about them. */
  function Quot(x: nat, m: nat): nat
    requires m >= 1
  {
    x / m
  }

  function Rest(x: nat, m: nat): nat
    requires m >= 1
  {
    x % m
  }

  lemma QuotRest(x: nat, m: nat)
    requires m >= 1
    ensures x == Quot(x, m) * m + Rest(x, m) && 0 <= Rest(x, m) < m
    ensures Quot(x, m) * m <= x < Quot(x, m) * m + m
  {
  }

  lemma MulLess(a: int, b: int, m: int)
    requires a < b && m >= 0
    ensures a * m + m <= b * m
  {
    NaturalProduct(b - a - 1, m);
    SplitProduct(a, b - a - 1, b, m);
  }

  lemma NaturalProduct(d: nat, m: nat)
    ensures d * m >= 0
  {
  }

  lemma SplitProduct(a: int, d: int, b: int, m: int)
    requires b == a + d + 1
    ensures b * m == a * m + m + d * m
  {
  }

  lemma QuotUnique(x: nat, m: nat, q: nat)
    requires m >= 1 && q * m <= x < q * m + m
    ensures Quot(x, m) == q
  {
    QuotRest(x, m);
    var p := Quot(x, m);
    if p < q { MulLess(p, q, m); } else if p > q { MulLess(q, p, m); }
  }

  lemma MulAssoc(x: real, y: real, z: real)
    ensures (x * y) * z == x * (y * z)
  {
  }

  lemma MulMono(x: real, y: real, z: real)
    requires x <= y && z >= 0.0
    ensures x * z <= y * z
  {
  }

  lemma IntMulReal(a: int, b: int)
    ensures (a * b) as real == a as real * b as real
  {
  }

  lemma MulCancel(x: real, y: real, z: real)
    requires x * z == y * z && z != 0.0
    ensures x == y
  {
    assert (x - y) * z == 0.0;
  }

  // ------------------------------------------------------------ n · 10^e

  lemma {:induction false} ShiftTen(n: int, e: int)
    ensures Shift(10 * n, e) == Shift(n, e + 1)
    ensures Shift(10 * n, e) == 10.0 * Shift(n, e)
    decreases if e < 0 then -e else e
  {
    if e > 0 { ShiftTen(10 * n, e - 1); } else if e < 0 { ShiftTen(n, e + 1); }
  }

  lemma {:induction false} ShiftAdd(a: int, b: int, e: int)
    ensures Shift(a + b, e) == Shift(a, e) + Shift(b, e)
    decreases if e < 0 then -e else e
  {
    if e > 0 { ShiftAdd(10 * a, 10 * b, e - 1); } else if e < 0 { ShiftAdd(a, b, e + 1); }
  }

  lemma {:induction false} ShiftPositive(n: int, e: int)
    ensures n > 0 <==> Shift(n, e) > 0.0
    ensures n == 0 <==> Shift(n, e) == 0.0
    decreases if e < 0 then -e else e
  {
    if e > 0 { ShiftPositive(10 * n, e - 1); } else if e < 0 { ShiftPositive(n, e + 1); }
  }

  lemma ShiftNegate(n: int, e: int)
    ensures Shift(-n, e) == -Shift(n, e)
  {
    ShiftAdd(n, -n, e);
    ShiftPositive(0, e);
  }

  lemma ShiftOrder(a: int, b: int, e: int)
    ensures a < b <==> Shift(a, e) < Shift(b, e)
    ensures a == b <==> Shift(a, e) == Shift(b, e)
  {
    ShiftAdd(a, b - a, e);
    ShiftPositive(b - a, e);
  }

  lemma {:induction false} ShiftRescale(n: int, e: int, k: nat)
    ensures Shift(n * TenTo(k), e) == Shift(n, e + k)
    decreases k
  {
    if k > 0 {
      ShiftRescale(n, e, k - 1);
      MulLeft(n, TenTo(k - 1));
      ShiftTen(n * TenTo(k - 1), e);
      ShiftTen(n, e + k - 1);
    }
  }

  lemma MulLeft(a: int, b: int)
    ensures a * (10 * b) == 10 * (a * b)
  {
  }

  lemma {:induction false} ShiftTimes(a: int, e: int, b: int)
    ensures Shift(a * b, e) == Shift(a, e) * b as real
    decreases if e < 0 then -e else e
  {
    if e > 0 {
      ShiftTimes(10 * a, e - 1, b);
      MulFirst(a, b);
    } else if e < 0 {
      ShiftTimes(a, e + 1, b);
      MulTenth(Shift(a, e + 1), b as real);
    } else {
      IntMulReal(a, b);
    }
  }

  lemma {:induction false} ShiftProduct(a: int, e: int, b: int, f: int)
    ensures Shift(a * b, e + f) == Shift(a, e) * Shift(b, f)
    decreases if f < 0 then -f else f
  {
    if f > 0 {
      ShiftProduct(a, e, 10 * b, f - 1);
      MulLeft(a, b);
      ShiftTen(a * b, e + f - 1);
    } else if f < 0 {
      ShiftProduct(a, e, b, f + 1);
      ShiftTen(a * b, e + f);
      MulTenth(Shift(b, f + 1), Shift(a, e));
    } else {
      ShiftTimes(a, e, b);
    }
  }

  lemma MulFirst(a: int, b: int)
    ensures (10 * a) * b == 10 * (a * b)
  {
  }

  lemma MulTenth(x: real, y: real)
    ensures (x / 10.0) * y == x * y / 10.0
    ensures y * (x / 10.0) == x * y / 10.0
  {
  }

  lemma {:induction false} TenToAdd(a: nat, b: nat)
    ensures TenTo(a + b) == TenTo(a) * TenTo(b)
  {
    if b > 0 { TenToAdd(a, b - 1); }
  }

  lemma {:induction false} TenToMonotone(a: nat, b: nat)
    requires a <= b
    ensures TenTo(a) <= TenTo(b)
  {
    if a < b { TenToMonotone(a, b - 1); }
  }

  lemma {:induction false} DigitBounds(n: nat)
    ensures n < TenTo(NumDigits(n))
    ensures n > 0 ==> TenTo(NumDigits(n) - 1) <= n
  {
    if n >= 10 { DigitBounds(n / 10); }
  }

  lemma DigitsUpTo(n: nat, k: nat)
    requires k >= 1
    ensures NumDigits(n) <= k <==> n < TenTo(k)
  {
    DigitBounds(n);
    if NumDigits(n) <= k { TenToMonotone(NumDigits(n), k); }
    else { TenToMonotone(k, NumDigits(n) - 1); }
  }
}
