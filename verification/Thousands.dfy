/** `_thousands` of `expenses/balance.py` and `_as_decimal` of `agents/duplicate_guard.py`: how an
    amount is shown to people, and how what people write is read. */
module Thousands {
  import opened Options
  import opened Powers
  import opened DecimalArithmetic
  import opened NumberText
  import opened CalculatorText

  // ------------------------------------------------------------ printing

  function ThreeDigits(m: nat): string
    requires m < 1000
  {
    [DigitChar(m / 100), DigitChar(m / 10 % 10), DigitChar(m % 10)]
  }

  function TwoDigits(m: nat): string
    requires m < 100
  {
    [DigitChar(m / 10), DigitChar(m % 10)]
  }

  /** Digits in groups of three. */
  function Grouped(n: nat, sep: char): string {
    if n < 1000 then Digits(n) else Grouped(n / 1000, sep) + [sep] + ThreeDigits(n % 1000)
  }

  function Swapped(t: string): (r: string)
    ensures |r| == |t|
  {
    seq(|t|, i requires 0 <= i < |t| => if t[i] == ',' then '.' else if t[i] == '.' then ',' else t[i])
  }

  /** An amount of `cents` hundredths: "1.660.000", "12,75". The library's format is
      "1,660,000.00"; zeros at the end go, then the signs swap. */
  function Show(cents: nat): string {
    Swapped(RStrip(RStrip(Grouped(cents / 100, ',') + ['.'] + TwoDigits(cents % 100), '0'), '.'))
  }

  // ------------------------------------------------------------ reading

  function StripMarks(t: string): string {
    if t != [] && (t[|t| - 1] == '.' || t[|t| - 1] == ',') then StripMarks(t[..|t| - 1]) else t
  }

  /** Only groups of a separator and three digits. */
  predicate OnlyGroups(t: string) {
    t == [] || (|t| >= 4 && (t[0] == '.' || t[0] == ',') && AllDigits(t[1..4]) && OnlyGroups(t[4..]))
  }

  /** One to three digits and then at least one group. */
  predicate IsGrouped(t: string) {
    exists a | 1 <= a <= 3 :: a < |t| && AllDigits(t[..a]) && OnlyGroups(t[a..])
  }

  function PointsForCommas(t: string): (r: string)
    ensures |r| == |t|
  {
    seq(|t|, i requires 0 <= i < |t| => if t[i] == ',' then '.' else t[i])
  }

  /** A number as a person writes it, of digits, points and commas. */
  function AsDecimal(text: string): Option<Dec> {
    var digits := StripMarks(text);
    if IsGrouped(digits) then ReadDecimal(Without(Without(digits, '.'), ','))
    else ReadDecimal(PointsForCommas(digits))
  }

  // ------------------------------------------------------------ the shape of groups

  lemma {:induction false} WithoutConcat(a: string, b: string, c: char)
    ensures Without(a + b, c) == Without(a, c) + Without(b, c)
  {
    if a == [] {
      assert a + b == b;
    } else {
      WithoutConcat(a[1..], b, c);
      assert (a + b)[0] == a[0] && (a + b)[1..] == a[1..] + b;
      var first := if a[0] == c then [] else [a[0]];
      assert first + (Without(a[1..], c) + Without(b, c)) == (first + Without(a[1..], c)) + Without(b, c);
    }
  }

  lemma {:induction false} WithoutNone(t: string, c: char)
    requires c !in t
    ensures Without(t, c) == t
  {
    if t != [] { WithoutNone(t[1..], c); }
  }

  /** Only groups of the separator `sep`. */
  predicate SepGroups(t: string, sep: char) {
    t == [] || (|t| >= 4 && t[0] == sep && AllDigits(t[1..4]) && SepGroups(t[4..], sep))
  }

  lemma {:induction false} SepGroupsGrow(t: string, sep: char, group: string)
    requires SepGroups(t, sep) && |group| == 3 && AllDigits(group)
    ensures SepGroups(t + ([sep] + group), sep)
  {
    var more := [sep] + group;
    if t == [] {
      assert t + more == more;
      assert more[1..4] == group && more[4..] == [];
    } else {
      SepGroupsGrow(t[4..], sep, group);
      assert (t + more)[1..4] == t[1..4] && (t + more)[4..] == t[4..] + more;
    }
  }

  lemma LastPlace(m: nat, d: nat, n: nat)
    requires n == 10 * m + d && d < 10
    ensures n / 10 == m && n % 10 == d
  {
  }

  lemma DigitsOf(m: nat, d: nat, n: nat)
    requires n == 10 * m + d && d < 10 && n >= 10
    ensures Digits(n) == Digits(m) + [DigitChar(d)]
  {
    LastPlace(m, d, n);
  }

  lemma DigitsByThousand(n: nat)
    requires n >= 1000
    ensures Digits(n) == Digits(n / 1000) + ThreeDigits(n % 1000)
  {
    var q, r := n / 1000, n % 1000;
    var a, b, c := r / 100, r / 10 % 10, r % 10;
    assert r == 100 * a + 10 * b + c;
    DigitsOf(100 * q + 10 * a + b, c, n);
    DigitsOf(10 * q + a, b, 100 * q + 10 * a + b);
    DigitsOf(q, a, 10 * q + a);
    assert Digits(q) + [DigitChar(a)] + [DigitChar(b)] + [DigitChar(c)] == Digits(q) + ThreeDigits(r);
  }

  function HeadOf(n: nat): nat {
    if n < 1000 then n else HeadOf(n / 1000)
  }

  function GroupCount(n: nat): (k: nat)
    ensures (k >= 1 <==> n >= 1000) && (k >= 2 <==> n >= 1000000)
  {
    if n < 1000 then 0 else 1 + GroupCount(n / 1000)
  }

  /** The groups behind the head. */
  function GroupTail(n: nat, sep: char): string {
    if n < 1000 then [] else GroupTail(n / 1000, sep) + ([sep] + ThreeDigits(n % 1000))
  }

  lemma ThreeAreDigits(m: nat)
    requires m < 1000
    ensures AllDigits(ThreeDigits(m))
  {
  }

  lemma {:induction false} TailIsGroups(n: nat, sep: char)
    ensures SepGroups(GroupTail(n, sep), sep) && |GroupTail(n, sep)| == 4 * GroupCount(n)
  {
    if n >= 1000 {
      TailIsGroups(n / 1000, sep);
      ThreeAreDigits(n % 1000);
      SepGroupsGrow(GroupTail(n / 1000, sep), sep, ThreeDigits(n % 1000));
    }
  }

  lemma {:induction false} HeadAndTail(n: nat, sep: char)
    ensures Grouped(n, sep) == Digits(HeadOf(n)) + GroupTail(n, sep)
    ensures HeadOf(n) < 1000 && (n > 0 ==> HeadOf(n) > 0)
  {
    if n >= 1000 {
      HeadAndTail(n / 1000, sep);
      var group := [sep] + ThreeDigits(n % 1000);
      assert Grouped(n, sep) == Grouped(n / 1000, sep) + group;
      assert Digits(HeadOf(n)) + (GroupTail(n / 1000, sep) + group)
          == (Digits(HeadOf(n)) + GroupTail(n / 1000, sep)) + group;
    }
  }

  /** A grouped number is a head of one to three digits, without a superfluous zero, and groups. */
  lemma GroupedShape(n: nat, sep: char)
    ensures Grouped(n, sep) == Digits(HeadOf(n)) + GroupTail(n, sep)
    ensures SepGroups(GroupTail(n, sep), sep) && |GroupTail(n, sep)| == 4 * GroupCount(n)
    ensures HeadOf(n) < 1000 && (n > 0 ==> HeadOf(n) > 0)
  {
    TailIsGroups(n, sep);
    HeadAndTail(n, sep);
  }

  lemma {:induction false} GroupedLength(n: nat, sep: char)
    ensures |Grouped(n, sep)| <= 2 * |Digits(n)|
  {
    if n >= 1000 {
      GroupedLength(n / 1000, sep);
      DigitsByThousand(n);
      DigitsReadBack(n / 1000);
    }
  }

  lemma WithoutGroup(t: string, sep: char, group: string)
    requires AllDigits(group) && !IsDigit(sep)
    ensures Without(t + ([sep] + group), sep) == Without(t, sep) + group
  {
    WithoutConcat(t, [sep] + group, sep);
    assert ([sep] + group)[1..] == group;
    WithoutNone(group, sep);
  }

  lemma {:induction false} GroupedIsDigits(n: nat, sep: char)
    requires !IsDigit(sep)
    ensures Without(Grouped(n, sep), sep) == Digits(n)
  {
    if n < 1000 {
      DigitsReadBack(n);
      WithoutNone(Digits(n), sep);
    } else {
      GroupedIsDigits(n / 1000, sep);
      ThreeAreDigits(n % 1000);
      assert Grouped(n, sep) == Grouped(n / 1000, sep) + ([sep] + ThreeDigits(n % 1000));
      WithoutGroup(Grouped(n / 1000, sep), sep, ThreeDigits(n % 1000));
      DigitsByThousand(n);
    }
  }

  /** Without its separators it is the number. */
  lemma GroupedWithout(n: nat, sep: char)
    requires sep == '.' || sep == ','
    ensures Without(Grouped(n, sep), sep) == Digits(n) && |Grouped(n, sep)| <= 2 * |Digits(n)|
  {
    GroupedIsDigits(n, sep);
    GroupedLength(n, sep);
  }

  lemma HeadDigits(n: nat)
    ensures var h := Digits(HeadOf(n));
            && 1 <= |h| <= 3 && AllDigits(h) && NoLeadingZero(h) && (n > 0 ==> h[0] != '0')
  {
    GroupedShape(n, '.');
    DigitsReadBack(HeadOf(n));
    DigitsUpTo(HeadOf(n), 3);
  }

  // ------------------------------------------------------------ the shape of a shown amount

  function Tail(frac: string): string { if frac == [] then [] else [','] + frac }

  lemma SwappedConcat(a: string, b: string)
    ensures Swapped(a + b) == Swapped(a) + Swapped(b)
  {
  }

  lemma SwappedDigits(t: string)
    requires AllDigits(t)
    ensures Swapped(t) == t
  {
  }

  lemma {:induction false} SwappedGroups(n: nat)
    ensures Swapped(Grouped(n, ',')) == Grouped(n, '.')
  {
    if n < 1000 {
      DigitsReadBack(n);
      SwappedDigits(Digits(n));
    } else {
      SwappedGroups(n / 1000);
      ThreeAreDigits(n % 1000);
      SwappedDigits(ThreeDigits(n % 1000));
      SwappedConcat(Grouped(n / 1000, ','), [',']);
      SwappedConcat(Grouped(n / 1000, ',') + [','], ThreeDigits(n % 1000));
      assert Swapped([',']) == ['.'];
    }
  }

  lemma GroupedEnds(n: nat, sep: char)
    ensures Grouped(n, sep) != [] && IsDigit(Grouped(n, sep)[|Grouped(n, sep)| - 1])
    ensures IsDigit(Grouped(n, sep)[0])
  {
    HeadDigits(n);
    GroupedShape(n, sep);
    if n < 1000 { DigitsReadBack(n); } else { ThreeAreDigits(n % 1000); }
  }

  lemma TwoDigitsRead(m: nat)
    requires m < 100
    ensures AllDigits(TwoDigits(m)) && ReadDigits(TwoDigits(m)) == m
    ensures TwoDigits(m) == Zeros(2) <==> m == 0
  {
    var t := TwoDigits(m);
    assert t[..1] == [t[0]] && [t[0]][..0] == [];
    assert ReadDigits([t[0]]) == m / 10 && ReadDigits(t) == 10 * ReadDigits(t[..1]) + m % 10;
    assert Zeros(2)[0] == '0' && Zeros(2)[1] == '0';
    assert m == 0 ==> t == Zeros(2);
  }

  lemma WholeAndHundredths(n: nat, two: string)
    requires AllDigits(two) && |two| == 2
    ensures AllDigits(Digits(n) + two) && ReadDigits(Digits(n) + two) == 100 * n + ReadDigits(two)
  {
    DigitsReadBack(n);
    ReadConcat(Digits(n), two);
    Hundred(n, TenTo(|two|));
  }

  lemma Hundred(n: nat, m: nat)
    requires m == TenTo(2)
    ensures n * m == 100 * n
  {
    assert TenTo(2) == 10 * TenTo(1);
  }

  lemma HundredthsValue(n: nat, two: string, frac: string, cents: nat)
    requires AllDigits(two) && |two| == 2 && cents == 100 * n + ReadDigits(two)
    requires |frac| <= 2 && AllDigits(frac) && two == frac + Zeros(2 - |frac|)
    ensures AllDigits(Digits(n) + frac)
    ensures Shift(ReadDigits(Digits(n) + frac), -|frac|) == Shift(cents, -2)
  {
    WholeAndHundredths(n, two);
    DigitsReadBack(n);
    TrailingZeros(Digits(n), frac, 2 - |frac|);
    assert Digits(n) + (frac + Zeros(2 - |frac|)) == Digits(n) + two;
    assert -|frac| - (2 - |frac|) == -2;
  }

  /** A shown amount: groups with points, then a comma and the decimals that are not zero. */
  lemma ShowShape(cents: nat) returns (frac: string)
    ensures Show(cents) == Grouped(cents / 100, '.') + Tail(frac)
    ensures AllDigits(frac) && |frac| <= 2 && (frac == [] <==> cents % 100 == 0)
    ensures AllDigits(Digits(cents / 100) + frac)
    ensures Shift(ReadDigits(Digits(cents / 100) + frac), -|frac|) == Shift(cents, -2)
  {
    var n, two := cents / 100, TwoDigits(cents % 100);
    TwoDigitsRead(cents % 100);
    GroupedEnds(n, ',');
    frac := StripText(Grouped(n, ','), two);
    AllDigitsConcat(frac, Zeros(2 - |frac|));
    assert frac == [] ==> two == Zeros(2);
    assert frac != [] ==> two[|frac| - 1] == frac[|frac| - 1];
    HundredthsValue(n, two, frac, cents);
    SwappedTail(n, frac);
  }

  lemma SwappedTail(n: nat, frac: string)
    requires AllDigits(frac)
    ensures Swapped(Plain(Grouped(n, ','), frac)) == Grouped(n, '.') + Tail(frac)
  {
    SwappedGroups(n);
    SwappedDigits(frac);
    if frac != [] {
      SwappedConcat(Grouped(n, ','), ['.']);
      SwappedConcat(Grouped(n, ',') + ['.'], frac);
      assert Swapped(['.']) == [','];
    }
  }
}
