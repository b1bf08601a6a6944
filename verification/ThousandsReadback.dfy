/** A shown amount is never misread: the calculator and the duplicate guard read it back exactly or
    not at all. */
module ThousandsReadback {
  import opened Options
  import opened Powers
  import opened DecimalArithmetic
  import opened DecimalExactness
  import opened NumberText
  import opened Calculator
  import opened CalculatorBounds
  import opened CalculatorText
  import opened NormalizeNumbers
  import opened Thousands

  // ------------------------------------------------------------ groups in a longer text

  lemma {:induction false} GroupsOf(g: string, sep: char, rest: string)
    requires SepGroups(g, sep) && (rest == [] || rest[0] != sep)
    ensures Groups(g + rest, sep) == |g| / 4
  {
    if g == [] {
      assert g + rest == rest;
    } else {
      GroupsOf(g[4..], sep, rest);
      assert (g + rest)[1..4] == g[1..4] && (g + rest)[4..] == g[4..] + rest;
    }
  }

  /** The greedy head stops at the first separator. */
  lemma OnlyHead(t: string, sep: char, a: nat)
    requires 1 <= a <= 3 && a < |t| && Head(t, a) && t[a] == sep && !IsDigit(sep)
    ensures Groups(t[a..], sep) >= 2 ==> ThousandsLength(t, sep) == a + 4 * Groups(t[a..], sep)
  {
    assert a < 3 && |t| >= 3 ==> t[..3][a] == sep;
    assert a < 2 && |t| >= 2 ==> t[..2][a] == sep;
  }

  lemma ThousandsLengthOf(head: string, g: string, sep: char, rest: string)
    requires 1 <= |head| <= 3 && AllDigits(head) && !IsDigit(sep)
    requires SepGroups(g, sep) && |g| >= 8 && (rest == [] || rest[0] != sep)
    ensures ThousandsLength(head + g + rest, sep) == |head| + |g|
  {
    var t := head + g + rest;
    GroupsOf(g, sep, rest);
    GroupsLength(g, sep);
    SplitAfterHead(t, head, g, rest);
    OnlyHead(t, sep, |head|);
  }

  lemma SplitAfterHead(t: string, head: string, g: string, rest: string)
    requires t == head + g + rest && g != []
    ensures |head| < |t| && t[..|head|] == head && t[|head|..] == g + rest && t[|head|] == g[0]
  {
  }

  lemma {:induction false} GroupsLength(g: string, sep: char)
    requires SepGroups(g, sep)
    ensures |g| % 4 == 0
  {
    if g != [] { GroupsLength(g[4..], sep); }
  }

  lemma TailChars(frac: string)
    requires AllDigits(frac)
    ensures '.' !in Tail(frac) && '%' !in Tail(frac)
    ensures forall i :: 0 < i < |Tail(frac)| ==> IsDigit(Tail(frac)[i])
  {
  }

  /** From a million on, the thousands are joined. */
  lemma JoinsMillions(n: nat, frac: string)
    requires n >= 1000000 && AllDigits(frac)
    ensures JoinThousands(Grouped(n, '.') + Tail(frac), '.') == Digits(n) + Tail(frac)
  {
    GroupedShape(n, '.');
    HeadDigits(n);
    GroupedWithout(n, '.');
    TailChars(frac);
    var t := Grouped(n, '.') + Tail(frac);
    ThousandsLengthOf(Digits(HeadOf(n)), GroupTail(n, '.'), '.', Tail(frac));
    assert t[..|Grouped(n, '.')|] == Grouped(n, '.') && t[|Grouped(n, '.')|..] == Tail(frac);
    JoinKeeps(Tail(frac), '.');
  }

  lemma {:induction false} GroupedChars(n: nat)
    ensures forall i :: 0 <= i < |Grouped(n, '.')| ==> IsDigit(Grouped(n, '.')[i]) || Grouped(n, '.')[i] == '.'
  {
    if n < 1000 {
      DigitsReadBack(n);
    } else {
      GroupedChars(n / 1000);
      ThreeAreDigits(n % 1000);
    }
  }

  lemma ShownEnds(n: nat, frac: string)
    requires AllDigits(frac)
    ensures var t := Grouped(n, '.') + Tail(frac);
            && t != [] && IsDigit(t[0]) && IsDigit(t[|t| - 1])
            && (forall i :: 0 <= i < |t| ==> IsNumChar(t[i]))
            && Strip(t) == t && Signs(t) == t
  {
    var t := Grouped(n, '.') + Tail(frac);
    GroupedEnds(n, '.');
    GroupedChars(n);
    TailChars(frac);
    assert frac != [] ==> t[|t| - 1] == frac[|frac| - 1];
    assert t[0] == Grouped(n, '.')[0];
    SignsKeep(t);
  }

  // ------------------------------------------------------------ the calculator reads a shown amount

  lemma WrittenWithTail(whole: string, frac: string)
    ensures Written(false, whole, ',', frac) == whole + Tail(frac)
    ensures MinusSign(false) + Plain(whole, frac) == Plain(whole, frac)
  {
  }

  lemma UngroupedNormalizes(n: nat, frac: string)
    requires AllDigits(frac) && |frac| <= 2
    ensures Normalize(Digits(n) + Tail(frac)) == Good(Plain(Digits(n), frac))
    ensures JoinThousands(JoinThousands(Signs(Strip(Digits(n) + Tail(frac))), '.'), ',') == Digits(n) + Tail(frac)
  {
    DigitsReadBack(n);
    WrittenWithTail(Digits(n), frac);
    NormalizeNumber(false, Digits(n), ',', frac);
    SeparatorsKeep(false, Digits(n), ',', frac);
  }

  /** Texts that look the same once their thousands are joined are normalised alike. */
  lemma NormalizesAlike(t: string, w: string)
    requires JoinThousands(JoinThousands(Signs(Strip(t)), '.'), ',')
             == JoinThousands(JoinThousands(Signs(Strip(w)), '.'), ',')
    ensures Normalize(t) == Normalize(w)
  {
  }

  /** A number without thousands, or with two or more separators, becomes plain digits. */
  lemma NormalizesToPlain(n: nat, frac: string)
    requires (n < 1000 || n >= 1000000) && AllDigits(frac) && |frac| <= 2
    ensures Normalize(Grouped(n, '.') + Tail(frac)) == Good(Plain(Digits(n), frac))
  {
    UngroupedNormalizes(n, frac);
    if n >= 1000000 {
      var w := Digits(n) + Tail(frac);
      DigitsReadBack(n);
      ShownEnds(n, frac);
      JoinsMillions(n, frac);
      WrittenEnds(w, Digits(n), frac);
      NormalizesAlike(Grouped(n, '.') + Tail(frac), w);
    }
  }

  lemma WrittenEnds(w: string, digits: string, frac: string)
    requires AllDigits(digits) && digits != [] && AllDigits(frac) && w == digits + Tail(frac)
    requires JoinThousands(JoinThousands(Signs(Strip(w)), '.'), ',') == w
    ensures JoinThousands(w, ',') == w
  {
    TailChars(frac);
    JoinKeeps(w, ',');
  }

  lemma ThousandHead(n: nat)
    requires 1000 <= n < 1000000
    ensures var whole, three := Digits(n / 1000), ThreeDigits(n % 1000);
            && Grouped(n, '.') == whole + ['.'] + three
            && AllDigits(whole) && 1 <= |whole| <= 3 && whole[0] != '0' && AllDigits(three)
  {
    DigitsReadBack(n / 1000);
    ThreeAreDigits(n % 1000);
    DigitsUpTo(n / 1000, 3);
  }

  /** One separator alone is ambiguous. */
  lemma WholeThousandIsAmbiguous(n: nat)
    requires 1000 <= n < 1000000
    ensures Normalize(Grouped(n, '.')) == Bad(Ambiguous)
  {
    ThousandHead(n);
    var whole, three := Digits(n / 1000), ThreeDigits(n % 1000);
    assert Grouped(n, '.') == Written(false, whole, '.', three);
    NormalizeNumber(false, whole, '.', three);
  }

  /** With decimals it is left with two points. */
  lemma ThousandWithDecimals(n: nat, frac: string)
    requires 1000 <= n < 1000000 && AllDigits(frac) && frac != []
    ensures var r := Normalize(Grouped(n, '.') + Tail(frac));
            r == Bad(Ambiguous) || r == Good(Digits(n / 1000) + ['.'] + ThreeDigits(n % 1000) + ['.'] + frac)
  {
    ThousandHead(n);
    var whole, three := Digits(n / 1000), ThreeDigits(n % 1000);
    var t := Grouped(n, '.') + Tail(frac);
    ShownEnds(n, frac);
    OnePointOneComma(whole, three, frac);
    JoinKeeps(t, '.');
    JoinKeeps(t, ',');
    TwoPoints(whole, three, frac);
    PercentsKeep(whole + ['.'] + three + ['.'] + frac);
  }

  lemma ThousandIsRefused(n: nat, frac: string, parse: string -> Option<Expr>)
    requires 1000 <= n < 1000000 && AllDigits(frac) && ParsesNumbers(parse)
    ensures Calculate(Grouped(n, '.') + Tail(frac), parse).Err?
  {
    ThousandHead(n);
    if frac == [] {
      WholeThousandIsAmbiguous(n);
      assert Grouped(n, '.') + Tail(frac) == Grouped(n, '.');
    } else {
      ThousandWithDecimals(n, frac);
      TwoPoints(Digits(n / 1000), ThreeDigits(n % 1000), frac);
    }
  }

  lemma OnePointOneComma(whole: string, three: string, frac: string)
    requires AllDigits(whole) && AllDigits(three) && AllDigits(frac) && whole != [] && three != [] && frac != []
    ensures var t := whole + ['.'] + three + Tail(frac);
            && AtMostOne(t, '.') && AtMostOne(t, ',')
            && DecimalCommas(t) == whole + ['.'] + three + ['.'] + frac
  {
    var t := whole + ['.'] + three + Tail(frac);
    var r := whole + ['.'] + three + ['.'] + frac;
    var p, q := |whole|, |whole| + 1 + |three|;
    forall i | 0 <= i < |t| && i != p && i != q ensures IsDigit(t[i]) && t[i] == r[i] {
    }
    assert t[q - 1] == three[|three| - 1] && t[q + 1] == frac[0];
    assert t[p] == '.' == r[p] && t[q] == ',' && r[q] == '.';
  }

  lemma TwoPoints(whole: string, three: string, frac: string)
    requires AllDigits(whole) && AllDigits(three) && AllDigits(frac) && whole != []
    ensures var t := whole + ['.'] + three + ['.'] + frac;
            && '%' !in t && IsNumberText(t) && NumberTree(t) == None
  {
    var t := whole + ['.'] + three + ['.'] + frac;
    assert IsDigit(t[0]) by { assert t[0] == whole[0]; }
    assert Unsigned(t) == t;
    assert t[|whole|] == '.';
    assert forall i :: 0 <= i < |whole| ==> t[i] == whole[i];
    assert Point(t) == |whole|;
    assert t[|whole| + 1..][|three|] == '.';
    assert forall i :: 0 <= i < |t| ==> IsDigit(t[i]) || t[i] == '.';
  }

  lemma LiteralCalculated(d: Dec, x: real)
    requires !d.neg && Value(d) == x
    ensures Eval(Num(d)).Ok? <==> x <= LIMIT
    ensures Eval(Num(d)).Ok? ==> Value(Eval(Num(d)).value) == x
  {
    SignedValue(d);
    CheckedIff(d);
  }

  lemma PlainParses(n: nat, frac: string)
    requires AllDigits(frac) && AllDigits(Digits(n) + frac)
    ensures var t := Plain(Digits(n), frac);
            IsNumberText(t) && NumberTree(t) == Some(Num(Dec(false, ReadDigits(Digits(n) + frac), -|frac|)))
  {
    DigitsReadBack(n);
    NumberParses(false, Digits(n), frac);
    assert MinusSign(false) + Plain(Digits(n), frac) == Plain(Digits(n), frac);
  }

  lemma PlainIsEvaluated(n: nat, frac: string, parse: string -> Option<Expr>, d: Dec)
    requires (n < 1000 || n >= 1000000) && AllDigits(frac) && |frac| <= 2 && ParsesNumbers(parse)
    requires AllDigits(Digits(n) + frac) && d == Dec(false, ReadDigits(Digits(n) + frac), -|frac|)
    ensures var r := Calculate(Grouped(n, '.') + Tail(frac), parse);
            && (r.Ok? ==> r == Eval(Num(d)))
            && (|Digits(n)| <= 34 ==> r == Eval(Num(d)))
  {
    NormalizesToPlain(n, frac);
    PlainParses(n, frac);
    GroupedWithout(n, '.');
    GroupedEnds(n, '.');
    ParsedIsCalculated(Grouped(n, '.') + Tail(frac), Plain(Digits(n), frac), Num(d), parse);
  }

  lemma PlainIsCalculated(n: nat, frac: string, parse: string -> Option<Expr>, x: real, d: Dec)
    requires (n < 1000 || n >= 1000000) && AllDigits(frac) && |frac| <= 2 && ParsesNumbers(parse)
    requires AllDigits(Digits(n) + frac) && d == Dec(false, ReadDigits(Digits(n) + frac), -|frac|)
    requires (Eval(Num(d)).Ok? ==> Value(Eval(Num(d)).value) == x) && (Eval(Num(d)).Ok? <==> x <= LIMIT)
    requires x <= LIMIT ==> |Digits(n)| <= 34
    ensures var r := Calculate(Grouped(n, '.') + Tail(frac), parse);
            && (r.Ok? ==> Value(r.value) == x)
            && (r.Ok? <==> x <= LIMIT)
  {
    PlainIsEvaluated(n, frac, parse, d);
  }

  /** What the calculator makes of a shown amount: nothing else than the amount. It is read exactly
      when it has no thousands separator or at least two, up to the size the calculator accepts. */
  lemma ShownAmountIsCalculated(cents: nat, parse: string -> Option<Expr>)
    requires ParsesNumbers(parse)
    ensures var r := Calculate(Show(cents), parse);
            && (r.Ok? ==> Value(r.value) == Shift(cents, -2))
            && (r.Ok? <==> (cents < 100000 || cents >= 100000000) && Shift(cents, -2) <= LIMIT)
  {
    var n := cents / 100;
    var frac := ShowShape(cents);
    if 1000 <= n < 1000000 {
      ThousandIsRefused(n, frac, parse);
    } else {
      if Shift(cents, -2) <= LIMIT { ShortEnough(cents); }
      var d := Dec(false, ReadDigits(Digits(n) + frac), -|frac|);
      LiteralCalculated(d, Shift(cents, -2));
      PlainIsCalculated(n, frac, parse, Shift(cents, -2), d);
    }
  }

  /** An amount the calculator accepts is short enough to be read at all. */
  lemma ShortEnough(cents: nat)
    requires Shift(cents, -2) <= LIMIT
    ensures |Digits(cents / 100)| <= 34
  {
    ShiftRescale(cents, -10, 8);
    ShiftOrder(TenTo(34) + 5, cents * TenTo(8), -10);
    HundredIsLess(cents);
    DigitsUpTo(cents / 100, 34);
    DigitsReadBack(cents / 100);
  }

  lemma HundredIsLess(cents: nat)
    requires cents * TenTo(8) <= TenTo(34) + 5
    ensures cents / 100 < TenTo(34)
  {
    assert TenTo(8) >= 100;
    MulAtLeast(cents, 100, TenTo(8));
  }

  lemma MulAtLeast(c: nat, a: nat, b: nat)
    requires a <= b
    ensures c * a <= c * b
  {
  }

  // ------------------------------------------------------------ the duplicate guard reads it

  lemma {:induction false} OnlyGroupsBehind(g: string, rest: string)
    requires SepGroups(g, '.')
    ensures OnlyGroups(g + rest) == OnlyGroups(rest)
  {
    if g == [] {
      assert g + rest == rest;
    } else {
      OnlyGroupsBehind(g[4..], rest);
      assert (g + rest)[1..4] == g[1..4] && (g + rest)[4..] == g[4..] + rest;
    }
  }

  /** A head and groups are thousands; decimals behind them are not. */
  lemma IsGroupedIff(head: string, g: string, frac: string)
    requires 1 <= |head| <= 3 && AllDigits(head) && SepGroups(g, '.') && AllDigits(frac) && |frac| <= 2
    ensures IsGrouped(head + g + Tail(frac)) <==> g != [] && frac == []
  {
    var t := head + g + Tail(frac);
    var h := |head|;
    OnlyGroupsBehind(g, Tail(frac));
    assert t[..h] == head && t[h..] == g + Tail(frac);
    assert h < |t| ==> t[h] == '.' || t[h] == ',';
    forall a | 1 <= a <= 3 && a < |t| ensures AllDigits(t[..a]) && OnlyGroups(t[a..]) ==> a == h {
      assert a < h ==> t[a] == head[a];
      assert h < a ==> t[..a][h] == t[h];
    }
  }

  lemma StripMarksKeeps(t: string)
    requires t != [] && IsDigit(t[|t| - 1])
    ensures StripMarks(t) == t
  {
  }

  lemma PointsOfDigits(t: string, frac: string)
    requires AllDigits(t) && AllDigits(frac)
    ensures PointsForCommas(t + Tail(frac)) == Plain(t, frac)
  {
  }

  lemma PointsOfGroups(n: nat, frac: string)
    requires n >= 1000 && AllDigits(frac) && frac != []
    ensures ReadDecimal(PointsForCommas(Grouped(n, '.') + Tail(frac))) == None
  {
    var t := Grouped(n, '.') + Tail(frac);
    var r := PointsForCommas(t);
    GroupedShape(n, '.');
    HeadDigits(n);
    var h := |Digits(HeadOf(n))|;
    assert t[h] == GroupTail(n, '.')[0] == '.';
    assert r[h] == '.' && r[|Grouped(n, '.')|] == '.';
    assert Point(r) <= h;
    assert r[Point(r) + 1..][|Grouped(n, '.')| - Point(r) - 1] == '.';
  }

  lemma GuardSees(n: nat, frac: string)
    requires AllDigits(frac) && |frac| <= 2
    ensures var t := Grouped(n, '.') + Tail(frac);
            StripMarks(t) == t && (IsGrouped(t) <==> n >= 1000 && frac == [])
  {
    ShownEnds(n, frac);
    StripMarksKeeps(Grouped(n, '.') + Tail(frac));
    GroupedShape(n, '.');
    HeadDigits(n);
    IsGroupedIff(Digits(HeadOf(n)), GroupTail(n, '.'), frac);
  }

  lemma SmallReads(n: nat, frac: string)
    requires n < 1000 && AllDigits(frac) && |frac| <= 2
    ensures AllDigits(Digits(n) + frac)
    ensures AsDecimal(Grouped(n, '.') + Tail(frac)) == Some(Dec(false, ReadDigits(Digits(n) + frac), -|frac|))
  {
    GuardSees(n, frac);
    DigitsReadBack(n);
    AllDigitsConcat(Digits(n), frac);
    PointsOfDigits(Digits(n), frac);
    ReadPlain(Digits(n), frac);
  }

  lemma WholeReads(n: nat)
    requires n >= 1000
    ensures AllDigits(Digits(n)) && AsDecimal(Grouped(n, '.')) == Some(Dec(false, ReadDigits(Digits(n)), 0))
  {
    assert Grouped(n, '.') + Tail("") == Grouped(n, '.');
    GuardSees(n, "");
    DigitsReadBack(n);
    GroupedWithout(n, '.');
    WithoutNone(Digits(n), ',');
    DigitsAreRead(Digits(n));
  }

  lemma DigitsAreRead(t: string)
    requires AllDigits(t) && t != []
    ensures ReadDecimal(t) == Some(Dec(false, ReadDigits(t), 0))
  {
    ReadPlain(t, "");
    assert Plain(t, "") == t && t + "" == t;
  }

  /** Whole numbers are read exactly, grouped or plain; decimals only without thousands. */
  lemma GuardReads(n: nat, frac: string)
    requires AllDigits(frac) && |frac| <= 2
    ensures AllDigits(Digits(n) + frac)
    ensures AsDecimal(Grouped(n, '.') + Tail(frac)) ==
            if n < 1000 || frac == [] then Some(Dec(false, ReadDigits(Digits(n) + frac), -|frac|)) else None
  {
    DigitsReadBack(n);
    AllDigitsConcat(Digits(n), frac);
    if n < 1000 {
      SmallReads(n, frac);
    } else if frac == [] {
      WholeReads(n);
      assert Grouped(n, '.') + Tail(frac) == Grouped(n, '.') && Digits(n) + frac == Digits(n);
    } else {
      GuardSees(n, frac);
      PointsOfGroups(n, frac);
    }
  }

  /** A shown amount is read back exactly or not at all: not at all only with thousands and decimals. */
  lemma ShownAmountIsRead(cents: nat)
    ensures var r := AsDecimal(Show(cents));
            && (r.Some? ==> Value(r.value) == Shift(cents, -2))
            && (r.Some? <==> cents < 100000 || cents % 100 == 0)
  {
    var frac := ShowShape(cents);
    ShownReads(cents / 100, frac, Shift(cents, -2));
  }

  lemma ShownReads(n: nat, frac: string, x: real)
    requires AllDigits(frac) && |frac| <= 2 && AllDigits(Digits(n) + frac)
    requires Shift(ReadDigits(Digits(n) + frac), -|frac|) == x
    ensures var r := AsDecimal(Grouped(n, '.') + Tail(frac));
            && (r.Some? ==> Value(r.value) == x)
            && (r.Some? <==> n < 1000 || frac == [])
  {
    var coef := ReadDigits(Digits(n) + frac);
    NoSign(coef, -|frac|);
    GuardReads(n, frac);
    assert Value(Dec(false, coef, -|frac|)) == x;
  }

  lemma NoSign(n: nat, e: int)
    ensures Value(Dec(false, n, e)) == Shift(n, e)
  {
  }

  /** Every integer is read back exactly, plain or with points. */
  lemma IntegersAreRead(n: nat)
    ensures AsDecimal(Digits(n)).Some? && Value(AsDecimal(Digits(n)).value) == n as real
    ensures AsDecimal(Grouped(n, '.')).Some? && Value(AsDecimal(Grouped(n, '.')).value) == n as real
  {
    GuardReads(n, "");
    DigitsReadBack(n);
    assert Grouped(n, '.') + Tail("") == Grouped(n, '.') && Digits(n) + "" == Digits(n);
    StripMarksKeeps(Digits(n));
    PlainIsNotGrouped(Digits(n));
    PointsOfDigits(Digits(n), "");
    ReadPlain(Digits(n), "");
    assert Digits(n) + Tail("") == Digits(n) && Plain(Digits(n), "") == Digits(n);
  }

  lemma PlainIsNotGrouped(t: string)
    requires AllDigits(t)
    ensures !IsGrouped(t)
  {
    forall a | 1 <= a <= 3 && a < |t| ensures !OnlyGroups(t[a..]) {
      assert t[a..][0] == t[a];
    }
  }
}
