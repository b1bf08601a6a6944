/** What `_normalize` does to the text of one number. */
module NormalizeNumbers {
  import opened Options
  import opened Powers
  import opened DecimalArithmetic
  import opened NumberText
  import opened Calculator
  import opened CalculatorText

  function MinusSign(neg: bool): string { if neg then "-" else "" }

  /** A number with `sep` before its decimals, if it has any. */
  function Written(neg: bool, whole: string, sep: char, frac: string): string {
    MinusSign(neg) + whole + (if frac == [] then [] else [sep] + frac)
  }

  predicate Number(whole: string, sep: char, frac: string) {
    AllDigits(whole) && whole != [] && AllDigits(frac) && (sep == '.' || sep == ',')
  }

  lemma WrittenChars(neg: bool, whole: string, sep: char, frac: string)
    requires Number(whole, sep, frac)
    ensures var t := Written(neg, whole, sep, frac);
            && |t| >= 1 && (neg ==> t[0] == '-')
            && (forall i | 0 <= i < |t| :: (i == 0 && neg && t[i] == '-') || IsNumChar(t[i]))
            && (forall i | 0 <= i < |t| :: t[i] == '.' || t[i] == ',' <==>
                  frac != [] && i == |MinusSign(neg)| + |whole|)
            && (forall i | 0 <= i < |whole| :: t[|MinusSign(neg)| + i] == whole[i])
            && (forall i | 0 <= i < |frac| :: t[|MinusSign(neg)| + |whole| + 1 + i] == frac[i])
            && (frac != [] ==> t[|MinusSign(neg)| + |whole|] == sep)
            && IsDigit(t[|t| - 1])
  {
  }

  // ------------------------------------------------------------ the steps that change nothing

  lemma {:induction false} SignsKeep(t: string)
    requires forall i :: 0 <= i < |t| ==> IsNumChar(t[i]) || t[i] == '-'
    ensures Signs(t) == t
  {
    if t != [] { SignsKeep(t[1..]); }
  }

  predicate AtMostOne(t: string, c: char) {
    forall i, j :: 0 <= i < |t| && 0 <= j < |t| && t[i] == c && t[j] == c ==> i == j
  }

  lemma NoTwoGroups(t: string, sep: char)
    requires AtMostOne(t, sep)
    ensures Groups(t, sep) < 2
  {
    assert |t| > 4 ==> t[4] == t[4..][0];
  }

  lemma {:induction false} JoinKeeps(t: string, sep: char)
    requires AtMostOne(t, sep)
    ensures JoinThousands(t, sep) == t
  {
    if t != [] {
      forall a | 0 <= a <= |t| ensures AtMostOne(t[a..], sep) {
        assert forall i :: 0 <= i < |t| - a ==> t[a..][i] == t[a + i];
      }
      if |t| >= 3 { NoTwoGroups(t[3..], sep); }
      if |t| >= 2 { NoTwoGroups(t[2..], sep); }
      NoTwoGroups(t[1..], sep);
      JoinKeeps(t[1..], sep);
    }
  }

  lemma {:induction false} PercentsKeep(t: string)
    requires '%' !in t
    ensures Percents(t) == t
  {
    if t != [] { PercentsKeep(t[1..]); }
  }

  // ------------------------------------------------------------ the steps that matter

  /** A number is ambiguous when one to three digits, no zero in front, have three decimals. */
  predicate LooksLikeThousands(whole: string, frac: string) {
    1 <= |whole| <= 3 && whole[0] != '0' && |frac| == 3
  }

  lemma AmbiguousIff(neg: bool, whole: string, sep: char, frac: string)
    requires Number(whole, sep, frac)
    ensures HasAmbiguous(Written(neg, whole, sep, frac)) <==> LooksLikeThousands(whole, frac)
  {
    var t := Written(neg, whole, sep, frac);
    var m := |MinusSign(neg)|;
    WrittenChars(neg, whole, sep, frac);
    if LooksLikeThousands(whole, frac) {
      assert t[m] == whole[0];
      assert AmbiguousAt(t, m, |whole| - 1);
    }
    forall i, k | 0 <= i < |t| && 0 <= k <= 2 && AmbiguousAt(t, i, k)
      ensures LooksLikeThousands(whole, frac)
    {
      AmbiguousShape(neg, whole, sep, frac, i, k);
    }
  }

  lemma AmbiguousShape(neg: bool, whole: string, sep: char, frac: string, i: nat, k: nat)
    requires Number(whole, sep, frac) && AmbiguousAt(Written(neg, whole, sep, frac), i, k)
    ensures LooksLikeThousands(whole, frac)
  {
    var t := Written(neg, whole, sep, frac);
    var m := |MinusSign(neg)|;
    WrittenChars(neg, whole, sep, frac);
    assert i + 1 + k == m + |whole|;
    assert i == m;
    assert t[m] == whole[0];
  }

  /** Two ways to write a number differ at most in the separator, which stands between digits. */
  lemma WrittenPair(neg: bool, whole: string, sep: char, frac: string)
    requires Number(whole, sep, frac)
    ensures var t, w, p := Written(neg, whole, sep, frac), Written(neg, whole, '.', frac), |MinusSign(neg)| + |whole|;
            && |t| == |w|
            && (forall i | 0 <= i < |t| :: i != p ==> t[i] == w[i] && t[i] != ',')
            && (frac != [] ==> t[p] == sep && w[p] == '.' && IsDigit(t[p - 1]) && IsDigit(t[p + 1]))
  {
    var t, p := Written(neg, whole, sep, frac), |MinusSign(neg)| + |whole|;
    assert frac != [] ==> t[p - 1] == whole[|whole| - 1] && t[p + 1] == frac[0];
  }

  lemma CommasToPoints(neg: bool, whole: string, sep: char, frac: string)
    requires Number(whole, sep, frac)
    ensures DecimalCommas(Written(neg, whole, sep, frac)) == Written(neg, whole, '.', frac)
  {
    var t, w := Written(neg, whole, sep, frac), Written(neg, whole, '.', frac);
    WrittenPair(neg, whole, sep, frac);
    forall i | 0 <= i < |t| ensures DecimalCommas(t)[i] == w[i] {
      CommaAt(t, w, |MinusSign(neg)| + |whole|, sep, i);
    }
  }

  lemma CommaAt(t: string, w: string, p: nat, sep: char, i: nat)
    requires i < |t| == |w| && (i == p ==> t[i] == sep && w[i] == '.') && (i != p ==> t[i] == w[i] != ',')
    requires i == p ==> 0 < i < |t| - 1 && IsDigit(t[i - 1]) && IsDigit(t[i + 1]) && (sep == '.' || sep == ',')
    ensures DecimalCommas(t)[i] == w[i]
  {
  }

  lemma WrittenPlain(neg: bool, whole: string, frac: string)
    ensures Written(neg, whole, '.', frac) == MinusSign(neg) + Plain(whole, frac)
  {
  }

  lemma SeparatorsKeep(neg: bool, whole: string, sep: char, frac: string)
    requires Number(whole, sep, frac)
    ensures var t := Written(neg, whole, sep, frac); JoinThousands(JoinThousands(Signs(Strip(t)), '.'), ',') == t
  {
    var t := Written(neg, whole, sep, frac);
    WrittenChars(neg, whole, sep, frac);
    assert Strip(t) == t;
    SignsKeep(t);
    JoinKeeps(t, '.');
    JoinKeeps(t, ',');
  }

  /** `_normalize` leaves a number alone but for its decimal comma, or finds it ambiguous. */
  lemma NormalizeNumber(neg: bool, whole: string, sep: char, frac: string)
    requires Number(whole, sep, frac)
    ensures Normalize(Written(neg, whole, sep, frac)) ==
            if LooksLikeThousands(whole, frac) then Bad(Ambiguous) else Good(MinusSign(neg) + Plain(whole, frac))
  {
    SeparatorsKeep(neg, whole, sep, frac);
    AmbiguousIff(neg, whole, sep, frac);
    CommasToPoints(neg, whole, sep, frac);
    PlainPercents(neg, whole, frac);
  }

  lemma PlainPercents(neg: bool, whole: string, frac: string)
    requires Number(whole, '.', frac)
    ensures Percents(Written(neg, whole, '.', frac)) == MinusSign(neg) + Plain(whole, frac)
  {
    WrittenChars(neg, whole, '.', frac);
    WrittenPlain(neg, whole, frac);
    PercentsKeep(Written(neg, whole, '.', frac));
  }

  lemma PlainChars(whole: string, frac: string)
    requires Number(whole, '.', frac)
    ensures var body := Plain(whole, frac);
            && body != [] && body[0] == whole[0]
            && (forall i :: 0 <= i < |body| ==> IsDigit(body[i]) || body[i] == '.')
            && (AllDigits(body) <==> frac == [])
  {
    var body := Plain(whole, frac);
    assert frac != [] ==> body[|whole|] == '.';
  }

  /** And the parser then sees that number. */
  lemma NumberParses(neg: bool, whole: string, frac: string)
    requires Number(whole, '.', frac) && NoLeadingZero(whole)
    ensures AllDigits(whole + frac)
    ensures var t := MinusSign(neg) + Plain(whole, frac);
            var d := Dec(false, ReadDigits(whole + frac), -|frac|);
            IsNumberText(t) && NumberTree(t) == Some(if neg then Neg(Num(d)) else Num(d))
  {
    ReadPlain(whole, frac);
    PlainChars(whole, frac);
    var t := MinusSign(neg) + Plain(whole, frac);
    assert Unsigned(t) == Plain(whole, frac);
    assert IsDigit(Plain(whole, frac)[0]);
    assert |Plain(whole, frac)| > 1 && frac == [] ==> whole[0] != '0';
  }
}
