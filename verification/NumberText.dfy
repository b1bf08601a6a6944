/** Numbers as text: decimal digits, plain notation, and thousands groups. */
module NumberText {
  import opened Options
  import opened Powers
  import opened DecimalArithmetic

  predicate IsDigit(c: char) { '0' <= c <= '9' }

  predicate AllDigits(t: string) {
    forall i :: 0 <= i < |t| ==> IsDigit(t[i])
  }

  function DigitChar(d: nat): char
    requires d < 10
  {
    (48 + d) as char
  }

  function DigitOf(c: char): nat
    requires IsDigit(c)
  {
    c as int - 48
  }

  function Digits(n: nat): string {
    if n < 10 then [DigitChar(n)] else Digits(n / 10) + [DigitChar(n % 10)]
  }

  function ReadDigits(t: string): nat
    requires AllDigits(t)
  {
    if t == [] then 0 else 10 * ReadDigits(t[..|t| - 1]) + DigitOf(t[|t| - 1])
  }

  function Zeros(k: nat): (z: string)
    ensures |z| == k && forall i :: 0 <= i < k ==> z[i] == '0'
  {
    if k == 0 then [] else Zeros(k - 1) + ['0']
  }

  /** No superfluous zero in front. */
  predicate NoLeadingZero(t: string) {
    |t| == 1 || (|t| > 1 && t[0] != '0')
  }

  function RStrip(t: string, c: char): string {
    if t != [] && t[|t| - 1] == c then RStrip(t[..|t| - 1], c) else t
  }

  /** The position of the first point, or the length. */
  function Point(t: string): (i: nat)
    ensures i <= |t| && (i < |t| ==> t[i] == '.') && forall j :: 0 <= j < i ==> t[j] != '.'
  {
    if t == [] || t[0] == '.' then 0 else 1 + Point(t[1..])
  }

  /** `Decimal(text)` for a text of digits and points, exact whatever its length. */
  function ReadDecimal(t: string): Option<Dec> {
    var i := Point(t);
    if i == |t| then (if t != [] && AllDigits(t) then Some(Dec(false, ReadDigits(t), 0)) else None)
    else
      var whole, frac := t[..i], t[i + 1..];
      if AllDigits(whole) && AllDigits(frac) && |whole| + |frac| > 0
      then AllDigitsConcat(whole, frac); Some(Dec(false, ReadDigits(whole + frac), -|frac|))
      else None
  }

  lemma AllDigitsConcat(a: string, b: string)
    ensures AllDigits(a + b) <==> AllDigits(a) && AllDigits(b)
  {
    if AllDigits(a + b) {
      assert forall i :: 0 <= i < |a| ==> (a + b)[i] == a[i];
      assert forall i :: 0 <= i < |b| ==> (a + b)[|a| + i] == b[i];
    }
  }

  /** A whole part and decimals, written out. */
  function Plain(whole: string, frac: string): string {
    if frac == [] then whole else whole + ['.'] + frac
  }

  // ------------------------------------------------------------ facts

  lemma {:induction false} ReadConcat(a: string, b: string)
    requires AllDigits(a) && AllDigits(b)
    ensures AllDigits(a + b)
    ensures ReadDigits(a + b) == ReadDigits(a) * TenTo(|b|) + ReadDigits(b)
    decreases |b|
  {
    AllDigitsConcat(a, b);
    if b == [] {
      assert a + b == a;
    } else {
      var front := b[..|b| - 1];
      ReadConcat(a, front);
      assert (a + b)[..|a + b| - 1] == a + front;
      MulLeft(ReadDigits(a), TenTo(|front|));
    }
  }

  lemma {:induction false} DigitsReadBack(n: nat)
    ensures AllDigits(Digits(n)) && ReadDigits(Digits(n)) == n
    ensures |Digits(n)| == NumDigits(n)
    ensures NoLeadingZero(Digits(n)) && (n > 0 ==> Digits(n)[0] != '0')
  {
    if n >= 10 {
      DigitsReadBack(n / 10);
      assert Digits(n)[..|Digits(n)| - 1] == Digits(n / 10);
    }
  }

  lemma {:induction false} ReadZeros(k: nat)
    ensures AllDigits(Zeros(k)) && ReadDigits(Zeros(k)) == 0
  {
    if k > 0 {
      ReadZeros(k - 1);
      assert Zeros(k)[..k - 1] == Zeros(k - 1);
    }
  }

  lemma {:induction false} RStripSplits(t: string, c: char) returns (k: nat)
    ensures k <= |t| && RStrip(t, c) == t[..|t| - k]
    ensures forall i :: |t| - k <= i < |t| ==> t[i] == c
    ensures k < |t| ==> t[|t| - k - 1] != c
  {
    if t != [] && t[|t| - 1] == c {
      var j := RStripSplits(t[..|t| - 1], c);
      k := j + 1;
      assert t[..|t| - 1][..|t| - 1 - j] == t[..|t| - k];
    } else {
      k := 0;
      assert t[..|t|] == t;
    }
  }

  /** Zeros at the end of the decimals say nothing. */
  lemma TrailingZeros(whole: string, kept: string, k: nat)
    requires AllDigits(whole) && AllDigits(kept)
    ensures AllDigits(whole + kept) && AllDigits(whole + (kept + Zeros(k)))
    ensures Shift(ReadDigits(whole + kept), -|kept|)
            == Shift(ReadDigits(whole + (kept + Zeros(k))), -|kept| - k)
  {
    AllDigitsConcat(whole, kept);
    ReadZeros(k);
    assert whole + (kept + Zeros(k)) == (whole + kept) + Zeros(k);
    ReadConcat(whole + kept, Zeros(k));
    ShiftRescale(ReadDigits(whole + kept), -|kept| - k, k);
  }

  /** `rstrip("0")` of a number with decimals stays behind the point. */
  lemma StripsDecimals(whole: string, frac: string) returns (kept: string)
    ensures |kept| <= |frac| && frac == kept + Zeros(|frac| - |kept|)
    ensures RStrip(whole + ['.'] + frac, '0') == whole + ['.'] + kept
    ensures kept != [] ==> kept[|kept| - 1] != '0'
  {
    var t := whole + ['.'] + frac;
    var k := RStripSplits(t, '0');
    assert t[|whole|] == '.';
    kept := frac[..|frac| - k];
    assert k <= |frac|;
    assert t[..|t| - k] == whole + ['.'] + kept;
    assert kept != [] ==> kept[|kept| - 1] == t[|t| - k - 1];
    assert forall i :: |kept| <= i < |frac| ==> frac[i] == t[|whole| + 1 + i];
  }

  lemma StripText(whole: string, frac: string) returns (kept: string)
    requires whole != [] && whole[|whole| - 1] != '.' && AllDigits(frac)
    ensures |kept| <= |frac| && frac == kept + Zeros(|frac| - |kept|)
    ensures RStrip(RStrip(whole + ['.'] + frac, '0'), '.') == Plain(whole, kept)
    ensures kept != [] ==> kept[|kept| - 1] != '0'
  {
    kept := StripsDecimals(whole, frac);
    AllDigitsConcat(kept, Zeros(|frac| - |kept|));
    if kept == [] {
      StripPoint(whole);
      assert whole + ['.'] + kept == whole + ['.'];
    } else {
      assert RStrip(whole + ['.'] + kept, '.') == whole + ['.'] + kept;
    }
  }

  /** Stripping zeros behind the point, and a point left alone, keeps the number. */
  lemma StripZeros(whole: string, frac: string) returns (kept: string)
    requires AllDigits(whole) && whole != [] && AllDigits(frac)
    ensures RStrip(RStrip(whole + ['.'] + frac, '0'), '.') == Plain(whole, kept)
    ensures AllDigits(kept) && |kept| <= |frac| && (kept != [] ==> kept[|kept| - 1] != '0')
    ensures AllDigits(whole + kept) && AllDigits(whole + frac)
    ensures Shift(ReadDigits(whole + kept), -|kept|) == Shift(ReadDigits(whole + frac), -|frac|)
  {
    assert IsDigit(whole[|whole| - 1]);
    kept := StripText(whole, frac);
    AllDigitsConcat(kept, Zeros(|frac| - |kept|));
    TrailingZeros(whole, kept, |frac| - |kept|);
  }

  lemma StripPoint(whole: string)
    requires whole != [] && whole[|whole| - 1] != '.'
    ensures RStrip(whole + ['.'], '.') == whole
  {
    var t := whole + ['.'];
    assert t[..|t| - 1] == whole;
  }

  /** Plain notation is read as what it says. */
  lemma ReadPlain(whole: string, frac: string)
    requires AllDigits(whole) && AllDigits(frac) && whole != []
    ensures AllDigits(whole + frac)
    ensures ReadDecimal(Plain(whole, frac)) == Some(Dec(false, ReadDigits(whole + frac), -|frac|))
  {
    AllDigitsConcat(whole, frac);
    var t := Plain(whole, frac);
    if frac == [] {
      assert whole + frac == whole;
      assert Point(t) == |t|;
    } else {
      assert t[|whole|] == '.';
      assert forall i :: 0 <= i < |whole| ==> IsDigit(t[i]);
      assert Point(t) == |whole|;
      assert t[..|whole|] == whole && t[|whole| + 1..] == frac;
    }
  }
}
