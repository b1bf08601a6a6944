/** What `_normalize` does to a whole expression over whole numbers: the signs people type become
    Python's, a percentage becomes a division by a hundred, and everything else stays. */
module ExpressionText {
  import opened Options
  import opened Powers
  import opened DecimalArithmetic
  import opened NumberText
  import opened Calculator
  import opened CalculatorText
  import opened NormalizeNumbers

  /** A number with the signs before it, and whether a percent sign follows. */
  datatype Term = Term(signs: string, digits: string, percent: bool)

  /** Operators, parentheses, letters: whatever is no part of a number, no blank and no percent sign. */
  predicate IsSign(c: char) { !IsNumChar(c) && !IsSpace(c) && c != '%' }

  predicate AllSigns(t: string) { forall i :: 0 <= i < |t| ==> IsSign(t[i]) }

  function PercentSign(percent: bool): string { if percent then "%" else "" }

  function Text(terms: seq<Term>, tail: string): string {
    if terms == [] then tail
    else terms[0].signs + terms[0].digits + PercentSign(terms[0].percent) + Text(terms[1..], tail)
  }

  /** What stands behind the first of the terms. */
  function NextSigns(terms: seq<Term>, tail: string): string
    requires terms != []
  {
    if |terms| == 1 then tail else terms[1].signs
  }

  /** Numbers are separated by signs, and no parenthesis opens right after a percent sign. */
  predicate IsExpression(terms: seq<Term>, tail: string) {
    if terms == [] then AllSigns(tail)
    else
      var t, next := terms[0], NextSigns(terms, tail);
      && AllSigns(t.signs) && AllDigits(t.digits) && t.digits != []
      && (|terms| > 1 ==> next != []) && (t.percent && next != [] ==> next[0] != '(')
      && IsExpression(terms[1..], tail)
  }

  /** What a person's sign means to Python. */
  predicate Means(c: char, s: string) {
    if c == '×' then s == "*" else if c == '÷' then s == "/"
    else if c == '−' then s == "-" else if c == '^' then s == "**" else s == [c]
  }

  ghost predicate MeansAll(t: string, parts: seq<string>) {
    |parts| == |t| && forall i :: 0 <= i < |t| ==> Means(t[i], parts[i])
  }

  function Joined(parts: seq<string>): string {
    if parts == [] then "" else parts[0] + Joined(parts[1..])
  }

  /** The signs of Python for those of a person, one by one. */
  lemma {:induction false} SignsMean(t: string) returns (parts: seq<string>)
    ensures MeansAll(t, parts) && Signs(t) == Joined(parts)
  {
    if t == [] {
      parts := [];
    } else {
      var rest := SignsMean(t[1..]);
      parts := [Sign(t[0])] + rest;
      assert parts[1..] == rest;
    }
  }

  function Hundredth(digits: string, percent: bool): string {
    if percent then "(" + digits + "/100)" else digits
  }

  /** The same expression for Python. */
  function ForPython(terms: seq<Term>, tail: string): string {
    if terms == [] then Signs(tail)
    else Signs(terms[0].signs) + Hundredth(terms[0].digits, terms[0].percent) + ForPython(terms[1..], tail)
  }

  // ------------------------------------------------------------ one step at a time

  lemma {:induction false} SignsConcat(a: string, b: string)
    ensures Signs(a + b) == Signs(a) + Signs(b)
  {
    if a == [] {
      assert a + b == b && Signs(a) + Signs(b) == Signs(b);
    } else {
      SignsConcat(a[1..], b);
      FirstOf(a, b);
      SignsStep(a + b, a[0], a[1..] + b, Sign(a[0]));
      SignsStep(a, a[0], a[1..], Sign(a[0]));
      Assoc(Sign(a[0]), Signs(a[1..]), Signs(b));
    }
  }

  lemma SignsStep(t: string, c: char, rest: string, s: string)
    requires t != [] && c == t[0] && rest == t[1..] && s == Sign(c)
    ensures Signs(t) == s + Signs(rest)
  {
  }

  lemma FirstOf(a: string, b: string)
    requires a != []
    ensures a + b != [] && (a + b)[0] == a[0] && (a + b)[1..] == a[1..] + b && [a[0]] + a[1..] == a
  {
  }

  lemma Assoc(a: string, b: string, c: string)
    ensures (a + b) + c == a + (b + c)
  {
  }

  lemma {:induction false} SignsOfSigns(t: string)
    requires AllSigns(t)
    ensures AllSigns(Signs(t)) && (t == [] <==> Signs(t) == [])
    ensures t != [] && t[0] != '(' ==> Signs(t)[0] != '('
  {
    if t != [] {
      SignsOfSigns(t[1..]);
      assert AllSigns(Sign(t[0]));
    }
  }

  /** A text that no percentage begins, after a number. */
  predicate Stops(t: string) { t == [] || (IsSign(t[0])) }

  lemma {:induction false} DigitsThen(d: string, rest: string)
    requires AllDigits(d) && (rest == [] || !IsDigit(rest[0]))
    ensures DigitRun(d + rest) == |d| && (d + rest)[|d|..] == rest && (d + rest)[..|d|] == d
    decreases |d|
  {
    if d != [] {
      DigitsThen(d[1..], rest);
      FirstOf(d, rest);
    } else {
      assert d + rest == rest;
    }
  }

  /** No percentage begins at a number that signs follow. */
  lemma NoPercentage(d: string, rest: string)
    requires AllDigits(d) && d != [] && Stops(rest)
    ensures PercentLength(d + rest) == 0
  {
    DigitsThen(d, rest);
    NoSpaces(rest);
  }

  lemma PercentsStep(t: string, c: char, rest: string)
    requires t != [] && c == t[0] && rest == t[1..] && PercentLength(t) == 0
    ensures Percents(t) == [c] + Percents(rest)
  {
  }

  lemma NoSpaces(t: string)
    requires t == [] || !IsSpace(t[0])
    ensures SpaceRun(t) == 0
  {
  }

  lemma {:induction false} PercentsNumber(d: string, rest: string)
    requires AllDigits(d) && Stops(rest)
    ensures Percents(d + rest) == d + Percents(rest)
    decreases |d|
  {
    if d == [] {
      assert d + rest == rest && d + Percents(rest) == Percents(rest);
    } else {
      NoPercentage(d, rest);
      FirstOf(d, rest);
      PercentsStep(d + rest, d[0], d[1..] + rest);
      PercentsNumber(d[1..], rest);
      Assoc([d[0]], d[1..], Percents(rest));
    }
  }

  lemma PercentsPercentage(d: string, rest: string)
    requires AllDigits(d) && d != [] && Stops(rest) && (rest != [] ==> rest[0] != '(')
    ensures Percents(d + "%" + rest) == "(" + d + "/100)" + Percents(rest)
  {
    Assoc(d, "%", rest);
    var t := d + ("%" + rest);
    PercentageLength(d, rest);
    PercentsJump(t, d, rest);
  }

  lemma PercentageLength(d: string, rest: string)
    requires AllDigits(d) && d != [] && Stops(rest) && (rest != [] ==> rest[0] != '(')
    ensures var t := d + ("%" + rest);
            NumberLength(t) == |d| && PercentLength(t) == |d| + 1 && t[..|d|] == d && t[|d| + 1..] == rest
  {
    var t := d + ("%" + rest);
    DigitsThen(d, "%" + rest);
    assert t[|d| + 1..] == rest;
    NoSpaces("%" + rest);
    NoSpaces(rest);
  }

  lemma PercentsJump(t: string, d: string, rest: string)
    requires |t| > |d| && PercentLength(t) == |d| + 1 && NumberLength(t) == |d| && t[..|d|] == d
    requires t[|d| + 1..] == rest
    ensures Percents(t) == "(" + d + "/100)" + Percents(rest)
  {
  }

  lemma {:induction false} PercentsSigns(signs: string, rest: string)
    requires AllSigns(signs)
    ensures Percents(signs + rest) == signs + Percents(rest)
    decreases |signs|
  {
    if signs == [] {
      assert signs + rest == rest && signs + Percents(rest) == Percents(rest);
    } else {
      PercentsSigns(signs[1..], rest);
      FirstOf(signs, rest);
      NoNumber(signs + rest);
      PercentsStep(signs + rest, signs[0], signs[1..] + rest);
      Assoc([signs[0]], signs[1..], Percents(rest));
    }
  }

  lemma NoNumber(t: string)
    requires t != [] && !IsDigit(t[0])
    ensures PercentLength(t) == 0
  {
  }

  // ------------------------------------------------------------ whole expressions

  predicate PlainChar(c: char) { c != '.' && c != ',' && !IsSpace(c) }

  predicate PlainChars(t: string) { forall i :: 0 <= i < |t| ==> PlainChar(t[i]) }

  lemma {:induction false} TextIsPlain(terms: seq<Term>, tail: string)
    requires IsExpression(terms, tail)
    ensures PlainChars(Text(terms, tail))
  {
    if terms != [] { TextIsPlain(terms[1..], tail); }
  }

  lemma {:induction false} SignsArePlain(t: string)
    requires PlainChars(t)
    ensures PlainChars(Signs(t))
  {
    if t != [] { SignsArePlain(t[1..]); }
  }

  /** Without separators and blanks only signs and percentages change. */
  lemma NormalizePlain(t: string)
    requires PlainChars(t)
    ensures Normalize(t) == Good(Percents(Signs(t)))
  {
    var s := Signs(t);
    SignsArePlain(t);
    assert Strip(t) == t;
    JoinKeeps(s, '.');
    JoinKeeps(s, ',');
    assert !HasAmbiguous(s);
    assert DecimalCommas(s) == s;
  }

  lemma SignsOfTerm(t: Term, rest: string)
    requires AllSigns(t.signs) && AllDigits(t.digits)
    ensures Signs(t.signs + t.digits + PercentSign(t.percent) + rest)
            == Signs(t.signs) + (t.digits + PercentSign(t.percent) + Signs(rest))
  {
    var p := PercentSign(t.percent);
    SignsConcat(t.signs + t.digits + p, rest);
    SignsConcat(t.signs + t.digits, p);
    SignsConcat(t.signs, t.digits);
    SignsKeep(t.digits);
    PercentKept(t.percent);
    Regroup(Signs(t.signs), t.digits, p, Signs(rest));
  }

  lemma PercentKept(percent: bool)
    ensures Signs(PercentSign(percent)) == PercentSign(percent)
  {
    if percent { assert "%"[1..] == ""; }
  }

  lemma Regroup(a: string, b: string, c: string, d: string)
    ensures ((a + b) + c) + d == a + ((b + c) + d)
  {
  }

  lemma {:induction false} PercentsOfTerms(terms: seq<Term>, tail: string)
    requires IsExpression(terms, tail)
    ensures Percents(Signs(Text(terms, tail))) == ForPython(terms, tail)
  {
    if terms == [] {
      SignsOfSigns(tail);
      PercentsSigns(Signs(tail), "");
      assert Signs(tail) + "" == Signs(tail);
    } else {
      var t, rest := terms[0], Text(terms[1..], tail);
      PercentsOfTerms(terms[1..], tail);
      RestStops(terms, tail);
      PercentsOfTerm(t, rest, Signs(rest));
    }
  }

  lemma PercentsOfTerm(t: Term, rest: string, done: string)
    requires AllSigns(t.signs) && AllDigits(t.digits) && t.digits != [] && done == Signs(rest)
    requires Stops(done) && (t.percent && done != [] ==> done[0] != '(')
    ensures Percents(Signs(t.signs + t.digits + PercentSign(t.percent) + rest))
            == Signs(t.signs) + Hundredth(t.digits, t.percent) + Percents(done)
  {
    SignsOfTerm(t, rest);
    SignsOfSigns(t.signs);
    PercentsSigns(Signs(t.signs), t.digits + PercentSign(t.percent) + done);
    HundredthOf(t, done);
    Assoc(Signs(t.signs), Hundredth(t.digits, t.percent), Percents(done));
  }

  lemma HundredthOf(t: Term, done: string)
    requires AllDigits(t.digits) && t.digits != [] && Stops(done) && (t.percent && done != [] ==> done[0] != '(')
    ensures Percents(t.digits + PercentSign(t.percent) + done) == Hundredth(t.digits, t.percent) + Percents(done)
  {
    if t.percent {
      PercentsPercentage(t.digits, done);
    } else {
      assert t.digits + "" == t.digits;
      PercentsNumber(t.digits, done);
    }
  }

  lemma RestStops(terms: seq<Term>, tail: string)
    requires terms != [] && IsExpression(terms, tail)
    ensures var rest := Signs(Text(terms[1..], tail));
            Stops(rest) && (terms[0].percent && rest != [] ==> rest[0] != '(')
  {
    var next := NextSigns(terms, tail);
    var rest := Text(terms[1..], tail);
    if |terms| == 1 {
      assert rest == tail;
      SignsOfSigns(tail);
    } else {
      var t, others := terms[1], Text(terms[1..][1..], tail);
      Regroup(t.signs, t.digits, PercentSign(t.percent), others);
      SignsConcat(t.signs, t.digits + PercentSign(t.percent) + others);
      SignsOfSigns(t.signs);
    }
  }

  /** `_normalize` on an expression over whole numbers. */
  lemma NormalizeExpression(terms: seq<Term>, tail: string)
    requires IsExpression(terms, tail)
    ensures Normalize(Text(terms, tail)) == Good(ForPython(terms, tail))
  {
    TextIsPlain(terms, tail);
    NormalizePlain(Text(terms, tail));
    PercentsOfTerms(terms, tail);
  }

  /** Between two numbers a percent sign is the remainder, and stays. */
  lemma RemainderStays(a: string, b: string)
    requires AllDigits(a) && AllDigits(b) && a != [] && b != []
    ensures Normalize(a + "%" + b) == Good(a + "%" + b)
  {
    NormalizePlain(a + "%" + b);
    SignsConcat(a + "%", b);
    SignsConcat(a, "%");
    SignsKeep(a);
    SignsKeep(b);
    PercentKept(true);
    PercentsRemainder(a, b);
    Assoc(a, "%", b);
  }

  lemma {:induction false} PercentsRemainder(a: string, b: string)
    requires AllDigits(a) && AllDigits(b) && b != []
    ensures Percents(a + ("%" + b)) == a + ("%" + b)
    decreases |a|
  {
    var rest := "%" + b;
    if a == [] {
      assert a + rest == rest && rest[1..] == b && b + "" == b;
      NoNumber(rest);
      PercentsStep(rest, '%', b);
      PercentsNumber(b, "");
    } else {
      NumberBehind(a, b);
      FirstOf(a, rest);
      PercentsStep(a + rest, a[0], a[1..] + rest);
      PercentsRemainder(a[1..], b);
      Assoc([a[0]], a[1..], rest);
    }
  }

  lemma NumberBehind(a: string, b: string)
    requires AllDigits(a) && AllDigits(b) && a != [] && b != []
    ensures PercentLength(a + ("%" + b)) == 0
  {
    var t := a + ("%" + b);
    DigitsThen(a, "%" + b);
    assert t[|a| + 1..] == b;
    NoSpaces("%" + b);
    NoSpaces(b);
  }
}
