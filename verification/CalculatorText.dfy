/** The text side of `agents/calculator.py`: `_normalize`, `calculate` on a text and `format_result`. */
module CalculatorText {
  import opened Options
  import opened Powers
  import opened DecimalArithmetic
  import opened NumberText
  import opened Calculator

  const MAX_EXPRESSION_CHARS: nat := 300
  const MAX_DECIMALS: nat := 12
  const MAX_RESULT_CHARS: nat := 80

  datatype Result<+T> = Good(value: T) | Bad(error: CalcError)

  // ------------------------------------------------------------ _normalize

  predicate IsSpace(c: char) { c == ' ' || '\t' <= c <= '\r' }

  predicate IsNumChar(c: char) { IsDigit(c) || c == '.' || c == ',' }

  function Strip(t: string): string {
    if t == [] then t
    else if IsSpace(t[0]) then Strip(t[1..])
    else if IsSpace(t[|t| - 1]) then Strip(t[..|t| - 1])
    else t
  }

  /** The operator signs people type, as Python writes them. */
  function Sign(c: char): string {
    if c == '\U{D7}' then "*" else if c == '\U{F7}' then "/"
    else if c == '\U{2212}' then "-" else if c == '^' then "**" else [c]
  }

  function Signs(t: string): string {
    if t == [] then [] else Sign(t[0]) + Signs(t[1..])
  }

  /** How many groups of `sep` and three digits `t` begins with. */
  function Groups(t: string, sep: char): (g: nat)
    ensures 4 * g <= |t|
  {
    if |t| >= 4 && t[0] == sep && AllDigits(t[1..4]) then 1 + Groups(t[4..], sep) else 0
  }

  /** The length of `\d{1,3}(?:SEP\d{3}){2,}` at the start of `t`, greedy; 0 if it does not match. */
  function ThousandsLength(t: string, sep: char): (m: nat)
    ensures m <= |t|
  {
    if Head(t, 3) && Groups(t[3..], sep) >= 2 then 3 + 4 * Groups(t[3..], sep)
    else if Head(t, 2) && Groups(t[2..], sep) >= 2 then 2 + 4 * Groups(t[2..], sep)
    else if Head(t, 1) && Groups(t[1..], sep) >= 2 then 1 + 4 * Groups(t[1..], sep)
    else 0
  }

  predicate Head(t: string, n: nat) { n <= |t| && AllDigits(t[..n]) }

  function Without(t: string, c: char): string {
    if t == [] then [] else (if t[0] == c then [] else [t[0]]) + Without(t[1..], c)
  }

  /** Thousands separators go, from the left, wherever at least two of them group digits. */
  function JoinThousands(t: string, sep: char): string
    decreases |t|
  {
    if t == [] then []
    else
      var m := ThousandsLength(t, sep);
      if m > 0 then Without(t[..m], sep) + JoinThousands(t[m..], sep)
      else [t[0]] + JoinThousands(t[1..], sep)
  }

  /** A single separator with three digits behind it at `i`, after `k + 1` digits: thousands or
      decimals? */
  predicate AmbiguousAt(t: string, i: nat, k: nat) {
    && k <= 2 && i + k + 5 <= |t|
    && (i > 0 ==> !IsNumChar(t[i - 1]))
    && '1' <= t[i] <= '9' && AllDigits(t[i + 1..i + 1 + k])
    && (t[i + 1 + k] == '.' || t[i + 1 + k] == ',')
    && AllDigits(t[i + 2 + k..i + 5 + k])
    && (i + 5 + k < |t| ==> !IsNumChar(t[i + 5 + k]))
  }

  predicate HasAmbiguous(t: string) {
    exists i, k | 0 <= i < |t| && 0 <= k <= 2 :: AmbiguousAt(t, i, k)
  }

  /** A comma between two digits is a decimal comma. */
  function DecimalCommas(t: string): (r: string)
    ensures |r| == |t|
  {
    seq(|t|, i requires 0 <= i < |t| =>
      if t[i] == ',' && i > 0 && IsDigit(t[i - 1]) && i + 1 < |t| && IsDigit(t[i + 1]) then '.' else t[i])
  }

  function DigitRun(t: string): (n: nat)
    ensures n <= |t|
  {
    if t != [] && IsDigit(t[0]) then 1 + DigitRun(t[1..]) else 0
  }

  function SpaceRun(t: string): (n: nat)
    ensures n <= |t|
  {
    if t != [] && IsSpace(t[0]) then 1 + SpaceRun(t[1..]) else 0
  }

  /** The length of a number with optional decimals at the start of `t`. */
  function NumberLength(t: string): (n: nat)
    ensures n <= |t|
  {
    var w := DigitRun(t);
    if 0 < w < |t| && t[w] == '.' && DigitRun(t[w + 1..]) > 0 then w + 1 + DigitRun(t[w + 1..]) else w
  }

  /** Where a percentage at the start of `t` ends; 0 if there is none. A sign followed by another
      number is the remainder operator. */
  function PercentLength(t: string): (n: nat)
    ensures n <= |t|
  {
    var k := NumberLength(t);
    var w := k + SpaceRun(t[k..]);
    if k == 0 || w >= |t| || t[w] != '%' then 0
    else
      var v := w + 1 + SpaceRun(t[w + 1..]);
      if v < |t| && (IsDigit(t[v]) || t[v] == '(' || t[v] == '.') then 0 else w + 1
  }

  function Percents(t: string): string
    decreases |t|
  {
    if t == [] then []
    else
      var m := PercentLength(t);
      if m > 0 then "(" + t[..NumberLength(t)] + "/100)" + Percents(t[m..])
      else [t[0]] + Percents(t[1..])
  }

  function Normalize(expression: string): Result<string> {
    var text := JoinThousands(JoinThousands(Signs(Strip(expression)), '.'), ',');
    if HasAmbiguous(text) then Bad(Ambiguous) else Good(Percents(DecimalCommas(text)))
  }

  // ------------------------------------------------------------ parsing and calculate

  /** Texts of one number: an optional minus, then digits and points, with a digit among them. */
  predicate IsNumberText(t: string) {
    var body := Unsigned(t);
    && (forall i :: 0 <= i < |body| ==> IsDigit(body[i]) || body[i] == '.')
    && (exists i :: 0 <= i < |body| && IsDigit(body[i]))
  }

  function Unsigned(t: string): string {
    if t != [] && t[0] == '-' then t[1..] else t
  }

  /** Python's grammar on such a text: a literal, or a syntax error. An integer other than zero must
      not begin with a zero. */
  function NumberTree(t: string): Option<Expr> {
    var body := Unsigned(t);
    match ReadDecimal(body)
    case None => None
    case Some(d) =>
      if AllDigits(body) && |body| > 1 && body[0] == '0' && d.coef != 0 then None
      else if t != body then Some(Neg(Num(d))) else Some(Num(d))
  }

  /** Any parser that agrees with Python's grammar on numbers; what it does elsewhere is its own. */
  ghost predicate ParsesNumbers(parse: string -> Option<Expr>) {
    forall t: string :: IsNumberText(t) ==> parse(t) == NumberTree(t)
  }

  /** `calculate` with its inexact flag. */
  function Calculate(expression: string, parse: string -> Option<Expr>): Outcome {
    if expression == [] || |expression| > MAX_EXPRESSION_CHARS then Err(Malformed)
    else
      match Normalize(expression)
      case Bad(e) => Err(e)
      case Good(text) =>
        if text == [] || |text| > 2 * MAX_EXPRESSION_CHARS then Err(Malformed)
        else
          match parse(text)
          case None => Err(Malformed)
          case Some(e) => Eval(e)
  }

  lemma ParsedIsCalculated(text: string, plain: string, e: Expr, parse: string -> Option<Expr>)
    requires text != [] && Normalize(text) == Good(plain) && plain != [] && parse(plain) == Some(e)
    ensures |text| <= MAX_EXPRESSION_CHARS && |plain| <= 2 * MAX_EXPRESSION_CHARS ==>
              Calculate(text, parse) == Eval(e)
    ensures Calculate(text, parse).Ok? ==> Calculate(text, parse) == Eval(e)
  {
  }

  /** `_evaluate` on a text: the length tests, the normalisation, the parser and the evaluation. */
  method EvaluateText(expression: string, parse: string -> Option<Expr>) returns (r: Node, inexact: bool)
    ensures var o := Calculate(expression, parse);
            if o.Ok? then r == Node.Result(o.value) && inexact == o.inexact else r == Failed(o.error)
  {
    inexact := false;
    if expression == "" || |expression| > MAX_EXPRESSION_CHARS { return Failed(Malformed), false; }
    var text := Normalize(expression);
    if text.Bad? { return Failed(text.error), false; }
    if text.value == "" || |text.value| > 2 * MAX_EXPRESSION_CHARS { return Failed(Malformed), false; }
    var tree := parse(text.value);
    if tree.None? { return Failed(Malformed), false; }
    r, inexact := Evaluate(tree.value);
  }

  // ------------------------------------------------------------ format_result

  /** `format(value, "f")`: no exponent, no rounding. */
  function FormatPlain(v: Dec): string {
    (if v.neg then "-" else "") +
    if v.exp >= 0 then (if v.coef == 0 then "0" else Digits(v.coef) + Zeros(v.exp))
    else
      var digits := Padded(v.coef, -v.exp);
      digits[..|digits| + v.exp] + "." + digits[|digits| + v.exp..]
  }

  /** The digits of `n`, with zeros in front so that more than `k` of them are there. */
  function Padded(n: nat, k: nat): (t: string)
    ensures |t| > k
  {
    var digits := Digits(n);
    if |digits| > k then digits else Zeros(k + 1 - |digits|) + digits
  }

  /** `quantize` to twelve decimals, half to even; refused beyond the precision. */
  function Quantize(v: Dec): Result<Dec>
    requires v.exp < -(MAX_DECIMALS as int)
  {
    var m := TenTo(-(MAX_DECIMALS as int) - v.exp);
    var q := HalfEven(Quot(v.coef, m), Rest(v.coef, m), m);
    if q < TenTo(PRECISION) then Good(Dec(v.neg, q, -(MAX_DECIMALS as int))) else Bad(DecimalArithmetic.Undefined)
  }

  function FormatResult(value: Dec, inexact: bool): Result<string> {
    var v := if inexact && value.exp < -(MAX_DECIMALS as int) then Quantize(value) else Good(value);
    if v.Bad? then Bad(v.error) else FormatWhole(v.value)
  }

  /** Every digit of a number, if they are not too many. */
  function FormatWhole(v: Dec): Result<string> {
    if v.exp > MAX_RESULT_CHARS || v.exp < -(MAX_RESULT_CHARS as int) then Bad(OutOfRange)
    else
      var plain := FormatPlain(v);
      var text := if '.' in plain then RStrip(RStrip(plain, '0'), '.') else plain;
      if |text| > MAX_RESULT_CHARS then Bad(OutOfRange)
      else Good(if text == "-0" || text == "" || text == "-" then "0" else text)
  }
}
