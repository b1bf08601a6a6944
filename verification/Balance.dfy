/** `expenses/balance.py`: the balance of a period per currency, counted from the last declared
    initial balance. Amounts are whole cents, instants are microseconds, days are numbered, and the
    user's zone is a fixed offset from UTC. */
module Balance {
  import opened Options
  import opened Sorting
  import opened Texts

  const DAY: int := 86400000000
  const CARRY_OVER_DAYS: int := 2
  const INITIAL_BALANCE_NOTE: string := "saldo inicial"

  /** A row of `Income` or `Expense`. `date` is the real day (`received_at`, `spent_at`), if given. */
  datatype Movement = Movement(
    id: nat, currency: string, amount: int, date: Option<int>, timestamp: int, createdAt: int,
    note: string, category: string)

  datatype Ledger = Ledger(incomes: seq<Movement>, expenses: seq<Movement>)

  /** The primary key. */
  predicate DistinctIds(ms: seq<Movement>) {
    forall i, j :: 0 <= i < j < |ms| ==> ms[i].id != ms[j].id
  }

  // ------------------------------------------------------------ dates

  function LocalDay(instant: int, offset: int): int { (instant + offset) / DAY }

  /** The instant a local day begins. */
  function DayStart(day: int, offset: int): int { day * DAY - offset }

  function EffectiveDay(m: Movement, offset: int): int {
    if m.date.Some? then m.date.value else LocalDay(m.timestamp, offset)
  }

  predicate Within(day: int, lo: Option<int>, hi: Option<int>) {
    (lo.Some? ==> lo.value <= day) && (hi.Some? ==> day <= hi.value)
  }

  /** `_filter_by_period`, as the query is built: real dates by day, the others by instant. */
  predicate InPeriod(m: Movement, lo: Option<int>, hi: Option<int>, offset: int) {
    if m.date.Some? then Within(m.date.value, lo, hi)
    else
      && (lo.Some? ==> m.timestamp >= DayStart(lo.value, offset))
      && (hi.Some? ==> m.timestamp <= DayStart(hi.value + 1, offset) - 1)
  }

  // ------------------------------------------------------------ initial balances

  predicate IsInitial(m: Movement) {
    Lower(m.note) == INITIAL_BALANCE_NOTE || Lower(m.category) == INITIAL_BALANCE_NOTE
  }

  /** `_anchor_key` comparison: by day, then by when it was recorded, then by id. */
  predicate KeyLess(a: Movement, b: Movement, offset: int) {
    var x, y := EffectiveDay(a, offset), EffectiveDay(b, offset);
    x < y || (x == y && (a.createdAt < b.createdAt || (a.createdAt == b.createdAt && a.id < b.id)))
  }

  predicate Candidate(m: Movement, currency: string, lo: Option<int>, hi: Option<int>, offset: int) {
    m.currency == currency && IsInitial(m) && Within(EffectiveDay(m, offset), lo, hi)
  }

  /** The last initial balance of a currency among `ms`, day within [lo, hi]. */
  function Latest(ms: seq<Movement>, currency: string, lo: Option<int>, hi: Option<int>, offset: int): Option<Movement> {
    if ms == [] then None
    else
      var m, before := ms[|ms| - 1], Latest(ms[..|ms| - 1], currency, lo, hi, offset);
      if Candidate(m, currency, lo, hi, offset) && (before.None? || KeyLess(before.value, m, offset))
      then Some(m) else before
  }

  /** `latest_initial_balances`. */
  method LatestInitialBalances(incomes: seq<Movement>, lo: Option<int>, hi: Option<int>, offset: int)
    returns (anchors: map<string, Movement>)
    ensures forall c :: c in anchors <==> Latest(incomes, c, lo, hi, offset).Some?
    ensures forall c :: c in anchors ==> Latest(incomes, c, lo, hi, offset) == Some(anchors[c])
  {
    anchors := map[];
    for i := 0 to |incomes|
      invariant forall c :: c in anchors <==> Latest(incomes[..i], c, lo, hi, offset).Some?
      invariant forall c :: c in anchors ==> Latest(incomes[..i], c, lo, hi, offset) == Some(anchors[c])
    {
      var income := incomes[i];
      assert incomes[..i + 1][..i] == incomes[..i];
      if IsInitial(income) {
        var day := EffectiveDay(income, offset);
        if !((lo.Some? && day < lo.value) || (hi.Some? && day > hi.value)) {
          if income.currency !in anchors || KeyLess(anchors[income.currency], income, offset) {
            anchors := anchors[income.currency := income];
          }
        }
      }
    }
    assert incomes[..|incomes|] == incomes;
  }

  // ------------------------------------------------------------ what counts

  /** `_after_anchor`, as the query is built. */
  predicate AfterAnchor(m: Movement, anchor: Movement, offset: int) {
    var day := EffectiveDay(anchor, offset);
    if m.date.Some? then m.date.value > day || (m.date.value == day && m.createdAt > anchor.createdAt)
    else
      m.timestamp >= DayStart(day + 1, offset)
      || (m.timestamp >= DayStart(day, offset) && m.createdAt > anchor.createdAt)
  }

  datatype Anchor = NoAnchor | InsidePeriod(income: Movement) | Carried(income: Movement)

  function Filter(ms: seq<Movement>, p: Movement -> bool): seq<Movement> {
    if ms == [] then []
    else Filter(ms[..|ms| - 1], p) + if p(ms[|ms| - 1]) then [ms[|ms| - 1]] else []
  }

  function Total(ms: seq<Movement>): int {
    if ms == [] then 0 else Total(ms[..|ms| - 1]) + ms[|ms| - 1].amount
  }

  /** The first and last day a balance covers; none for the whole history. */
  datatype Window = Window(since: Option<int>, until: Option<int>, whole: bool)

  /** Does the period begin on the first of a month? Then it may carry an initial balance over. */
  datatype Calendar = Calendar(firstOfMonth: int -> int)

  predicate MayCarry(w: Window, calendar: Calendar) {
    !w.whole && w.since.Some? && calendar.firstOfMonth(w.since.value) == w.since.value
  }

  /** The initial balance a currency counts from. */
  function AnchorOf(l: Ledger, currency: string, w: Window, calendar: Calendar, offset: int): Anchor {
    if w.whole then NoAnchor
    else
      var inside := Latest(l.incomes, currency, w.since, w.until, offset);
      if inside.Some? then InsidePeriod(inside.value)
      else if !MayCarry(w, calendar) then NoAnchor
      else
        var before := Latest(l.incomes, currency, Some(w.since.value - CARRY_OVER_DAYS), Some(w.since.value - 1), offset);
        if before.Some? then Carried(before.value) else NoAnchor
  }

  /** The first day of the period of a currency: a carried initial balance moves it back. */
  function FirstDay(w: Window, a: Anchor, offset: int): Option<int> {
    if a.Carried? then Some(EffectiveDay(a.income, offset)) else w.since
  }

  predicate CountsExpense(m: Movement, a: Anchor, offset: int) {
    a.NoAnchor? || AfterAnchor(m, a.income, offset)
  }

  /** The anchor counts, and what came after it except other initial balances. */
  predicate CountsIncome(m: Movement, a: Anchor, offset: int) {
    a.NoAnchor? || m.id == a.income.id || (AfterAnchor(m, a.income, offset) && !IsInitial(m))
  }

  /** The two filtered queries of a currency. */
  function ReportedIncome(c: string, lo: Option<int>, hi: Option<int>, a: Anchor, offset: int): Movement -> bool {
    (m: Movement) => m.currency == c && InPeriod(m, lo, hi, offset) && CountsIncome(m, a, offset)
  }

  function ReportedExpense(c: string, lo: Option<int>, hi: Option<int>, a: Anchor, offset: int): Movement -> bool {
    (m: Movement) => m.currency == c && InPeriod(m, lo, hi, offset) && CountsExpense(m, a, offset)
  }

  function CountedIncomes(l: Ledger, c: string, w: Window, a: Anchor, offset: int): seq<Movement> {
    Filter(l.incomes, ReportedIncome(c, FirstDay(w, a, offset), w.until, a, offset))
  }

  function CountedExpenses(l: Ledger, c: string, w: Window, a: Anchor, offset: int): seq<Movement> {
    Filter(l.expenses, ReportedExpense(c, FirstDay(w, a, offset), w.until, a, offset))
  }

  datatype Row = Row(
    currency: string, anchor: Anchor,
    incomesTotal: int, incomesCount: nat, expensesTotal: int, expensesCount: nat, balance: int)

  /** The row of one currency. */
  function RowFor(l: Ledger, c: string, w: Window, calendar: Calendar, offset: int): Row {
    var a := AnchorOf(l, c, w, calendar, offset);
    var incomes, expenses := CountedIncomes(l, c, w, a, offset), CountedExpenses(l, c, w, a, offset);
    Row(c, a, Total(incomes), |incomes|, Total(expenses), |expenses|, Total(incomes) - Total(expenses))
  }

  // ------------------------------------------------------------ compute_balance

  datatype Request = Request(start: Option<int>, end: Option<int>, whole: bool)

  datatype Answer = Rows(rows: seq<Row>) | BadRange

  /** No dates mean the current month; a start without an end reaches until today. */
  function WindowOf(r: Request, today: int, calendar: Calendar): Window {
    if r.whole then Window(None, None, true)
    else if r.start.None? && r.end.None? then Window(Some(calendar.firstOfMonth(today)), Some(today), false)
    else if r.start.Some? && r.end.None? then Window(r.start, Some(today), false)
    else Window(r.start, r.end, false)
  }

  /** What `compute_balance` asks of its dates. */
  predicate ValidWindow(w: Window) {
    && (w.whole ==> w.since.None? && w.until.None?)
    && (!w.whole && w.since.Some? ==> w.until.Some? && w.since.value <= w.until.value)
  }

  /** The currencies that get a row: those with a movement in the period or a carried balance; the
      user's own if there is none. */
  ghost predicate HasRow(l: Ledger, c: string, w: Window, calendar: Calendar, offset: int, own: string) {
    Seen(l, c, w, calendar, offset)
    || (c == own && forall d :: !Seen(l, d, w, calendar, offset))
  }

  ghost predicate Seen(l: Ledger, c: string, w: Window, calendar: Calendar, offset: int) {
    || (exists m :: m in l.incomes && m.currency == c && InPeriod(m, w.since, w.until, offset))
    || (exists m :: m in l.expenses && m.currency == c && InPeriod(m, w.since, w.until, offset))
    || AnchorOf(l, c, w, calendar, offset).Carried?
  }

  /** The anchors of the period, and the ones carried over into it, as two dictionaries. */
  function Chosen(anchors: map<string, Movement>, carried: map<string, Movement>, c: string): Anchor {
    if c in anchors then InsidePeriod(anchors[c]) else if c in carried then Carried(carried[c]) else NoAnchor
  }

  method FindAnchors(l: Ledger, w: Window, calendar: Calendar, offset: int)
    returns (anchors: map<string, Movement>, carried: map<string, Movement>)
    ensures forall c :: Chosen(anchors, carried, c) == AnchorOf(l, c, w, calendar, offset)
    ensures forall c :: c in carried <==> AnchorOf(l, c, w, calendar, offset).Carried?
  {
    anchors, carried := map[], map[];
    if w.whole { return; }
    anchors := LatestInitialBalances(l.incomes, w.since, w.until, offset);
    if MayCarry(w, calendar) {
      var before := LatestInitialBalances(
        l.incomes, Some(w.since.value - CARRY_OVER_DAYS), Some(w.since.value - 1), offset);
      carried := map c | c in before && c !in anchors :: before[c];
    }
  }

  method FindCurrencies(l: Ledger, w: Window, calendar: Calendar, offset: int, own: string,
                        carried: map<string, Movement>)
    returns (currencies: set<string>)
    requires forall c :: c in carried <==> AnchorOf(l, c, w, calendar, offset).Carried?
    ensures forall c :: c in currencies <==> HasRow(l, c, w, calendar, offset, own)
  {
    currencies := (set m | m in l.expenses && InPeriod(m, w.since, w.until, offset) :: m.currency)
                  + (set m | m in l.incomes && InPeriod(m, w.since, w.until, offset) :: m.currency)
                  + carried.Keys;
    assert forall c :: c in currencies <==> Seen(l, c, w, calendar, offset);
    if currencies == {} { currencies := {own}; }
  }

  // ------------------------------------------------------------ the order of the rows

  /** The user's own currency first, the others by code. */
  function OwnFirst(own: string): (string, string) -> bool {
    (c: string, d: string) => c == own || (d != own && AtMost(c, d))
  }

  lemma OwnFirstOrders(own: string)
    ensures Preorder(OwnFirst(own))
  {
    var leq := OwnFirst(own);
    forall a, b ensures leq(a, b) || leq(b, a) { AtMostIsTotal(a, b); }
    forall a, b, c | leq(a, b) && leq(b, c) ensures leq(a, c) {
      if a != own { AtMostIsTransitive(a, b, c); }
    }
  }

  /** `sorted(currencies, key=lambda c: (c != default_currency, c))`. */
  method SortCurrencies(currencies: set<string>, own: string) returns (order: seq<string>)
    ensures Distinct(order) && Ordered(order, OwnFirst(own))
    ensures forall c :: c in order <==> c in currencies
  {
    var left := currencies;
    var listed := [];
    while left != {}
      invariant left <= currencies && Distinct(listed)
      invariant forall c :: c in listed <==> c in currencies && c !in left
      decreases left
    {
      var c :| c in left;
      listed := listed + [c];
      left := left - {c};
    }
    OwnFirstOrders(own);
    Sorts(listed, OwnFirst(own));
    order := Sort(listed, OwnFirst(own));
    DistinctPermutes(order, listed);
    assert forall c :: c in order <==> c in multiset(listed);
  }

  method ComputeRow(l: Ledger, c: string, w: Window, anchor: Anchor, calendar: Calendar, offset: int)
    returns (row: Row)
    requires anchor == AnchorOf(l, c, w, calendar, offset)
    ensures row == RowFor(l, c, w, calendar, offset)
  {
    var incomes := CountedIncomes(l, c, w, anchor, offset);
    var expenses := CountedExpenses(l, c, w, anchor, offset);
    var incomesTotal, expensesTotal := Total(incomes), Total(expenses);
    row := Row(c, anchor, incomesTotal, |incomes|, expensesTotal, |expenses|, incomesTotal - expensesTotal);
  }

  method ComputeRows(l: Ledger, w: Window, calendar: Calendar, offset: int, currencies: seq<string>,
                     anchors: map<string, Movement>, carried: map<string, Movement>)
    returns (rows: seq<Row>)
    requires forall c :: Chosen(anchors, carried, c) == AnchorOf(l, c, w, calendar, offset)
    ensures |rows| == |currencies|
    ensures forall i :: 0 <= i < |rows| ==> rows[i] == RowFor(l, currencies[i], w, calendar, offset)
  {
    rows := [];
    for n := 0 to |currencies|
      invariant |rows| == n
      invariant forall i :: 0 <= i < n ==> rows[i] == RowFor(l, currencies[i], w, calendar, offset)
    {
      var c := currencies[n];
      var row := ComputeRow(l, c, w, Chosen(anchors, carried, c), calendar, offset);
      rows := rows + [row];
    }
  }

  function CurrenciesOf(rows: seq<Row>): (cs: seq<string>)
    ensures |cs| == |rows| && forall i :: 0 <= i < |cs| ==> cs[i] == rows[i].currency
  {
    seq(|rows|, i requires 0 <= i < |rows| => rows[i].currency)
  }

  /** One row per currency that has something to report, each the row of its currency, in order. */
  ghost predicate IsBalance(rows: seq<Row>, l: Ledger, w: Window, calendar: Calendar, offset: int, own: string) {
    && (forall i :: 0 <= i < |rows| ==> rows[i] == RowFor(l, rows[i].currency, w, calendar, offset))
    && Distinct(CurrenciesOf(rows)) && Ordered(CurrenciesOf(rows), OwnFirst(own))
    && (forall c :: HasRow(l, c, w, calendar, offset, own) <==> c in CurrenciesOf(rows))
  }

  method ComputeBalance(l: Ledger, r: Request, today: int, calendar: Calendar, offset: int, own: string)
    returns (answer: Answer)
    ensures var w := WindowOf(r, today, calendar);
            && (answer.BadRange? <==> w.since.Some? && w.until.Some? && w.until.value < w.since.value)
            && (answer.Rows? ==> ValidWindow(w) && IsBalance(answer.rows, l, w, calendar, offset, own))
  {
    var w := WindowOf(r, today, calendar);
    if w.since.Some? && w.until.Some? && w.until.value < w.since.value { return BadRange; }
    var anchors, carried := FindAnchors(l, w, calendar, offset);
    var currencies := FindCurrencies(l, w, calendar, offset, own, carried);
    var order := SortCurrencies(currencies, own);
    var rows := ComputeRows(l, w, calendar, offset, order, anchors, carried);
    assert CurrenciesOf(rows) == order;
    answer := Rows(rows);
  }
}
