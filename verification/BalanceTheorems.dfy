/** What a user may rely on in a reported balance: it is the replay of the period, and it splits. */
module BalanceTheorems {
  import opened Options
  import opened Sorting
  import opened Texts
  import opened Balance
  import opened BalanceReplay

  // ------------------------------------------------------------ the latest initial balance

  /** The candidate that no other candidate comes after; none only if there is no candidate. */
  lemma {:induction false} LatestIsLast(ms: seq<Movement>, c: string, lo: Option<int>, hi: Option<int>, offset: int)
    ensures var r := Latest(ms, c, lo, hi, offset);
            && (r.None? ==> forall x :: x in ms ==> !Candidate(x, c, lo, hi, offset))
            && (r.Some? ==> r.value in ms && Candidate(r.value, c, lo, hi, offset)
                            && forall x :: x in ms && Candidate(x, c, lo, hi, offset) ==> !KeyLess(r.value, x, offset))
  {
    if ms != [] {
      LatestIsLast(ms[..|ms| - 1], c, lo, hi, offset);
      assert ms == ms[..|ms| - 1] + [ms[|ms| - 1]];
    }
  }

  lemma {:induction false} LatestAgrees(
    ms: seq<Movement>, c: string, lo: Option<int>, hi: Option<int>, hi': Option<int>, offset: int)
    requires forall m :: m in ms ==> (Candidate(m, c, lo, hi, offset) <==> Candidate(m, c, lo, hi', offset))
    ensures Latest(ms, c, lo, hi, offset) == Latest(ms, c, lo, hi', offset)
  {
    if ms != [] { LatestAgrees(ms[..|ms| - 1], c, lo, hi, hi', offset); }
  }

  // ------------------------------------------------------------ when a currency counts from an initial balance

  /** Some income of the currency is an initial balance, and its day lies in [lo, hi]. */
  ghost predicate Declared(l: Ledger, c: string, lo: Option<int>, hi: Option<int>, offset: int) {
    exists m :: m in l.incomes && Candidate(m, c, lo, hi, offset)
  }

  /** `m` is the last of them. */
  ghost predicate LastDeclared(m: Movement, l: Ledger, c: string, lo: Option<int>, hi: Option<int>, offset: int) {
    && m in l.incomes && Candidate(m, c, lo, hi, offset)
    && forall x :: x in l.incomes && Candidate(x, c, lo, hi, offset) ==> !KeyLess(m, x, offset)
  }

  /** The period begins on the first of a month. */
  predicate BeginsMonth(w: Window, calendar: Calendar) {
    !w.whole && w.since.Some? && calendar.firstOfMonth(w.since.value) == w.since.value
  }

  lemma LatestIff(l: Ledger, c: string, lo: Option<int>, hi: Option<int>, offset: int)
    ensures var r := Latest(l.incomes, c, lo, hi, offset);
            (r.Some? <==> Declared(l, c, lo, hi, offset)) && (r.Some? ==> LastDeclared(r.value, l, c, lo, hi, offset))
  {
    LatestIsLast(l.incomes, c, lo, hi, offset);
  }

  /** What a row counts from: the last initial balance of its period; without one, and only in a period
      that begins on the first of a month, the last of the two days before; else nothing. */
  lemma AnchorIff(l: Ledger, c: string, w: Window, calendar: Calendar, offset: int)
    ensures var a := RowFor(l, c, w, calendar, offset).anchor;
            && a == AnchorOf(l, c, w, calendar, offset)
            && (a.InsidePeriod? <==> !w.whole && Declared(l, c, w.since, w.until, offset))
            && (a.InsidePeriod? ==> LastDeclared(a.income, l, c, w.since, w.until, offset))
            && (a.Carried? <==>
                  && BeginsMonth(w, calendar) && !Declared(l, c, w.since, w.until, offset)
                  && Declared(l, c, Some(w.since.value - 2), Some(w.since.value - 1), offset))
            && (a.Carried? ==>
                  LastDeclared(a.income, l, c, Some(w.since.value - 2), Some(w.since.value - 1), offset))
  {
    LatestIff(l, c, w.since, w.until, offset);
    if w.since.Some? { LatestIff(l, c, Some(w.since.value - 2), Some(w.since.value - 1), offset); }
  }

  /** The currency has a movement in the period, or counts from an initial balance of the two days before. */
  ghost predicate Reported(l: Ledger, c: string, w: Window, calendar: Calendar, offset: int) {
    || (exists m :: m in l.incomes && m.currency == c && Within(EffectiveDay(m, offset), w.since, w.until))
    || (exists m :: m in l.expenses && m.currency == c && Within(EffectiveDay(m, offset), w.since, w.until))
    || (&& BeginsMonth(w, calendar) && !Declared(l, c, w.since, w.until, offset)
        && Declared(l, c, Some(w.since.value - 2), Some(w.since.value - 1), offset))
  }

  /** Which currencies have a row. */
  lemma RowIff(l: Ledger, c: string, w: Window, calendar: Calendar, offset: int, own: string)
    ensures HasRow(l, c, w, calendar, offset, own) <==>
              Reported(l, c, w, calendar, offset)
              || (c == own && forall d :: !Reported(l, d, w, calendar, offset))
  {
    forall d ensures Seen(l, d, w, calendar, offset) <==> Reported(l, d, w, calendar, offset) {
      SeenIff(l, d, w, calendar, offset);
    }
  }

  lemma SeenIff(l: Ledger, c: string, w: Window, calendar: Calendar, offset: int)
    ensures Seen(l, c, w, calendar, offset) <==> Reported(l, c, w, calendar, offset)
  {
    AnchorIff(l, c, w, calendar, offset);
    forall m ensures InPeriod(m, w.since, w.until, offset) <==> Within(EffectiveDay(m, offset), w.since, w.until) {
      PeriodIsEffective(m, w.since, w.until, offset);
    }
  }

  /** `t` is written "saldo inicial" but for capitals. */
  predicate Spelled(t: string) {
    |t| == 13 && forall i :: 0 <= i < 13 ==> t[i] == "saldo inicial"[i] || t[i] == "SALDO INICIAL"[i]
  }

  /** An initial balance has that note or that category. */
  lemma InitialIff(m: Movement)
    ensures IsInitial(m) <==> Spelled(m.note) || Spelled(m.category)
  {
    LowerIsSpelled(m.note);
    LowerIsSpelled(m.category);
  }

  lemma LowerIsSpelled(t: string)
    ensures Lower(t) == "saldo inicial" <==> Spelled(t)
  {
    if |t| == 13 {
      forall i | 0 <= i < 13
        ensures LowerChar(t[i]) == "saldo inicial"[i] <==> t[i] == "saldo inicial"[i] || t[i] == "SALDO INICIAL"[i]
      {
        LetterOfPhrase(i);
      }
    }
  }

  lemma LetterOfPhrase(i: nat)
    requires i < 13
    ensures forall c: char :: LowerChar(c) == "saldo inicial"[i] <==> c == "saldo inicial"[i] || c == "SALDO INICIAL"[i]
  {
  }

  // ------------------------------------------------------------ which days a request covers

  /** The first of a month is not after the day, and the month of a day runs on until it. */
  ghost predicate IsCalendar(calendar: Calendar) {
    && (forall d: int :: calendar.firstOfMonth(d) <= d)
    && (forall d: int, e: int :: calendar.firstOfMonth(d) <= e <= d ==>
          calendar.firstOfMonth(e) == calendar.firstOfMonth(d))
  }

  predicate Covers(w: Window, day: int) { Within(day, w.since, w.until) }

  /** Without dates the days of the current month up to today; with a start alone up to today; else the
      days between the dates; everything on request. */
  lemma RequestCovers(r: Request, today: int, calendar: Calendar, day: int)
    requires IsCalendar(calendar)
    ensures Covers(WindowOf(r, today, calendar), day) <==>
              || r.whole
              || (r.start.None? && r.end.None? && day <= today
                  && calendar.firstOfMonth(day) == calendar.firstOfMonth(today))
              || (r.start.Some? && r.end.None? && r.start.value <= day <= today)
              || (r.end.Some? && day <= r.end.value && (r.start.Some? ==> r.start.value <= day))
    ensures WindowOf(r, today, calendar).whole <==> r.whole
  {
    var first := calendar.firstOfMonth(today);
    assert first <= today && calendar.firstOfMonth(day) <= day;
  }

  /** Days change at midnight in the user's zone. */
  lemma LocalDayIff(instant: int, offset: int, day: int)
    ensures LocalDay(instant, offset) == day <==>
              day * (24 * 60 * 60 * 1000000) <= instant + offset < (day + 1) * (24 * 60 * 60 * 1000000)
  {
  }

  // ------------------------------------------------------------ filters

  lemma {:induction false} FilterIn(ms: seq<Movement>, p: Movement -> bool, x: Movement)
    ensures x in Filter(ms, p) <==> x in ms && p(x)
  {
    if ms != [] {
      FilterIn(ms[..|ms| - 1], p, x);
      assert ms == ms[..|ms| - 1] + [ms[|ms| - 1]];
    }
  }

  lemma {:induction false} FilterDistinct(ms: seq<Movement>, p: Movement -> bool)
    requires DistinctIds(ms)
    ensures DistinctIds(Filter(ms, p))
  {
    if ms != [] {
      var front := ms[..|ms| - 1];
      FilterDistinct(front, p);
      forall i | 0 <= i < |Filter(front, p)| ensures Filter(front, p)[i].id != ms[|ms| - 1].id {
        FilterIn(front, p, Filter(front, p)[i]);
      }
    }
  }

  lemma EntryIn(e: Entry, l: Ledger, c: string, lo: Option<int>, hi: Option<int>, offset: int)
    ensures e in Entries(l, c, lo, hi, offset) <==>
              (e.m in if e.income then l.incomes else l.expenses)
              && e.m.currency == c && Within(EffectiveDay(e.m, offset), lo, hi)
  {
    var p := Dated(c, lo, hi, offset);
    FilterIn(l.incomes, p, e.m);
    FilterIn(l.expenses, p, e.m);
    WrapIn(Filter(l.incomes, p), true, e);
    WrapIn(Filter(l.expenses, p), false, e);
  }

  lemma WrapIn(ms: seq<Movement>, income: bool, e: Entry)
    ensures e in Wrap(ms, income) <==> e.income == income && e.m in ms
  {
    if e.income == income && e.m in ms {
      var i :| 0 <= i < |ms| && ms[i] == e.m;
      assert Wrap(ms, income)[i] == e;
    }
  }

  lemma EntriesDistinct(l: Ledger, c: string, lo: Option<int>, hi: Option<int>, offset: int)
    requires DistinctIds(l.incomes)
    ensures DistinctIncomes(Entries(l, c, lo, hi, offset))
  {
    FilterDistinct(l.incomes, Dated(c, lo, hi, offset));
  }

  // ------------------------------------------------------------ the same entries in another order

  lemma DistinctIncomesPermute(s: seq<Entry>, t: seq<Entry>)
    requires multiset(s) == multiset(t) && DistinctIncomes(t)
    ensures DistinctIncomes(s)
  {
    forall i, j | 0 <= i < j < |s| && s[i].income && s[j].income ensures s[i].m.id != s[j].m.id {
      if s[i] == s[j] {
        AtTwoPlaces(s, i, j);
        TwoPlaces(t, s[i]);
      } else {
        assert s[i] in multiset(t) && s[j] in multiset(t);
      }
    }
  }

  // ------------------------------------------------------------ the anchor of the replay

  lemma AnchorOfRuns(l: Ledger, c: string, w: Window, calendar: Calendar, offset: int)
    requires ValidWindow(w) && !w.whole
    ensures var a := AnchorOf(l, c, w, calendar, offset);
            AnchorsRun(Entries(l, c, ReplayFrom(w, a), w.until, offset), a, offset)
  {
    var a := AnchorOf(l, c, w, calendar, offset);
    var es := Entries(l, c, ReplayFrom(w, a), w.until, offset);
    LatestIsLast(l.incomes, c, w.since, w.until, offset);
    if MayCarry(w, calendar) {
      LatestIsLast(l.incomes, c, Some(w.since.value - CARRY_OVER_DAYS), Some(w.since.value - 1), offset);
    }
    if !a.NoAnchor? { EntryIn(Entry(a.income, true), l, c, ReplayFrom(w, a), w.until, offset); }
    forall e | e in es && Resets(e)
      ensures !a.NoAnchor? && Leq(e, Entry(a.income, true), offset)
    {
      EntryIn(e, l, c, ReplayFrom(w, a), w.until, offset);
    }
  }

  // ------------------------------------------------------------ the queries as a sum

  lemma AnchorDay(l: Ledger, c: string, w: Window, calendar: Calendar, offset: int)
    requires ValidWindow(w)
    ensures var a := AnchorOf(l, c, w, calendar, offset);
            !a.NoAnchor? ==>
              && a.income in l.incomes
              && Within(EffectiveDay(a.income, offset), ReplayFrom(w, a), w.until)
  {
    LatestIsLast(l.incomes, c, w.since, w.until, offset);
    if MayCarry(w, calendar) {
      LatestIsLast(l.incomes, c, Some(w.since.value - CARRY_OVER_DAYS), Some(w.since.value - 1), offset);
    }
  }

  /** Inside the extended period, the queries and the replay choose the same movements. */
  lemma SameChoice(m: Movement, income: bool, c: string, w: Window, a: Anchor, offset: int)
    requires !a.NoAnchor? ==> Within(EffectiveDay(a.income, offset), ReplayFrom(w, a), w.until)
    requires a.Carried? ==> w.since.Some?
    requires income && !a.NoAnchor? && m.id == a.income.id ==> m == a.income
    ensures income ==>
              (ReportedIncome(c, FirstDay(w, a, offset), w.until, a, offset)(m) <==>
               Dated(c, ReplayFrom(w, a), w.until, offset)(m) && Counts(Entry(m, true), a, offset))
    ensures ReportedExpense(c, FirstDay(w, a, offset), w.until, a, offset)(m) <==>
              Dated(c, ReplayFrom(w, a), w.until, offset)(m) && Counts(Entry(m, false), a, offset)
  {
    PeriodIsEffective(m, FirstDay(w, a, offset), w.until, offset);
    if !a.NoAnchor? { AfterIsEffective(m, a.income, offset); }
  }

  lemma WrapFilterStep(ms: seq<Movement>, p: Movement -> bool, income: bool, a: Anchor, offset: int, v: Entry -> int)
    requires ms != []
    ensures Counted(Wrap(Filter(ms, p), income), a, offset, v)
            == Counted(Wrap(Filter(ms[..|ms| - 1], p), income), a, offset, v)
               + if p(ms[|ms| - 1]) then Weight(Entry(ms[|ms| - 1], income), a, offset, v) else 0
  {
    var front, s := Wrap(Filter(ms[..|ms| - 1], p), income), Wrap(Filter(ms, p), income);
    if p(ms[|ms| - 1]) {
      assert s == front + [Entry(ms[|ms| - 1], income)];
      assert s[..|s| - 1] == front;
    } else {
      assert s == front;
    }
  }

  /** What a list of movements adds to `v`. */
  function Sum(ms: seq<Movement>, income: bool, v: Entry -> int): int {
    if ms == [] then 0 else Sum(ms[..|ms| - 1], income, v) + v(Entry(ms[|ms| - 1], income))
  }

  lemma SumStep(ms: seq<Movement>, p: Movement -> bool, income: bool, v: Entry -> int)
    requires ms != []
    ensures Sum(Filter(ms, p), income, v)
            == Sum(Filter(ms[..|ms| - 1], p), income, v) + if p(ms[|ms| - 1]) then v(Entry(ms[|ms| - 1], income)) else 0
  {
    var front, all := Filter(ms[..|ms| - 1], p), Filter(ms, p);
    if p(ms[|ms| - 1]) {
      assert all == front + [ms[|ms| - 1]];
      assert all[..|all| - 1] == front;
    } else {
      assert all == front;
    }
  }

  lemma {:induction false} IncomesAreCounted(
    ms: seq<Movement>, c: string, w: Window, a: Anchor, offset: int, v: Entry -> int)
    requires !a.NoAnchor? ==> Within(EffectiveDay(a.income, offset), ReplayFrom(w, a), w.until)
    requires a.Carried? ==> w.since.Some?
    requires !a.NoAnchor? ==> forall m :: m in ms && m.id == a.income.id ==> m == a.income
    ensures Counted(Wrap(Filter(ms, Dated(c, ReplayFrom(w, a), w.until, offset)), true), a, offset, v)
            == Sum(Filter(ms, ReportedIncome(c, FirstDay(w, a, offset), w.until, a, offset)), true, v)
  {
    if ms != [] {
      WrapFilterStep(ms, Dated(c, ReplayFrom(w, a), w.until, offset), true, a, offset, v);
      SumStep(ms, ReportedIncome(c, FirstDay(w, a, offset), w.until, a, offset), true, v);
      SameChoice(ms[|ms| - 1], true, c, w, a, offset);
      IncomesAreCounted(ms[..|ms| - 1], c, w, a, offset, v);
    }
  }

  lemma {:induction false} ExpensesAreCounted(
    ms: seq<Movement>, c: string, w: Window, a: Anchor, offset: int, v: Entry -> int)
    requires !a.NoAnchor? ==> Within(EffectiveDay(a.income, offset), ReplayFrom(w, a), w.until)
    requires a.Carried? ==> w.since.Some?
    ensures Counted(Wrap(Filter(ms, Dated(c, ReplayFrom(w, a), w.until, offset)), false), a, offset, v)
            == Sum(Filter(ms, ReportedExpense(c, FirstDay(w, a, offset), w.until, a, offset)), false, v)
  {
    if ms != [] {
      WrapFilterStep(ms, Dated(c, ReplayFrom(w, a), w.until, offset), false, a, offset, v);
      SumStep(ms, ReportedExpense(c, FirstDay(w, a, offset), w.until, a, offset), false, v);
      SameChoice(ms[|ms| - 1], false, c, w, a, offset);
      ExpensesAreCounted(ms[..|ms| - 1], c, w, a, offset, v);
    }
  }

  lemma EntriesAreCounted(l: Ledger, c: string, w: Window, calendar: Calendar, offset: int, v: Entry -> int)
    requires ValidWindow(w) && DistinctIds(l.incomes)
    ensures var a := AnchorOf(l, c, w, calendar, offset);
            Counted(Entries(l, c, ReplayFrom(w, a), w.until, offset), a, offset, v)
            == Sum(CountedIncomes(l, c, w, a, offset), true, v) + Sum(CountedExpenses(l, c, w, a, offset), false, v)
  {
    var a := AnchorOf(l, c, w, calendar, offset);
    var p := Dated(c, ReplayFrom(w, a), w.until, offset);
    AnchorDay(l, c, w, calendar, offset);
    IncomesAreCounted(l.incomes, c, w, a, offset, v);
    ExpensesAreCounted(l.expenses, c, w, a, offset, v);
    CountedConcat(Wrap(Filter(l.incomes, p), true), Wrap(Filter(l.expenses, p), false), a, offset, v);
  }

  lemma {:induction false} SumsOfIncomes(ms: seq<Movement>)
    ensures Sum(ms, true, Signed) == Total(ms) && Sum(ms, true, IncomeAmount) == Total(ms)
    ensures Sum(ms, true, IncomeOne) == |ms| && Sum(ms, true, ExpenseAmount) == 0 && Sum(ms, true, ExpenseOne) == 0
  {
    if ms != [] { SumsOfIncomes(ms[..|ms| - 1]); }
  }

  lemma {:induction false} SumsOfExpenses(ms: seq<Movement>)
    ensures Sum(ms, false, Signed) == -Total(ms) && Sum(ms, false, ExpenseAmount) == Total(ms)
    ensures Sum(ms, false, ExpenseOne) == |ms| && Sum(ms, false, IncomeAmount) == 0 && Sum(ms, false, IncomeOne) == 0
  {
    if ms != [] { SumsOfExpenses(ms[..|ms| - 1]); }
  }

  /** Which of a row's numbers is the sum of `v`. */
  function NumberOf(row: Row, v: Measure): int {
    match v
    case Incomes => row.incomesTotal
    case IncomeCount => row.incomesCount
    case Expenses => row.expensesTotal
    case ExpenseCount => row.expensesCount
    case Difference => row.balance
  }

  datatype Measure = Incomes | IncomeCount | Expenses | ExpenseCount | Difference

  function Each(v: Measure): Entry -> int {
    match v
    case Incomes => IncomeAmount
    case IncomeCount => IncomeOne
    case Expenses => ExpenseAmount
    case ExpenseCount => ExpenseOne
    case Difference => Signed
  }

  lemma RowIsCounted(l: Ledger, c: string, w: Window, calendar: Calendar, offset: int, v: Measure)
    requires ValidWindow(w) && DistinctIds(l.incomes)
    ensures var a := AnchorOf(l, c, w, calendar, offset);
            NumberOf(RowFor(l, c, w, calendar, offset), v)
            == Counted(Entries(l, c, ReplayFrom(w, a), w.until, offset), a, offset, Each(v))
  {
    var a := AnchorOf(l, c, w, calendar, offset);
    EntriesAreCounted(l, c, w, calendar, offset, Each(v));
    SumsOfIncomes(CountedIncomes(l, c, w, a, offset));
    SumsOfExpenses(CountedExpenses(l, c, w, a, offset));
  }

  // ------------------------------------------------------------ main results

  /** Every number of a row, totals, counts and balance, is the running sum after the movements of its
      period, whatever their order in the table: a declared initial balance sets it anew, everything
      else adds to it. */
  lemma RowIsReplay(l: Ledger, c: string, w: Window, calendar: Calendar, offset: int, s: seq<Entry>, v: Measure)
    requires ValidWindow(w) && !w.whole && DistinctIds(l.incomes)
    requires Arranged(s, Entries(l, c, ReplayFrom(w, AnchorOf(l, c, w, calendar, offset)), w.until, offset), offset)
    ensures NumberOf(RowFor(l, c, w, calendar, offset), v) == Replay(s, Each(v))
  {
    var a := AnchorOf(l, c, w, calendar, offset);
    var es := Entries(l, c, ReplayFrom(w, a), w.until, offset);
    RowIsCounted(l, c, w, calendar, offset, v);
    AnchorOfRuns(l, c, w, calendar, offset);
    EntriesDistinct(l, c, ReplayFrom(w, a), w.until, offset);
    DistinctIncomesPermute(s, es);
    assert forall e :: e in s <==> e in multiset(es);
    CountedPermutes(s, es, a, offset, Each(v));
    ReplayCounts(s, a, offset, Each(v));
  }

  /** The reported balance is the running balance after the movements of the period. */
  lemma BalanceIsReplay(l: Ledger, c: string, w: Window, calendar: Calendar, offset: int, s: seq<Entry>)
    requires ValidWindow(w) && !w.whole && DistinctIds(l.incomes)
    requires Arranged(s, Entries(l, c, ReplayFrom(w, AnchorOf(l, c, w, calendar, offset)), w.until, offset), offset)
    ensures RowFor(l, c, w, calendar, offset).balance == Replay(s, Signed)
  {
    RowIsReplay(l, c, w, calendar, offset, s, Difference);
  }

  /** Over the whole history no initial balance resets anything. */
  lemma WholeHistoryIsNet(l: Ledger, c: string, calendar: Calendar, offset: int, v: Measure)
    requires DistinctIds(l.incomes)
    ensures NumberOf(RowFor(l, c, Window(None, None, true), calendar, offset), v)
            == Net(Entries(l, c, None, None, offset), Each(v))
  {
    RowIsCounted(l, c, Window(None, None, true), calendar, offset, v);
    CountedIsNet(Entries(l, c, None, None, offset), NoAnchor, offset, Each(v));
  }

  lemma {:induction false} CountedIsNet(s: seq<Entry>, a: Anchor, offset: int, v: Entry -> int)
    requires forall e :: e in s ==> Counts(e, a, offset)
    ensures Counted(s, a, offset, v) == Net(s, v)
  {
    if s != [] { CountedIsNet(s[..|s| - 1], a, offset, v); }
  }

  // ------------------------------------------------------------ splitting a period

  lemma {:induction false} DatesSplit(
    ms: seq<Movement>, income: bool, c: string, lo: Option<int>, mid: int, hi: int, a: Anchor, offset: int, v: Entry -> int)
    requires mid < hi && (lo.Some? ==> lo.value <= mid)
    ensures Counted(Wrap(Filter(ms, Dated(c, lo, Some(hi), offset)), income), a, offset, v)
            == Counted(Wrap(Filter(ms, Dated(c, lo, Some(mid), offset)), income), a, offset, v)
               + Counted(Wrap(Filter(ms, Dated(c, Some(mid + 1), Some(hi), offset)), income), a, offset, v)
  {
    if ms != [] {
      WrapFilterStep(ms, Dated(c, lo, Some(hi), offset), income, a, offset, v);
      WrapFilterStep(ms, Dated(c, lo, Some(mid), offset), income, a, offset, v);
      WrapFilterStep(ms, Dated(c, Some(mid + 1), Some(hi), offset), income, a, offset, v);
      DatesSplit(ms[..|ms| - 1], income, c, lo, mid, hi, a, offset, v);
    }
  }

  lemma EntriesSplit(l: Ledger, c: string, lo: Option<int>, mid: int, hi: int, a: Anchor, offset: int, v: Entry -> int)
    requires mid < hi && (lo.Some? ==> lo.value <= mid)
    ensures Counted(Entries(l, c, lo, Some(hi), offset), a, offset, v)
            == Counted(Entries(l, c, lo, Some(mid), offset), a, offset, v)
               + Counted(Entries(l, c, Some(mid + 1), Some(hi), offset), a, offset, v)
  {
    DatesSplit(l.incomes, true, c, lo, mid, hi, a, offset, v);
    DatesSplit(l.expenses, false, c, lo, mid, hi, a, offset, v);
    var p, q := Dated(c, lo, Some(hi), offset), Dated(c, lo, Some(mid), offset);
    var r := Dated(c, Some(mid + 1), Some(hi), offset);
    CountedConcat(Wrap(Filter(l.incomes, p), true), Wrap(Filter(l.expenses, p), false), a, offset, v);
    CountedConcat(Wrap(Filter(l.incomes, q), true), Wrap(Filter(l.expenses, q), false), a, offset, v);
    CountedConcat(Wrap(Filter(l.incomes, r), true), Wrap(Filter(l.expenses, r), false), a, offset, v);
  }

  ghost predicate NoInitialAfter(l: Ledger, c: string, mid: int, until: int, offset: int) {
    forall m :: m in l.incomes && m.currency == c && IsInitial(m) ==> !(mid < EffectiveDay(m, offset) <= until)
  }

  lemma AnchorStays(l: Ledger, c: string, since: Option<int>, mid: int, until: int, calendar: Calendar, offset: int)
    requires mid < until && NoInitialAfter(l, c, mid, until, offset)
    ensures AnchorOf(l, c, Window(since, Some(until), false), calendar, offset)
            == AnchorOf(l, c, Window(since, Some(mid), false), calendar, offset)
  {
    LatestAgrees(l.incomes, c, since, Some(until), Some(mid), offset);
  }

  /** Everything dated after the period counts in full. */
  lemma LaterIsNet(l: Ledger, c: string, mid: int, until: int, a: Anchor, offset: int, v: Entry -> int)
    requires NoInitialAfter(l, c, mid, until, offset)
    requires !a.NoAnchor? ==> EffectiveDay(a.income, offset) <= mid
    ensures Counted(Entries(l, c, Some(mid + 1), Some(until), offset), a, offset, v)
            == Net(Entries(l, c, Some(mid + 1), Some(until), offset), v)
  {
    var later := Entries(l, c, Some(mid + 1), Some(until), offset);
    forall e | e in later ensures Counts(e, a, offset) {
      EntryIn(e, l, c, Some(mid + 1), Some(until), offset);
      if !a.NoAnchor? { AfterIsEffective(e.m, a.income, offset); }
    }
    CountedIsNet(later, a, offset, v);
  }

  lemma CountedSplits(
    l: Ledger, c: string, from: Option<int>, mid: int, until: int, a: Anchor, offset: int, v: Entry -> int)
    requires mid < until && (from.Some? ==> from.value <= mid) && NoInitialAfter(l, c, mid, until, offset)
    requires !a.NoAnchor? ==> EffectiveDay(a.income, offset) <= mid
    ensures Counted(Entries(l, c, from, Some(until), offset), a, offset, v)
            == Counted(Entries(l, c, from, Some(mid), offset), a, offset, v)
               + Net(Entries(l, c, Some(mid + 1), Some(until), offset), v)
  {
    EntriesSplit(l, c, from, mid, until, a, offset, v);
    LaterIsNet(l, c, mid, until, a, offset, v);
  }

  lemma NumberIsCounted(
    l: Ledger, c: string, since: Option<int>, until: int, calendar: Calendar, offset: int, v: Measure, a: Anchor,
    from: Option<int>)
    requires DistinctIds(l.incomes) && ValidWindow(Window(since, Some(until), false))
    requires AnchorOf(l, c, Window(since, Some(until), false), calendar, offset) == a
    requires ReplayFrom(Window(since, Some(until), false), a) == from
    ensures NumberOf(RowFor(l, c, Window(since, Some(until), false), calendar, offset), v)
            == Counted(Entries(l, c, from, Some(until), offset), a, offset, Each(v))
  {
    RowIsCounted(l, c, Window(since, Some(until), false), calendar, offset, v);
  }

  lemma NumberSplits(
    l: Ledger, c: string, since: Option<int>, mid: int, until: int, calendar: Calendar, offset: int, v: Measure,
    a: Anchor)
    requires DistinctIds(l.incomes) && mid < until && (since.Some? ==> since.value <= mid)
    requires NoInitialAfter(l, c, mid, until, offset)
    requires AnchorOf(l, c, Window(since, Some(until), false), calendar, offset) == a
    requires AnchorOf(l, c, Window(since, Some(mid), false), calendar, offset) == a
    requires !a.NoAnchor? ==> EffectiveDay(a.income, offset) <= mid
    ensures NumberOf(RowFor(l, c, Window(since, Some(until), false), calendar, offset), v)
            == NumberOf(RowFor(l, c, Window(since, Some(mid), false), calendar, offset), v)
               + Net(Entries(l, c, Some(mid + 1), Some(until), offset), Each(v))
  {
    var from := ReplayFrom(Window(since, Some(mid), false), a);
    NumberIsCounted(l, c, since, until, calendar, offset, v, a, from);
    NumberIsCounted(l, c, since, mid, calendar, offset, v, a, from);
    CountedSplits(l, c, from, mid, until, a, offset, Each(v));
  }

  /** After the last day with an initial balance a period can be cut anywhere: the anchor stays, and
      the later days add their net, to the balance as to the totals and counts. */
  lemma BalanceSplits(
    l: Ledger, c: string, since: Option<int>, mid: int, until: int, calendar: Calendar, offset: int, v: Measure)
    requires DistinctIds(l.incomes) && mid < until && (since.Some? ==> since.value <= mid)
    requires NoInitialAfter(l, c, mid, until, offset)
    ensures AnchorOf(l, c, Window(since, Some(until), false), calendar, offset)
            == AnchorOf(l, c, Window(since, Some(mid), false), calendar, offset)
    ensures NumberOf(RowFor(l, c, Window(since, Some(until), false), calendar, offset), v)
            == NumberOf(RowFor(l, c, Window(since, Some(mid), false), calendar, offset), v)
               + Net(Entries(l, c, Some(mid + 1), Some(until), offset), Each(v))
  {
    var a := AnchorOf(l, c, Window(since, Some(mid), false), calendar, offset);
    AnchorStays(l, c, since, mid, until, calendar, offset);
    AnchorDay(l, c, Window(since, Some(mid), false), calendar, offset);
    NumberSplits(l, c, since, mid, until, calendar, offset, v, a);
  }

  // ------------------------------------------------------------ there is always an order to replay

  /** Sorting the entries gives the run that `BalanceIsReplay` speaks of. */
  lemma SortArranges(es: seq<Entry>, offset: int)
    ensures Arranged(Sort(es, InOrder(offset)), es, offset)
  {
    Sorts(es, InOrder(offset));
  }

  /** Every row `compute_balance` reports for a period is a replay of that period. */
  lemma ReportIsReplay(
    rows: seq<Row>, l: Ledger, w: Window, calendar: Calendar, offset: int, own: string, i: nat, v: Measure)
    requires IsBalance(rows, l, w, calendar, offset, own) && i < |rows|
    requires ValidWindow(w) && !w.whole && DistinctIds(l.incomes)
    ensures var c := rows[i].currency;
            var from := ReplayFrom(w, AnchorOf(l, c, w, calendar, offset));
            NumberOf(rows[i], v) == Replay(Sort(Entries(l, c, from, w.until, offset), InOrder(offset)), Each(v))
  {
    var c := rows[i].currency;
    var es := Entries(l, c, ReplayFrom(w, AnchorOf(l, c, w, calendar, offset)), w.until, offset);
    SortArranges(es, offset);
    RowIsReplay(l, c, w, calendar, offset, Sort(es, InOrder(offset)), v);
  }
}
