/** `compute_monthly_insights` as a whole: what the report of a month promises. */
module InsightsReport {
  import opened Options
  import opened Sorting
  import opened Insights
  import opened InsightsBounds
  import opened AnomalyBound

  datatype Period = Period(first: int, last: int)

  /** `incomes` are the income rows, which have the same columns. */
  datatype Books = Books(expenses: seq<Expense>, incomes: seq<Expense>)

  datatype Report = Report(
    expenses: int, incomes: int, daily: seq<Group<int>>, maxDay: Option<Group<int>>, weekdays: seq<Group<int>>,
    peak: Option<Group<int>>, top: seq<Group<string>>, growth: seq<Growth>, anomalies: seq<Expense>,
    sources: seq<Group<string>>)

  /** The month's rows: those dated in it, in the user's currency. */
  lemma {:induction false} MonthIs(es: seq<Expense>, currency: string, first: int, last: int, e: Expense)
    ensures e in Month(es, currency, first, last) <==>
              e in es && e.spentAt.Some? && first <= e.spentAt.value <= last && e.currency == currency
  {
    if es != [] {
      assert es == es[..|es| - 1] + [es[|es| - 1]];
      MonthIs(es[..|es| - 1], currency, first, last, e);
    }
  }

  /** The rows by `f`, in order, adding up to the total and the number of the expenses. */
  ghost predicate ByTime(rows: seq<Group<int>>, es: seq<Expense>, f: Expense -> int) {
    && Partition(rows, es, f) && (forall i, j :: 0 <= i < j < |rows| ==> rows[i].key < rows[j].key)
    && GroupsTotal(rows) == Total(es) && GroupsCount(rows) == |es|
  }

  ghost predicate ByCategory(rows: seq<Group<string>>, es: seq<Expense>) {
    && Partition(rows, es, NameOf) && (forall i, j :: 0 <= i < j < |rows| ==> rows[i].total >= rows[j].total)
    && GroupsTotal(rows) == Total(es) && GroupsCount(rows) == |es|
  }

  /** The earliest of the largest rows, if there are rows. */
  ghost predicate IsPeak(peak: Option<Group<int>>, rows: seq<Group<int>>) {
    && (peak.None? <==> rows == [])
    && (peak.Some? ==>
          && peak.value in rows
          && forall g :: g in rows ==>
               g.total <= peak.value.total && (g.total == peak.value.total ==> peak.value.key <= g.key))
  }

  /** One entry for each category to report, in the order of `top`, against the month before. */
  ghost predicate IsGrowth(growth: seq<Growth>, top: seq<Group<string>>, before: seq<Expense>) {
    exists prev ::
      && Partition(prev, before, NameOf) && |growth| == |Kept(top, prev)|
      && forall i :: 0 <= i < |growth| ==> Explains(growth[i], Kept(top, prev)[i], prev)
  }

  /** Which categories of the month get an entry: those with spending now or the month before. */
  lemma {:induction false} KeptIff(top: seq<Group<string>>, before: seq<Group<string>>, g: Group<string>)
    ensures g in Kept(top, before) <==> g in top && (g.total > 0 || Lookup(before, g.key) > 0)
  {
    if top != [] {
      KeptIff(top[..|top| - 1], before, g);
      assert top == top[..|top| - 1] + [top[|top| - 1]];
    }
  }

  /** What the month before holds for a name is its total there. */
  lemma {:induction false} LookupIs(rows: seq<Group<string>>, name: string)
    ensures (forall i :: 0 <= i < |rows| && rows[i].key == name && (forall j :: 0 <= j < i ==> rows[j].key != name) ==>
               Lookup(rows, name) == rows[i].total)
    ensures (forall i :: 0 <= i < |rows| ==> rows[i].key != name) ==> Lookup(rows, name) == 0
  {
    if rows != [] && rows[0].key != name {
      LookupIs(rows[1..], name);
      forall i | 0 <= i < |rows| && rows[i].key == name && (forall j :: 0 <= j < i ==> rows[j].key != name)
        ensures Lookup(rows, name) == rows[i].total
      {
        assert rows[1..][i - 1] == rows[i];
      }
    }
  }

  /** The first name that is there: the user's own category, the shared one, the free text. */
  lemma NameIff(own: Option<string>, shared: Option<string>, text: Option<string>)
    ensures var name := CategoryName(Category(own, shared, text));
            && (own.Some? && own.value != "" ==> name == own.value)
            && ((own.None? || own.value == "") && shared.Some? && shared.value != "" ==> name == shared.value)
            && ((own.None? || own.value == "") && (shared.None? || shared.value == "") ==>
                  name == if text.Some? && text.value != "" then text.value else "Sin categoría")
  {
  }

  /** Weekdays are numbered from Monday; 1 January 1970, day 0, was a Thursday. */
  lemma WeekdayIs(day: int)
    ensures IsoWeekday(0) == 4 && 1 <= IsoWeekday(day) <= 7
    ensures IsoWeekday(day + 1) == if IsoWeekday(day) == 7 then 1 else IsoWeekday(day) + 1
  {
  }

  /** More than two deviations above the mean of the days, in a month with a deviation. */
  predicate StandsOut(e: Expense, es: seq<Expense>, deviation: real) {
    Flagged(es, Mean(Totals(GroupBy(es, Day))), deviation, e)
  }

  /** The expenses of the month that stand out: all of them, or the five largest; on few days, if none is
      negative. */
  ghost predicate AreAnomalies(found: seq<Expense>, es: seq<Expense>, days: nat, deviation: real) {
    && (forall e :: e in found ==> StandsOut(e, es, deviation))
    && (forall e :: StandsOut(e, es, deviation) && e !in found ==>
          |found| == 5 && forall f :: f in found ==> f.amount >= e.amount)
    && |found| <= 5 && (forall i, j :: 0 <= i < j < |found| ==> found[i].amount >= found[j].amount)
    && (NonNegative(es) && IsDeviation(deviation, Totals(GroupBy(es, Day))) ==>
          && (found != [] ==> 5 * |set e | e in found :: Day(e)| < days)
          && (days <= 5 ==> found == []))
  }

  method PeakOf(rows: seq<Group<int>>) returns (peak: Option<Group<int>>)
    requires Ordered(rows, EarlierKey)
    ensures IsPeak(peak, rows)
  {
    if rows == [] { return None; }
    ghost var i := FirstMaxIs(rows);
    forall g | g in rows && g.total == rows[i].total ensures rows[i].key <= g.key {
      var j :| 0 <= j < |rows| && rows[j] == g;
      assert i < j ==> EarlierKey(rows[i], rows[j]);
    }
    peak := Some(FirstMax(rows));
  }

  method ByNameDescending(es: seq<Expense>) returns (top: seq<Group<string>>)
    ensures ByCategory(top, es)
  {
    var grouped := RegroupByName(GroupBy(es, CategoryOf));
    ByName(es);
    top := Sort(grouped, LargerTotal);
  }

  method GrowthOf(top: seq<Group<string>>, before: seq<Expense>) returns (growth: seq<Growth>)
    ensures IsGrowth(growth, top, before)
  {
    var prev := RegroupByName(GroupBy(before, CategoryOf));
    RegroupPartitions(before, CategoryOf, CategoryName, NameOf);
    growth := CategoryGrowth(top, prev);
  }

  lemma StandOutInOrder(es: seq<Expense>, mean: real, deviation: real)
    ensures |StandOut(es, mean, deviation)| <= 5 && Ordered(StandOut(es, mean, deviation), LargerAmount)
  {
    if mean > 0.0 && deviation > 0.0 { Sorts(Above(es, mean + 2.0 * deviation), LargerAmount); }
  }

  lemma AnomaliesAre(es: seq<Expense>, deviation: real)
    ensures AreAnomalies(Anomalies(es, deviation), es, |GroupBy(es, Day)|, deviation)
  {
    var mean := Mean(Totals(GroupBy(es, Day)));
    StandOutInOrder(es, mean, deviation);
    forall e ensures Flagged(es, mean, deviation, e) || e !in StandOut(es, mean, deviation) {
      StandOutIsLargest(es, mean, deviation, e);
    }
    forall e | StandsOut(e, es, deviation) && e !in Anomalies(es, deviation)
      ensures |Anomalies(es, deviation)| == 5 && forall f :: f in Anomalies(es, deviation) ==> f.amount >= e.amount
    {
      StandOutIsLargest(es, mean, deviation, e);
    }
    if NonNegative(es) && IsDeviation(deviation, Totals(GroupBy(es, Day))) { FewDaysStandOut(es, deviation); }
  }

  /** The report of a month: its lists are partitions of the month's expenses, with one total. */
  method MonthlyInsights(books: Books, currency: string, month: Period, before: Period, deviation: real)
    returns (r: Report)
    ensures var es := Month(books.expenses, currency, month.first, month.last);
            && r.expenses == Total(es) && ByTime(r.daily, es, Day) && ByTime(r.weekdays, es, WeekdayOf)
            && IsPeak(r.maxDay, r.daily) && IsPeak(r.peak, r.weekdays) && ByCategory(r.top, es)
            && AreAnomalies(r.anomalies, es, |r.daily|, deviation)
            && IsGrowth(r.growth, r.top, Month(books.expenses, currency, before.first, before.last))
    ensures var earned := Month(books.incomes, currency, month.first, month.last);
            r.incomes == Total(earned) && ByCategory(r.sources, earned)
  {
    var es := Month(books.expenses, currency, month.first, month.last);
    var incomes := Month(books.incomes, currency, month.first, month.last);
    ByKey(es, Day);
    ByKey(es, WeekdayOf);
    var daily, weekdays := Sort(GroupBy(es, Day), EarlierKey), Sort(GroupBy(es, WeekdayOf), EarlierKey);
    var maxDay := PeakOf(daily);
    var peak := PeakOf(weekdays);
    var top := ByNameDescending(es);
    var growth := GrowthOf(top, Month(books.expenses, currency, before.first, before.last));
    AnomaliesAre(es, deviation);
    var sources := ByNameDescending(incomes);
    r := Report(Total(es), Total(incomes), daily, maxDay, weekdays, peak, top, growth, Anomalies(es, deviation), sources);
  }
}
