/** `expenses/insights.py`: the month's expenses in the user's currency, grouped by day, by weekday
    and by category, and the expenses that stand out. Amounts are whole cents, days are numbered. */
module Insights {
  import opened Options
  import opened Sorting

  /** The columns of the category query: the user's own, the shared one, and the free text. */
  datatype Category = Category(own: Option<string>, shared: Option<string>, text: Option<string>)

  datatype Expense = Expense(id: nat, spentAt: Option<int>, amount: int, currency: string, category: Category)

  datatype Group<K> = Group(key: K, total: int, count: nat)

  const UNCATEGORISED: string := "Sin categoría"

  predicate Present(t: Option<string>) { t.Some? && t.value != "" }

  /** `_category_name_from_row`. */
  function CategoryName(c: Category): string {
    if Present(c.own) then c.own.value
    else if Present(c.shared) then c.shared.value
    else if Present(c.text) then c.text.value
    else UNCATEGORISED
  }

  function Day(e: Expense): int { if e.spentAt.Some? then e.spentAt.value else 0 }

  /** Day 0 is a Thursday, 1 January 1970. */
  function IsoWeekday(day: int): int { (day + 3) % 7 + 1 }

  /** The filtered query: an expense without a date is in no month. */
  function Month(es: seq<Expense>, currency: string, first: int, last: int): seq<Expense> {
    if es == [] then []
    else
      var e := es[|es| - 1];
      Month(es[..|es| - 1], currency, first, last)
      + if e.spentAt.Some? && first <= e.spentAt.value <= last && e.currency == currency then [e] else []
  }

  function Total(es: seq<Expense>): int {
    if es == [] then 0 else Total(es[..|es| - 1]) + es[|es| - 1].amount
  }

  // ------------------------------------------------------------ grouping

  /** A dictionary in insertion order: add to the entry of `k`, or make one. */
  function Bump<K(==)>(gs: seq<Group<K>>, k: K, total: int, count: nat): seq<Group<K>> {
    if gs == [] then [Group(k, total, count)]
    else if gs[0].key == k then [Group(k, gs[0].total + total, gs[0].count + count)] + gs[1..]
    else [gs[0]] + Bump(gs[1..], k, total, count)
  }

  /** `.values(key).annotate(total=Sum("amount"), count=Count("id"))`. */
  function GroupBy<K(==)>(es: seq<Expense>, key: Expense -> K): seq<Group<K>> {
    if es == [] then []
    else
      var e := es[|es| - 1];
      Bump(GroupBy(es[..|es| - 1], key), key(e), e.amount, 1)
  }

  /** Rows whose keys collapse to the same name, added together. */
  function Regroup<K, J(==)>(rows: seq<Group<K>>, name: K -> J): seq<Group<J>> {
    if rows == [] then []
    else
      var r := rows[|rows| - 1];
      Bump(Regroup(rows[..|rows| - 1], name), name(r.key), r.total, r.count)
  }

  function IndexOf<K(==)>(gs: seq<Group<K>>, k: K): (i: nat)
    ensures i <= |gs|
    ensures i < |gs| ==> gs[i].key == k
    ensures forall j :: 0 <= j < i ==> gs[j].key != k
  {
    if gs == [] || gs[0].key == k then 0 else 1 + IndexOf(gs[1..], k)
  }

  /** The dictionary update of the loops below. */
  lemma {:induction false} BumpInPlace<K>(gs: seq<Group<K>>, k: K, total: int, count: nat)
    ensures var i := IndexOf(gs, k);
            Bump(gs, k, total, count)
            == if i == |gs| then gs + [Group(k, total, count)]
               else gs[i := Group(k, gs[i].total + total, gs[i].count + count)]
  {
    var i := IndexOf(gs, k);
    if gs != [] && gs[0].key == k {
      assert gs == [gs[0]] + gs[1..];
    } else if gs != [] {
      BumpInPlace(gs[1..], k, total, count);
      assert i == 1 + IndexOf(gs[1..], k);
      assert gs == [gs[0]] + gs[1..];
    }
  }

  /** The loop that fills `grouped`. */
  method RegroupByName(rows: seq<Group<Category>>) returns (grouped: seq<Group<string>>)
    ensures grouped == Regroup(rows, CategoryName)
  {
    grouped := [];
    for n := 0 to |rows|
      invariant grouped == Regroup(rows[..n], CategoryName)
    {
      var r, name := rows[n], CategoryName(rows[n].key);
      ghost var before := grouped;
      BumpInPlace(grouped, name, r.total, r.count);
      assert rows[..n + 1][..n] == rows[..n];
      var i := IndexOf(grouped, name);
      if i == |grouped| { grouped := grouped + [Group(name, 0, 0)]; }
      grouped := grouped[i := Group(name, grouped[i].total + r.total, grouped[i].count + r.count)];
      assert grouped == Bump(before, name, r.total, r.count);
    }
    assert rows[..|rows|] == rows;
  }

  /** `sorted(..., key=total, reverse=True)`: stable. */
  predicate LargerTotal<K>(g: Group<K>, h: Group<K>) { g.total >= h.total }

  // ------------------------------------------------------------ growth against the month before

  datatype Growth = Growth(name: string, current: int, previous: int, percent: Option<real>)

  function Lookup<K(==)>(gs: seq<Group<K>>, k: K): int {
    if gs == [] then 0 else if gs[0].key == k then gs[0].total else Lookup(gs[1..], k)
  }

  predicate Reported(g: Group<string>, before: seq<Group<string>>) {
    Lookup(before, g.key) > 0 || g.total > 0
  }

  /** The percentage takes the previous total to the current one; it is absent for a new category. */
  predicate Explains(r: Growth, g: Group<string>, before: seq<Group<string>>) {
    && r.name == g.key && r.current == g.total && r.previous == Lookup(before, g.key)
    && (r.percent.Some? <==> r.previous > 0)
    && (r.percent.Some? ==> r.previous as real * (100.0 + r.percent.value) == 100.0 * r.current as real)
  }

  function Kept(top: seq<Group<string>>, before: seq<Group<string>>): seq<Group<string>> {
    if top == [] then []
    else Kept(top[..|top| - 1], before)
         + if Reported(top[|top| - 1], before) then [top[|top| - 1]] else []
  }

  lemma PercentRestores(previous: real, current: real)
    requires previous > 0.0
    ensures previous * (100.0 + (current - previous) / previous * 100.0) == 100.0 * current
  {
    var ratio := (current - previous) / previous;
    assert ratio * previous == current - previous;
    assert previous * (100.0 + ratio * 100.0) == 100.0 * previous + 100.0 * (ratio * previous);
  }

  method CategoryGrowth(top: seq<Group<string>>, before: seq<Group<string>>) returns (growth: seq<Growth>)
    ensures |growth| == |Kept(top, before)|
    ensures forall i :: 0 <= i < |growth| ==> Explains(growth[i], Kept(top, before)[i], before)
  {
    growth := [];
    for n := 0 to |top|
      invariant |growth| == |Kept(top[..n], before)|
      invariant forall i :: 0 <= i < |growth| ==> Explains(growth[i], Kept(top[..n], before)[i], before)
    {
      var g := top[n];
      assert top[..n + 1][..n] == top[..n];
      var previous := Lookup(before, g.key);
      if previous > 0 {
        PercentRestores(previous as real, g.total as real);
        var percent := (g.total as real - previous as real) / (previous as real) * 100.0;
        growth := growth + [Growth(g.key, g.total, previous, Some(percent))];
      } else if g.total > 0 {
        growth := growth + [Growth(g.key, g.total, previous, None)];
      }
    }
    assert top[..|top|] == top;
  }

  // ------------------------------------------------------------ daily statistics

  function Totals<K>(rows: seq<Group<K>>): (xs: seq<real>)
    ensures |xs| == |rows| && forall i :: 0 <= i < |xs| ==> xs[i] == rows[i].total as real
  {
    seq(|rows|, i requires 0 <= i < |rows| => rows[i].total as real)
  }

  function Sum(xs: seq<real>): real {
    if xs == [] then 0.0 else Sum(xs[..|xs| - 1]) + xs[|xs| - 1]
  }

  function Square(y: real): real { y * y }

  /** The squared distances from `c`, added up. */
  function Spread(xs: seq<real>, c: real): real {
    if xs == [] then 0.0
    else Spread(xs[..|xs| - 1], c) + Square(xs[|xs| - 1] - c)
  }

  function Mean(xs: seq<real>): real { if xs == [] then 0.0 else Sum(xs) / |xs| as real }

  function Variance(xs: seq<real>): real {
    if |xs| > 1 then Spread(xs, Mean(xs)) / |xs| as real else 0.0
  }

  /** `variance ** 0.5`, taken to be exact. */
  ghost predicate IsDeviation(s: real, xs: seq<real>) { s >= 0.0 && s * s == Variance(xs) }

  function Above(es: seq<Expense>, threshold: real): seq<Expense> {
    if es == [] then []
    else Above(es[..|es| - 1], threshold)
         + if es[|es| - 1].amount as real > threshold then [es[|es| - 1]] else []
  }

  predicate LargerAmount(e: Expense, f: Expense) { e.amount >= f.amount }

  /** `.filter(amount__gt=threshold).order_by("-amount")[:5]`, if there is a deviation. */
  function StandOut(es: seq<Expense>, mean: real, deviation: real): seq<Expense> {
    if mean > 0.0 && deviation > 0.0 then
      var found := Sort(Above(es, mean + 2.0 * deviation), LargerAmount);
      if |found| > 5 then found[..5] else found
    else []
  }

  function Anomalies(es: seq<Expense>, deviation: real): seq<Expense> {
    StandOut(es, Mean(Totals(GroupBy(es, Day))), deviation)
  }

  // ------------------------------------------------------------ largest rows

  function WeekdayOf(e: Expense): int { IsoWeekday(Day(e)) }

  function CategoryOf(e: Expense): Category { e.category }

  function NameOf(e: Expense): string { CategoryName(e.category) }

  /** `order_by` of a grouping by day or weekday. */
  predicate EarlierKey(g: Group<int>, h: Group<int>) { g.key <= h.key }

  /** `max(rows, key=total)`: the first of the largest. */
  function FirstMax<K>(rows: seq<Group<K>>): Group<K>
    requires rows != []
  {
    if |rows| == 1 then rows[0]
    else
      var m := FirstMax(rows[..|rows| - 1]);
      if rows[|rows| - 1].total > m.total then rows[|rows| - 1] else m
  }
}
