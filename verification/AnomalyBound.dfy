/** Cantelli's inequality for the expenses that stand out. */
module AnomalyBound {
  import opened Insights
  import opened Sets
  import opened Sorting
  import opened InsightsBounds

  // ------------------------------------------------------------ products, one at a time

  lemma PositiveProduct(a: real, b: real, product: real)
    requires product == a * b && a > 0.0 && b > 0.0
    ensures product > 0.0
  {
  }

  lemma SquareIsNonNegative(y: real)
    ensures Square(y) >= 0.0
  {
    if y > 0.0 { PositiveProduct(y, y, Square(y)); }
    if y < 0.0 { PositiveProduct(-y, -y, Square(y)); }
    if y == 0.0 { assert Square(y) == 0.0 * y; }
  }

  lemma Distribute(w: real, a: real, b: real, wa: real, wb: real, both: real)
    requires wa == w * a && wb == w * b && both == w * (a + b)
    ensures both == wa + wb
  {
  }

  lemma Binomial(y: real, d: real, cross: real)
    requires cross == (2.0 * d) * y
    ensures Square(y + d) == Square(y) + cross + Square(d)
  {
  }

  lemma OneMore(n: real, q: real, m: real)
    requires m == n + 1.0
    ensures n * q + q == m * q
  {
  }

  /** `q`, k times. */
  function Times(k: nat, q: real): real { if k == 0 then 0.0 else Times(k - 1, q) + q }

  lemma {:induction false} TimesIsProduct(k: nat, q: real)
    ensures Times(k, q) == k as real * q
  {
    if k > 0 {
      TimesIsProduct(k - 1, q);
      OneMore((k - 1) as real, q, k as real);
    }
  }

  // ------------------------------------------------------------ the spread about another point

  /** The distances from `m`, added up. */
  function Drift(xs: seq<real>, m: real): real {
    if xs == [] then 0.0 else Drift(xs[..|xs| - 1], m) + (xs[|xs| - 1] - m)
  }

  lemma {:induction false} DriftIsGap(xs: seq<real>, m: real)
    ensures Drift(xs, m) == Sum(xs) - Times(|xs|, m)
  {
    if xs != [] { DriftIsGap(xs[..|xs| - 1], m); }
  }

  /** The cross terms of moving the point by `d`, added up. */
  function Cross(xs: seq<real>, m: real, d: real): real {
    if xs == [] then 0.0 else Cross(xs[..|xs| - 1], m, d) + (2.0 * d) * (xs[|xs| - 1] - m)
  }

  lemma AddOne(w: real, a: real, b: real, both: real)
    requires both == a + b
    ensures w * a + w * b == w * both
  {
  }

  lemma {:induction false} CrossIsDrift(xs: seq<real>, m: real, w: real, d: real)
    requires w == 2.0 * d
    ensures Cross(xs, m, d) == w * Drift(xs, m)
  {
    if xs != [] {
      var front := xs[..|xs| - 1];
      CrossIsDrift(front, m, w, d);
      AddOne(w, Drift(front, m), xs[|xs| - 1] - m, Drift(xs, m));
    }
  }

  /** Moving the point by `d` adds n·d² and the cross terms. */
  lemma {:induction false} SpreadMoves(xs: seq<real>, m: real, d: real)
    ensures Spread(xs, m - d) == Spread(xs, m) + Cross(xs, m, d) + Times(|xs|, Square(d))
  {
    if xs != [] {
      SpreadMoves(xs[..|xs| - 1], m, d);
      MoveOne(xs[|xs| - 1], m, d);
    }
  }

  lemma MoveOne(x: real, m: real, d: real)
    ensures Square(x - (m - d)) == Square(x - m) + (2.0 * d) * (x - m) + Square(d)
  {
    Binomial(x - m, d, (2.0 * d) * (x - m));
    assert x - m + d == x - (m - d);
  }

  function AboveCount(xs: seq<real>, t: real): (k: nat)
    ensures k <= |xs|
  {
    if xs == [] then 0 else AboveCount(xs[..|xs| - 1], t) + if xs[|xs| - 1] > t then 1 else 0
  }

  /** x - c = (x - t) + (t - c), both positive. */
  lemma SquareAbove(x: real, t: real, c: real)
    requires x > t > c
    ensures Square(x - c) > Square(t - c)
  {
    var u, v := x - t, t - c;
    PositiveProduct(u, u, Square(u));
    PositiveProduct(2.0 * u, v, (2.0 * u) * v);
    BiggerSquare(v, u, (2.0 * u) * v);
    assert v + u == x - c;
  }

  lemma BiggerSquare(v: real, u: real, cross: real)
    requires cross == (2.0 * u) * v && u > 0.0 && v > 0.0
    ensures Square(v + u) > Square(v)
  {
    PositiveProduct(u, u, Square(u));
    PositiveProduct(2.0 * u, v, cross);
    Binomial(v, u, cross);
  }

  /** Markov: each value above `t` contributes more than (t - c)². */
  lemma {:induction false} SpreadAbove(xs: seq<real>, t: real, c: real)
    requires t > c
    ensures Spread(xs, c) >= Times(AboveCount(xs, t), Square(t - c))
    ensures AboveCount(xs, t) > 0 ==> Spread(xs, c) > Times(AboveCount(xs, t), Square(t - c))
  {
    if xs != [] {
      var x, front := xs[|xs| - 1], xs[..|xs| - 1];
      SpreadAbove(front, t, c);
      if x > t { SquareAbove(x, t, c); } else { SquareIsNonNegative(x - c); }
    }
  }

  lemma MeanCancels(xs: seq<real>)
    requires xs != []
    ensures Drift(xs, Mean(xs)) == 0.0
  {
    DriftIsGap(xs, Mean(xs));
    ShareTimes(Sum(xs), |xs|, Mean(xs));
  }

  lemma Quotient(a: real, n: real, q: real)
    requires n > 0.0 && q == a / n
    ensures n * q == a
  {
  }

  lemma SpreadOfVariance(xs: seq<real>)
    requires |xs| > 1
    ensures Spread(xs, Mean(xs)) == Times(|xs|, Variance(xs))
  {
    ShareTimes(Spread(xs, Mean(xs)), |xs|, Variance(xs));
  }

  lemma ShareTimes(total: real, n: nat, share: real)
    requires n > 0 && share == total / n as real
    ensures Times(n, share) == total
  {
    TimesIsProduct(n, share);
    Quotient(total, n as real, share);
  }

  /** About the point half a deviation below the mean. */
  lemma SpreadBelowMean(xs: seq<real>, m: real, d: real)
    requires Drift(xs, m) == 0.0
    ensures Spread(xs, m - d) == Spread(xs, m) + Times(|xs|, Square(d))
  {
    SpreadMoves(xs, m, d);
    CrossIsDrift(xs, m, 2.0 * d, d);
    Vanishes(2.0 * d, Drift(xs, m));
  }

  lemma Vanishes(a: real, gap: real)
    requires gap == 0.0
    ensures a * gap == 0.0
  {
  }

  /** n·4q + n·q beats k·25q only if n beats 5k. */
  lemma Compare(n: nat, k: nat, q: real, v: real, each: real)
    requires q > 0.0 && v == 4.0 * q && each == 25.0 * q
    ensures Times(n, v) + Times(n, q) > Times(k, each) ==> 5 * k < n
  {
    TimesFour(n, q, v);
    TimesTwentyFive(k, q, each);
    if n <= 5 * k { TimesGrows(n, 5 * k, q); FiveTimes(k, q); }
  }

  lemma {:induction false} TimesFour(k: nat, q: real, v: real)
    requires v == 4.0 * q
    ensures Times(k, v) == 4.0 * Times(k, q)
  {
    if k > 0 { TimesFour(k - 1, q, v); }
  }

  lemma {:induction false} TimesTwentyFive(k: nat, q: real, v: real)
    requires v == 25.0 * q
    ensures Times(k, v) == 25.0 * Times(k, q)
  {
    if k > 0 { TimesTwentyFive(k - 1, q, v); }
  }

  lemma {:induction false} TimesGrows(n: nat, k: nat, q: real)
    requires n <= k && q > 0.0
    ensures Times(n, q) <= Times(k, q)
    decreases k
  {
    if n < k { TimesGrows(n, k - 1, q); }
  }

  lemma {:induction false} FiveTimes(k: nat, q: real)
    ensures Times(5 * k, q) == 5.0 * Times(k, q)
  {
    if k > 0 {
      FiveTimes(k - 1, q);
      assert Times(5 * k, q) == Times(5 * k - 1, q) + q;
      assert Times(5 * k - 1, q) == Times(5 * k - 2, q) + q;
      assert Times(5 * k - 2, q) == Times(5 * k - 3, q) + q;
      assert Times(5 * k - 3, q) == Times(5 * k - 4, q) + q;
      assert Times(5 * k - 4, q) == Times(5 * k - 5, q) + q;
      assert 5 * k - 5 == 5 * (k - 1);
    }
  }

  /** Fewer than one value in five lies more than two deviations above the mean. */
  lemma Cantelli(xs: seq<real>, s: real)
    requires IsDeviation(s, xs) && s > 0.0
    ensures 5 * AboveCount(xs, Mean(xs) + 2.0 * s) < |xs|
  {
    PositiveProduct(s, s, Variance(xs));
    MeanCancels(xs);
    SpreadOfVariance(xs);
    CantelliAt(xs, Mean(xs), s, Variance(xs), s / 2.0);
  }

  lemma CantelliAt(xs: seq<real>, m: real, s: real, v: real, d: real)
    requires Drift(xs, m) == 0.0 && Spread(xs, m) == Times(|xs|, v)
    requires s > 0.0 && v > 0.0 && v == s * s && d == s / 2.0 && xs != []
    ensures 5 * AboveCount(xs, m + 2.0 * s) < |xs|
  {
    var t, c, k := m + 2.0 * s, m - d, AboveCount(xs, m + 2.0 * s);
    HalfSquared(s, v, d, t - c);
    SpreadBelowMean(xs, m, d);
    SpreadAbove(xs, t, c);
    if k > 0 { Compare(|xs|, k, Square(d), v, Square(t - c)); }
  }

  lemma HalfSquared(s: real, v: real, d: real, gap: real)
    requires v == s * s && v > 0.0 && d == s / 2.0 && gap == 2.0 * s + d
    ensures Square(d) > 0.0 && v == 4.0 * Square(d) && Square(gap) == 25.0 * Square(d)
  {
    assert s == 2.0 * d && gap == 5.0 * d;
  }

  // ------------------------------------------------------------ flagged days

  /** The days with an expense above the threshold. */
  function FlaggedDays(es: seq<Expense>, threshold: real): set<int> {
    set e | e in es && e.amount as real > threshold :: Day(e)
  }

  predicate NonNegative(es: seq<Expense>) { forall e :: e in es ==> e.amount >= 0 }

  lemma {:induction false} PartOfTotal(es: seq<Expense>, e: Expense)
    requires NonNegative(es)
    ensures TotalWhere(es, Day, Day(e)) >= 0
    ensures e in es ==> TotalWhere(es, Day, Day(e)) >= e.amount
  {
    if es != [] {
      assert es == es[..|es| - 1] + [es[|es| - 1]];
      PartOfTotal(es[..|es| - 1], e);
    }
  }

  ghost predicate RowAbove<K>(rows: seq<Group<K>>, d: K, t: real) {
    exists i :: 0 <= i < |rows| && rows[i].key == d && rows[i].total as real > t
  }

  lemma {:induction false} AboveCountCovers<K(!new)>(rows: seq<Group<K>>, days: set<K>, t: real)
    requires forall d :: d in days ==> RowAbove(rows, d, t)
    ensures |days| <= AboveCount(Totals(rows), t)
  {
    if rows == [] {
      Fewer(days, {});
    } else {
      var g, front := rows[|rows| - 1], rows[..|rows| - 1];
      assert Totals(rows)[..|rows| - 1] == Totals(front);
      var rest := if g.total as real > t then days - {g.key} else days;
      forall d | d in rest ensures RowAbove(front, d, t) { EarlierRow(rows, d, t); }
      AboveCountCovers(front, rest, t);
      if g.total as real > t { assert days <= rest + {g.key}; Fewer(days, rest + {g.key}); }
    }
  }

  lemma EarlierRow<K>(rows: seq<Group<K>>, d: K, t: real)
    requires rows != [] && RowAbove(rows, d, t)
    requires rows[|rows| - 1].total as real <= t || rows[|rows| - 1].key != d
    ensures RowAbove(rows[..|rows| - 1], d, t)
  {
    var i :| 0 <= i < |rows| && rows[i].key == d && rows[i].total as real > t;
    assert rows[..|rows| - 1][i] == rows[i];
  }

  lemma FlaggedAreAbove(es: seq<Expense>, t: real)
    requires NonNegative(es)
    ensures |FlaggedDays(es, t)| <= AboveCount(Totals(GroupBy(es, Day)), t)
  {
    var rows := GroupBy(es, Day);
    GroupByPartitions(es, Day);
    forall d | d in FlaggedDays(es, t)
      ensures RowAbove(rows, d, t)
    {
      var e :| e in es && e.amount as real > t && Day(e) == d;
      PartOfTotal(es, e);
      assert HasKey(rows, d);
      var i :| 0 <= i < |rows| && rows[i].key == d;
    }
    AboveCountCovers(rows, FlaggedDays(es, t), t);
  }

  // ------------------------------------------------------------ the list

  lemma {:induction false} AboveIn(es: seq<Expense>, t: real, e: Expense)
    ensures e in Above(es, t) <==> e in es && e.amount as real > t
  {
    if es != [] {
      assert es == es[..|es| - 1] + [es[|es| - 1]];
      AboveIn(es[..|es| - 1], t, e);
    }
  }

  lemma SortedAbove(es: seq<Expense>, t: real, e: Expense)
    ensures Ordered(Sort(Above(es, t), LargerAmount), LargerAmount)
    ensures e in Sort(Above(es, t), LargerAmount) <==> e in es && e.amount as real > t
  {
    Sorts(Above(es, t), LargerAmount);
    AboveIn(es, t, e);
    assert e in Sort(Above(es, t), LargerAmount) <==> e in multiset(Above(es, t));
  }

  /** The first five, if there are more. */
  lemma FirstFive(sorted: seq<Expense>, found: seq<Expense>, x: Expense)
    requires Ordered(sorted, LargerAmount) && found == if |sorted| > 5 then sorted[..5] else sorted
    ensures x in found ==> x in sorted
    ensures x in sorted && x !in found ==> |found| == 5 && forall e :: e in found ==> e.amount >= x.amount
  {
    if x in sorted && x !in found {
      var k :| 0 <= k < |sorted| && sorted[k] == x;
      assert |sorted| > 5 && k >= 5;
    }
  }

  predicate Flagged(es: seq<Expense>, mean: real, s: real, e: Expense) {
    mean > 0.0 && s > 0.0 && e in es && e.amount as real > mean + 2.0 * s
  }

  /** The list holds the five largest expenses above the threshold, if there is one. */
  lemma StandOutIsLargest(es: seq<Expense>, mean: real, s: real, x: Expense)
    ensures var found := StandOut(es, mean, s);
            && (x in found ==> Flagged(es, mean, s, x))
            && (Flagged(es, mean, s, x) && x !in found ==>
                  |found| == 5 && forall e :: e in found ==> e.amount >= x.amount)
  {
    if mean > 0.0 && s > 0.0 {
      var t := mean + 2.0 * s;
      SortedAbove(es, t, x);
      FirstFive(Sort(Above(es, t), LargerAmount), StandOut(es, mean, s), x);
    }
  }

  lemma FewFlaggedDays(es: seq<Expense>, s: real)
    requires NonNegative(es) && IsDeviation(s, Totals(GroupBy(es, Day))) && s > 0.0
    ensures 5 * |FlaggedDays(es, Mean(Totals(GroupBy(es, Day))) + 2.0 * s)| < |GroupBy(es, Day)|
  {
    var xs := Totals(GroupBy(es, Day));
    Cantelli(xs, s);
    FlaggedAreAbove(es, Mean(xs) + 2.0 * s);
  }

  lemma StandOutDays(es: seq<Expense>, mean: real, s: real, n: nat)
    requires s > 0.0 ==> 5 * |FlaggedDays(es, mean + 2.0 * s)| < n
    ensures var found := StandOut(es, mean, s);
            found != [] ==> 5 * |set e | e in found :: Day(e)| < n && n > 5
  {
    var found, flagged := StandOut(es, mean, s), FlaggedDays(es, mean + 2.0 * s);
    if s > 0.0 {
      forall e | e in found ensures Day(e) in flagged { StandOutIsLargest(es, mean, s, e); }
      if found != [] { DaysAreFew(found, flagged, n); }
    }
  }

  /** With no negative expense, the days that stand out are fewer than a fifth of the days with
      expenses; with five days or fewer nothing is reported. */
  lemma FewDaysStandOut(es: seq<Expense>, s: real)
    requires NonNegative(es) && IsDeviation(s, Totals(GroupBy(es, Day)))
    ensures var found := Anomalies(es, s);
            && (found != [] ==> 5 * |set e | e in found :: Day(e)| < |GroupBy(es, Day)|)
            && (|GroupBy(es, Day)| <= 5 ==> found == [])
  {
    if s > 0.0 { FewFlaggedDays(es, s); }
    StandOutDays(es, Mean(Totals(GroupBy(es, Day))), s, |GroupBy(es, Day)|);
  }

  lemma DaysAreFew(found: seq<Expense>, flagged: set<int>, n: nat)
    requires found != [] && 5 * |flagged| < n && forall e :: e in found ==> Day(e) in flagged
    ensures 5 * |set e | e in found :: Day(e)| < n && n > 5
  {
    var days := set e | e in found :: Day(e);
    assert found[0] in found;
    assert Day(found[0]) in days;
    Fewer(days, flagged);
    NotEmpty(days, Day(found[0]));
  }

  lemma NotEmpty<T>(days: set<T>, d: T)
    ensures d in days ==> |days| >= 1
  {
    if d in days { assert |days - {d}| == |days| - 1; }
  }
}
