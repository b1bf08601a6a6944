/** The month's partitions share one total, and few days can stand out. */
module InsightsBounds {
  import opened Insights
  import opened Sorting

  // ------------------------------------------------------------ groups

  function GroupsTotal<K>(gs: seq<Group<K>>): int {
    if gs == [] then 0 else gs[0].total + GroupsTotal(gs[1..])
  }

  function GroupsCount<K>(gs: seq<Group<K>>): nat {
    if gs == [] then 0 else gs[0].count + GroupsCount(gs[1..])
  }

  predicate DistinctKeys<K(==)>(gs: seq<Group<K>>) {
    forall i, j :: 0 <= i < j < |gs| ==> gs[i].key != gs[j].key
  }

  ghost predicate HasKey<K>(gs: seq<Group<K>>, k: K) {
    exists i :: 0 <= i < |gs| && gs[i].key == k
  }

  /** What a list of rows says of the key, all rows of it together. */
  function TotalAt<K, J(==)>(gs: seq<Group<K>>, name: K -> J, k: J): int {
    if gs == [] then 0 else (if name(gs[0].key) == k then gs[0].total else 0) + TotalAt(gs[1..], name, k)
  }

  function CountAt<K, J(==)>(gs: seq<Group<K>>, name: K -> J, k: J): nat {
    if gs == [] then 0 else (if name(gs[0].key) == k then gs[0].count else 0) + CountAt(gs[1..], name, k)
  }

  lemma {:induction false} BumpAdds<K>(gs: seq<Group<K>>, k: K, total: int, count: nat)
    ensures GroupsTotal(Bump(gs, k, total, count)) == GroupsTotal(gs) + total
    ensures GroupsCount(Bump(gs, k, total, count)) == GroupsCount(gs) + count
  {
    if gs != [] && gs[0].key != k { BumpAdds(gs[1..], k, total, count); }
  }

  lemma {:induction false} BumpAddsAt<K, J>(gs: seq<Group<K>>, k: K, total: int, count: nat, name: K -> J, j: J)
    ensures TotalAt(Bump(gs, k, total, count), name, j) == TotalAt(gs, name, j) + if name(k) == j then total else 0
    ensures CountAt(Bump(gs, k, total, count), name, j) == CountAt(gs, name, j) + if name(k) == j then count else 0
  {
    if gs != [] && gs[0].key != k { BumpAddsAt(gs[1..], k, total, count, name, j); }
  }

  lemma {:induction false} BumpKeys<K>(gs: seq<Group<K>>, k: K, total: int, count: nat)
    requires DistinctKeys(gs)
    ensures DistinctKeys(Bump(gs, k, total, count))
    ensures forall j :: HasKey(Bump(gs, k, total, count), j) <==> HasKey(gs, j) || j == k
  {
    BumpInPlace(gs, k, total, count);
    var i, after := IndexOf(gs, k), Bump(gs, k, total, count);
    assert after[i].key == k;
    forall j | HasKey(gs, j) ensures HasKey(after, j) {
      var n :| 0 <= n < |gs| && gs[n].key == j;
      assert after[n].key == j;
    }
    forall j | HasKey(after, j) ensures HasKey(gs, j) || j == k {
      var n :| 0 <= n < |after| && after[n].key == j;
      assert n < |gs| ==> gs[n].key == j;
    }
  }

  // ------------------------------------------------------------ partitions

  function TotalWhere<K(==)>(es: seq<Expense>, f: Expense -> K, k: K): int {
    if es == [] then 0 else TotalWhere(es[..|es| - 1], f, k) + if f(es[|es| - 1]) == k then es[|es| - 1].amount else 0
  }

  function CountWhere<K(==)>(es: seq<Expense>, f: Expense -> K, k: K): nat {
    if es == [] then 0 else CountWhere(es[..|es| - 1], f, k) + if f(es[|es| - 1]) == k then 1 else 0
  }

  /** One row for each value of `f`, with the total and the number of its expenses. */
  ghost predicate Partition<K(!new)>(gs: seq<Group<K>>, es: seq<Expense>, f: Expense -> K) {
    && DistinctKeys(gs)
    && (forall k :: HasKey(gs, k) <==> exists e :: e in es && f(e) == k)
    && (forall i :: 0 <= i < |gs| ==>
          gs[i].total == TotalWhere(es, f, gs[i].key) && gs[i].count == CountWhere(es, f, gs[i].key))
  }

  function Same<K>(k: K): K { k }

  lemma {:induction false} MissingAt<K>(gs: seq<Group<K>>, k: K)
    requires forall i :: 0 <= i < |gs| ==> gs[i].key != k
    ensures TotalAt(gs, Same, k) == 0 && CountAt(gs, Same, k) == 0
  {
    if gs != [] { MissingAt(gs[1..], k); }
  }

  lemma {:induction false} RowAt<K>(gs: seq<Group<K>>, i: nat)
    requires DistinctKeys(gs) && i < |gs|
    ensures TotalAt(gs, Same, gs[i].key) == gs[i].total && CountAt(gs, Same, gs[i].key) == gs[i].count
  {
    if i == 0 { MissingAt(gs[1..], gs[0].key); } else { RowAt(gs[1..], i - 1); }
  }

  lemma {:induction false} GroupByAt<K, J(!new)>(es: seq<Expense>, key: Expense -> K, name: K -> J, f: Expense -> J, j: J)
    requires forall e: Expense :: f(e) == name(key(e))
    ensures TotalAt(GroupBy(es, key), name, j) == TotalWhere(es, f, j)
    ensures CountAt(GroupBy(es, key), name, j) == CountWhere(es, f, j)
  {
    if es != [] {
      var e := es[|es| - 1];
      GroupByAt(es[..|es| - 1], key, name, f, j);
      BumpAddsAt(GroupBy(es[..|es| - 1], key), key(e), e.amount, 1, name, j);
    }
  }

  lemma {:induction false} AtAppend<K, J>(gs: seq<Group<K>>, g: Group<K>, name: K -> J, j: J)
    ensures TotalAt(gs + [g], name, j) == TotalAt(gs, name, j) + if name(g.key) == j then g.total else 0
    ensures CountAt(gs + [g], name, j) == CountAt(gs, name, j) + if name(g.key) == j then g.count else 0
  {
    if gs != [] {
      AtAppend(gs[1..], g, name, j);
      assert (gs + [g])[1..] == gs[1..] + [g];
    }
  }

  lemma {:induction false} RegroupAt<K, J>(rows: seq<Group<K>>, name: K -> J, j: J)
    ensures TotalAt(Regroup(rows, name), Same, j) == TotalAt(rows, name, j)
    ensures CountAt(Regroup(rows, name), Same, j) == CountAt(rows, name, j)
  {
    if rows != [] {
      var r, front := rows[|rows| - 1], rows[..|rows| - 1];
      assert rows == front + [r];
      AtAppend(front, r, name, j);
      RegroupAt(front, name, j);
      BumpAddsAt(Regroup(front, name), name(r.key), r.total, r.count, Same, j);
    }
  }

  lemma {:induction false} GroupByKeys<K(!new)>(es: seq<Expense>, key: Expense -> K)
    ensures DistinctKeys(GroupBy(es, key))
    ensures forall k :: HasKey(GroupBy(es, key), k) <==> exists e :: e in es && key(e) == k
  {
    if es != [] {
      var e, front := es[|es| - 1], es[..|es| - 1];
      assert es == front + [e];
      GroupByKeys(front, key);
      BumpKeys(GroupBy(front, key), key(e), e.amount, 1);
    }
  }

  lemma {:induction false} RegroupKeys<K, J(!new)>(rows: seq<Group<K>>, name: K -> J)
    ensures DistinctKeys(Regroup(rows, name))
    ensures forall j :: HasKey(Regroup(rows, name), j) <==> exists r :: r in rows && name(r.key) == j
  {
    if rows != [] {
      var r, front := rows[|rows| - 1], rows[..|rows| - 1];
      assert rows == front + [r];
      RegroupKeys(front, name);
      BumpKeys(Regroup(front, name), name(r.key), r.total, r.count);
    }
  }

  /** The grouping query. */
  lemma GroupByPartitions<K(!new)>(es: seq<Expense>, key: Expense -> K)
    ensures Partition(GroupBy(es, key), es, key)
  {
    var gs := GroupBy(es, key);
    GroupByKeys(es, key);
    forall i | 0 <= i < |gs|
      ensures gs[i].total == TotalWhere(es, key, gs[i].key) && gs[i].count == CountWhere(es, key, gs[i].key)
    {
      RowAt(gs, i);
      GroupByAt(es, key, Same, key, gs[i].key);
    }
  }

  /** Grouping by a fine key and collapsing its names is grouping by the name. */
  lemma RegroupPartitions<K(!new), J(!new)>(es: seq<Expense>, key: Expense -> K, name: K -> J, f: Expense -> J)
    requires forall e: Expense :: f(e) == name(key(e))
    ensures Partition(Regroup(GroupBy(es, key), name), es, f)
  {
    var rows := GroupBy(es, key);
    var gs := Regroup(rows, name);
    GroupByKeys(es, key);
    RegroupKeys(rows, name);
    forall j ensures HasKey(gs, j) <==> exists e :: e in es && f(e) == j { NamesOccur(es, key, name, f, j); }
    forall i | 0 <= i < |gs|
      ensures gs[i].total == TotalWhere(es, f, gs[i].key) && gs[i].count == CountWhere(es, f, gs[i].key)
    {
      RowAt(gs, i);
      RegroupAt(rows, name, gs[i].key);
      GroupByAt(es, key, name, f, gs[i].key);
    }
  }

  lemma NamesOccur<K(!new), J(!new)>(es: seq<Expense>, key: Expense -> K, name: K -> J, f: Expense -> J, j: J)
    requires forall e: Expense :: f(e) == name(key(e))
    ensures (exists r :: r in GroupBy(es, key) && name(r.key) == j) <==> exists e :: e in es && f(e) == j
  {
    var rows := GroupBy(es, key);
    GroupByKeys(es, key);
    if r :| r in rows && name(r.key) == j {
      assert HasKey(rows, r.key);
      var e :| e in es && key(e) == r.key;
      assert f(e) == j;
    }
    if e :| e in es && f(e) == j {
      assert HasKey(rows, key(e));
      var i :| 0 <= i < |rows| && rows[i].key == key(e);
      assert rows[i] in rows;
    }
  }

  // ------------------------------------------------------------ one total

  lemma {:induction false} GroupByAdds<K>(es: seq<Expense>, key: Expense -> K)
    ensures GroupsTotal(GroupBy(es, key)) == Total(es) && GroupsCount(GroupBy(es, key)) == |es|
  {
    if es != [] {
      var e := es[|es| - 1];
      GroupByAdds(es[..|es| - 1], key);
      BumpAdds(GroupBy(es[..|es| - 1], key), key(e), e.amount, 1);
    }
  }

  lemma {:induction false} SumAppend<K>(gs: seq<Group<K>>, g: Group<K>)
    ensures GroupsTotal(gs + [g]) == GroupsTotal(gs) + g.total && GroupsCount(gs + [g]) == GroupsCount(gs) + g.count
  {
    if gs != [] {
      SumAppend(gs[1..], g);
      assert (gs + [g])[1..] == gs[1..] + [g];
    }
  }

  lemma {:induction false} RegroupAdds<K, J>(rows: seq<Group<K>>, name: K -> J)
    ensures GroupsTotal(Regroup(rows, name)) == GroupsTotal(rows)
    ensures GroupsCount(Regroup(rows, name)) == GroupsCount(rows)
  {
    if rows != [] {
      var r, front := rows[|rows| - 1], rows[..|rows| - 1];
      assert rows == front + [r];
      SumAppend(front, r);
      RegroupAdds(front, name);
      BumpAdds(Regroup(front, name), name(r.key), r.total, r.count);
    }
  }

  lemma {:induction false} InsertAdds<K>(g: Group<K>, gs: seq<Group<K>>, leq: (Group<K>, Group<K>) -> bool)
    ensures GroupsTotal(Insert(g, gs, leq)) == GroupsTotal(gs) + g.total
    ensures GroupsCount(Insert(g, gs, leq)) == GroupsCount(gs) + g.count
  {
    if gs == [] || leq(gs[|gs| - 1], g) {
      SumAppend(gs, g);
    } else {
      var front, last := gs[..|gs| - 1], gs[|gs| - 1];
      assert gs == front + [last];
      InsertAdds(g, front, leq);
      SumAppend(front, last);
      SumAppend(Insert(g, front, leq), last);
    }
  }

  lemma {:induction false} SortAdds<K>(gs: seq<Group<K>>, leq: (Group<K>, Group<K>) -> bool)
    ensures GroupsTotal(Sort(gs, leq)) == GroupsTotal(gs) && GroupsCount(Sort(gs, leq)) == GroupsCount(gs)
  {
    if gs != [] {
      var front, last := gs[..|gs| - 1], gs[|gs| - 1];
      assert gs == front + [last];
      SortAdds(front, leq);
      InsertAdds(last, Sort(front, leq), leq);
      SumAppend(front, last);
    }
  }

  // ------------------------------------------------------------ rows in another order

  lemma KeyPermutes<K(!new)>(hs: seq<Group<K>>, gs: seq<Group<K>>, k: K)
    requires multiset(hs) == multiset(gs)
    ensures HasKey(hs, k) ==> HasKey(gs, k)
  {
    if HasKey(hs, k) {
      var i :| 0 <= i < |hs| && hs[i].key == k;
      assert hs[i] in multiset(gs);
      var j :| 0 <= j < |gs| && gs[j] == hs[i];
    }
  }

  lemma DistinctKeysPermute<K>(hs: seq<Group<K>>, gs: seq<Group<K>>)
    requires multiset(hs) == multiset(gs) && DistinctKeys(gs)
    ensures DistinctKeys(hs)
  {
    DistinctPermutes(hs, gs);
    forall i, j | 0 <= i < j < |hs| ensures hs[i].key != hs[j].key {
      assert hs[i] != hs[j] && hs[i] in multiset(gs) && hs[j] in multiset(gs);
      var m :| 0 <= m < |gs| && gs[m] == hs[i];
      var n :| 0 <= n < |gs| && gs[n] == hs[j];
    }
  }

  /** A partition is one in any order. */
  lemma PartitionPermutes<K(!new)>(hs: seq<Group<K>>, gs: seq<Group<K>>, es: seq<Expense>, f: Expense -> K)
    requires multiset(hs) == multiset(gs) && Partition(gs, es, f)
    ensures Partition(hs, es, f)
  {
    DistinctKeysPermute(hs, gs);
    forall k ensures HasKey(hs, k) <==> HasKey(gs, k) {
      KeyPermutes(hs, gs, k);
      KeyPermutes(gs, hs, k);
    }
    forall i | 0 <= i < |hs|
      ensures hs[i].total == TotalWhere(es, f, hs[i].key) && hs[i].count == CountWhere(es, f, hs[i].key)
    {
      assert hs[i] in multiset(gs);
      var j :| 0 <= j < |gs| && gs[j] == hs[i];
    }
  }

  ghost predicate FirstOfLargest<K>(rows: seq<Group<K>>, i: nat) {
    && i < |rows|
    && (forall j :: 0 <= j < |rows| ==> rows[j].total <= rows[i].total)
    && (forall j :: 0 <= j < i ==> rows[j].total < rows[i].total)
  }

  lemma {:induction false} FirstMaxIs<K>(rows: seq<Group<K>>) returns (i: nat)
    requires rows != []
    ensures FirstOfLargest(rows, i) && rows[i] == FirstMax(rows)
  {
    i := |rows| - 1;
    if |rows| > 1 {
      var front := rows[..|rows| - 1];
      var best := FirstMaxIs(front);
      forall j | 0 <= j < |front| ensures rows[j].total <= front[best].total { assert front[j] == rows[j]; }
      if rows[i].total <= front[best].total {
        i := best;
        forall j | 0 <= j < i ensures rows[j].total < rows[i].total { assert front[j] == rows[j]; }
      }
    }
  }

  // ------------------------------------------------------------ the month

  /** Three ways to cut the month, one total; each list is the partition by its key, in its order. */
  lemma ThreePartitions(es: seq<Expense>)
    ensures var daily, weekdays := Sort(GroupBy(es, Day), EarlierKey), Sort(GroupBy(es, WeekdayOf), EarlierKey);
            var top := Sort(Regroup(GroupBy(es, CategoryOf), CategoryName), LargerTotal);
            && Partition(daily, es, Day) && Partition(weekdays, es, WeekdayOf) && Partition(top, es, NameOf)
            && Ordered(daily, EarlierKey) && Ordered(weekdays, EarlierKey) && Ordered(top, LargerTotal)
            && GroupsTotal(daily) == Total(es) && GroupsTotal(weekdays) == Total(es) && GroupsTotal(top) == Total(es)
            && GroupsCount(weekdays) == |es| && GroupsCount(top) == |es|
  {
    ByKey(es, Day);
    ByKey(es, WeekdayOf);
    ByName(es);
  }

  lemma ByKey(es: seq<Expense>, key: Expense -> int)
    ensures var rows := Sort(GroupBy(es, key), EarlierKey);
            && Partition(rows, es, key) && Ordered(rows, EarlierKey) && |rows| == |GroupBy(es, key)|
            && GroupsTotal(rows) == Total(es) && GroupsCount(rows) == |es|
  {
    var gs := GroupBy(es, key);
    GroupByPartitions(es, key);
    Sorts(gs, EarlierKey);
    SortAdds(gs, EarlierKey);
    GroupByAdds(es, key);
    PartitionPermutes(Sort(gs, EarlierKey), gs, es, key);
    assert |multiset(Sort(gs, EarlierKey))| == |multiset(gs)|;
  }

  /** The largest category first. */
  lemma ByName(es: seq<Expense>)
    ensures var top := Sort(Regroup(GroupBy(es, CategoryOf), CategoryName), LargerTotal);
            && Partition(top, es, NameOf) && Ordered(top, LargerTotal)
            && GroupsTotal(top) == Total(es) && GroupsCount(top) == |es|
  {
    var grouped := Regroup(GroupBy(es, CategoryOf), CategoryName);
    RegroupPartitions(es, CategoryOf, CategoryName, NameOf);
    Sorts(grouped, LargerTotal);
    SortAdds(grouped, LargerTotal);
    GroupByAdds(es, CategoryOf);
    RegroupAdds(GroupBy(es, CategoryOf), CategoryName);
    PartitionPermutes(Sort(grouped, LargerTotal), grouped, es, NameOf);
  }

  /** The rows of a weekday are the days that fall on it: collapsing the daily rows gives the
      partition by weekday. */
  lemma DaysMakeWeekdays(es: seq<Expense>)
    ensures Partition(Regroup(GroupBy(es, Day), IsoWeekday), es, WeekdayOf)
  {
    RegroupPartitions(es, Day, IsoWeekday, WeekdayOf);
  }
}
