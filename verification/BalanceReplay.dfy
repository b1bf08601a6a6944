/** The reported balance is what replaying the movements one by one gives, when an initial balance
    sets the running total. */
module BalanceReplay {
  import opened Options
  import opened Sorting
  import opened Balance

  // ------------------------------------------------------------ the replay

  datatype Entry = Entry(m: Movement, income: bool)

  predicate Resets(e: Entry) { e.income && IsInitial(e.m) }

  /** Order of events: by effective day, then by when it was recorded; an initial balance comes after
      the rest of its instant, and of two the one with the higher id. */
  predicate Leq(e: Entry, f: Entry, offset: int) {
    var x, y := EffectiveDay(e.m, offset), EffectiveDay(f.m, offset);
    x < y || (x == y && (e.m.createdAt < f.m.createdAt ||
      (e.m.createdAt == f.m.createdAt &&
        (if Resets(e) then Resets(f) && e.m.id <= f.m.id else true))))
  }

  /** The order of events in a zone. */
  function InOrder(offset: int): (Entry, Entry) -> bool {
    (e: Entry, f: Entry) => Leq(e, f, offset)
  }

  predicate Sorted(s: seq<Entry>, offset: int) {
    Ordered(s, InOrder(offset))
  }

  // What a row reports of a movement: each of its five numbers is the sum of one of these.

  function Signed(e: Entry): int { if e.income then e.m.amount else -e.m.amount }

  function IncomeAmount(e: Entry): int { if e.income then e.m.amount else 0 }

  function IncomeOne(e: Entry): int { if e.income then 1 else 0 }

  function ExpenseAmount(e: Entry): int { if e.income then 0 else e.m.amount }

  function ExpenseOne(e: Entry): int { if e.income then 0 else 1 }

  /** The running sum of `v` after every movement. */
  function Replay(s: seq<Entry>, v: Entry -> int): int {
    if s == [] then 0
    else
      var e := s[|s| - 1];
      if Resets(e) then v(e) else Replay(s[..|s| - 1], v) + v(e)
  }

  /** The same without resets. */
  function Net(s: seq<Entry>, v: Entry -> int): int {
    if s == [] then 0 else Net(s[..|s| - 1], v) + v(s[|s| - 1])
  }

  function Wrap(ms: seq<Movement>, income: bool): (s: seq<Entry>)
    ensures |s| == |ms| && forall i :: 0 <= i < |s| ==> s[i] == Entry(ms[i], income)
  {
    seq(|ms|, i requires 0 <= i < |ms| => Entry(ms[i], income))
  }

  function Dated(c: string, lo: Option<int>, hi: Option<int>, offset: int): Movement -> bool {
    (m: Movement) => m.currency == c && Within(EffectiveDay(m, offset), lo, hi)
  }

  /** The movements of a currency whose effective day lies in [lo, hi], in table order. */
  function Entries(l: Ledger, c: string, lo: Option<int>, hi: Option<int>, offset: int): seq<Entry> {
    Wrap(Filter(l.incomes, Dated(c, lo, hi, offset)), true) + Wrap(Filter(l.expenses, Dated(c, lo, hi, offset)), false)
  }

  /** `s` are the entries of `es` in the order they happened. */
  ghost predicate Arranged(s: seq<Entry>, es: seq<Entry>, offset: int) {
    Sorted(s, offset) && multiset(s) == multiset(es)
  }

  /** The days the replay covers: two more when only they hold an initial balance. */
  function ReplayFrom(w: Window, a: Anchor): Option<int> {
    if a.Carried? && w.since.Some? then Some(w.since.value - CARRY_OVER_DAYS) else w.since
  }

  // ------------------------------------------------------------ queries and effective days

  lemma PeriodIsEffective(m: Movement, lo: Option<int>, hi: Option<int>, offset: int)
    ensures InPeriod(m, lo, hi, offset) <==> Within(EffectiveDay(m, offset), lo, hi)
  {
  }

  lemma AfterIsEffective(m: Movement, anchor: Movement, offset: int)
    ensures AfterAnchor(m, anchor, offset) <==>
              var x, y := EffectiveDay(anchor, offset), EffectiveDay(m, offset);
              x < y || (x == y && anchor.createdAt < m.createdAt)
  {
  }

  // ------------------------------------------------------------ sums over entries

  predicate Counts(e: Entry, a: Anchor, offset: int) {
    if e.income then CountsIncome(e.m, a, offset) else CountsExpense(e.m, a, offset)
  }

  function Weight(e: Entry, a: Anchor, offset: int, v: Entry -> int): int {
    if Counts(e, a, offset) then v(e) else 0
  }

  function Counted(s: seq<Entry>, a: Anchor, offset: int, v: Entry -> int): int {
    if s == [] then 0 else Counted(s[..|s| - 1], a, offset, v) + Weight(s[|s| - 1], a, offset, v)
  }

  lemma {:induction false} CountedConcat(s: seq<Entry>, t: seq<Entry>, a: Anchor, offset: int, v: Entry -> int)
    ensures Counted(s + t, a, offset, v) == Counted(s, a, offset, v) + Counted(t, a, offset, v)
    decreases |t|
  {
    if t == [] {
      assert s + t == s;
    } else {
      CountedConcat(s, t[..|t| - 1], a, offset, v);
      assert (s + t)[..|s + t| - 1] == s + t[..|t| - 1];
    }
  }

  lemma CountedWithoutOne(t: seq<Entry>, i: nat, a: Anchor, offset: int, v: Entry -> int)
    requires i < |t|
    ensures Counted(t, a, offset, v) == Counted(t[..i] + t[i + 1..], a, offset, v) + Weight(t[i], a, offset, v)
  {
    var head := t[..i] + [t[i]];
    assert t == head + t[i + 1..];
    CountedConcat(head, t[i + 1..], a, offset, v);
    assert head[..|head| - 1] == t[..i];
    CountedConcat(t[..i], t[i + 1..], a, offset, v);
  }

  lemma PlaceOf(t: seq<Entry>, e: Entry) returns (i: nat, rest: seq<Entry>)
    requires e in multiset(t)
    ensures i < |t| && t[i] == e && rest == t[..i] + t[i + 1..]
    ensures multiset(rest) == multiset(t) - multiset{e}
  {
    i :| 0 <= i < |t| && t[i] == e;
    rest := t[..i] + t[i + 1..];
    WithoutOne(t, i);
  }

  lemma WithoutLast(s: seq<Entry>)
    requires s != []
    ensures multiset(s[..|s| - 1]) == multiset(s) - multiset{s[|s| - 1]} && s[|s| - 1] in multiset(s)
  {
    assert s == s[..|s| - 1] + [s[|s| - 1]];
  }

  /** A sum does not depend on the order. */
  lemma {:induction false} CountedPermutes(s: seq<Entry>, t: seq<Entry>, a: Anchor, offset: int, v: Entry -> int)
    requires multiset(s) == multiset(t)
    ensures Counted(s, a, offset, v) == Counted(t, a, offset, v)
    decreases |s|
  {
    if s == [] {
      assert |multiset(t)| == 0 && t == [];
    } else {
      WithoutLast(s);
      var i, rest := PlaceOf(t, s[|s| - 1]);
      CountedPermutes(s[..|s| - 1], rest, a, offset, v);
      CountedWithoutOne(t, i, a, offset, v);
    }
  }

  lemma {:induction false} CountedZero(s: seq<Entry>, a: Anchor, offset: int, v: Entry -> int)
    requires forall e :: e in s ==> Weight(e, a, offset, v) == 0
    ensures Counted(s, a, offset, v) == 0
  {
    if s != [] { CountedZero(s[..|s| - 1], a, offset, v); }
  }

  // ------------------------------------------------------------ replaying a sorted run

  predicate DistinctIncomes(s: seq<Entry>) {
    forall i, j :: 0 <= i < j < |s| && s[i].income && s[j].income ==> s[i].m.id != s[j].m.id
  }

  /** The anchor is one of the entries, and no other initial balance comes after it. */
  ghost predicate AnchorsRun(s: seq<Entry>, a: Anchor, offset: int) {
    if a.NoAnchor? then forall e :: e in s ==> !Resets(e)
    else
      && Resets(Entry(a.income, true)) && Entry(a.income, true) in s
      && forall e :: e in s && Resets(e) ==> Leq(e, Entry(a.income, true), offset)
  }

  /** The heart: folding a sorted run gives the anchor and what comes after it. */
  lemma {:induction false} ReplayCounts(s: seq<Entry>, a: Anchor, offset: int, v: Entry -> int)
    requires Sorted(s, offset) && DistinctIncomes(s) && AnchorsRun(s, a, offset)
    ensures Replay(s, v) == Counted(s, a, offset, v)
  {
    if s != [] {
      var e, front := s[|s| - 1], s[..|s| - 1];
      if Resets(e) {
        LastReset(s, a, offset, v);
      } else {
        NotReset(s, a, offset, v);
        ReplayCounts(front, a, offset, v);
      }
    }
  }

  lemma EarlierReset(s: seq<Entry>, i: nat, offset: int)
    requires Sorted(s, offset) && DistinctIncomes(s) && i < |s| && Resets(s[i]) && Resets(s[|s| - 1])
    ensures Leq(s[|s| - 1], s[i], offset) ==> i == |s| - 1
  {
    assert i < |s| - 1 ==> Leq(s[i], s[|s| - 1], offset);
  }

  /** An initial balance at the end is the anchor, and nothing before it counts. */
  lemma LastReset(s: seq<Entry>, a: Anchor, offset: int, v: Entry -> int)
    requires s != [] && Sorted(s, offset) && DistinctIncomes(s) && AnchorsRun(s, a, offset)
    requires Resets(s[|s| - 1])
    ensures Counted(s, a, offset, v) == v(s[|s| - 1])
  {
    var e, front := s[|s| - 1], s[..|s| - 1];
    assert e in s;
    var i :| 0 <= i < |s| && s[i] == Entry(a.income, true);
    EarlierReset(s, i, offset);
    assert Leq(e, s[i], offset);
    forall x | x in front ensures Weight(x, a, offset, v) == 0 {
      var k :| 0 <= k < |front| && front[k] == x;
      assert s[k] == x && Leq(s[k], e, offset);
      AfterIsEffective(x.m, a.income, offset);
    }
    CountedZero(front, a, offset, v);
  }

  /** Any other movement at the end counts, and the anchor is before it. */
  lemma NotReset(s: seq<Entry>, a: Anchor, offset: int, v: Entry -> int)
    requires s != [] && Sorted(s, offset) && DistinctIncomes(s) && AnchorsRun(s, a, offset)
    requires !Resets(s[|s| - 1])
    ensures var e := s[|s| - 1]; Weight(e, a, offset, v) == v(e)
    ensures AnchorsRun(s[..|s| - 1], a, offset)
  {
    var e, front := s[|s| - 1], s[..|s| - 1];
    if !a.NoAnchor? {
      var i :| 0 <= i < |s| && s[i] == Entry(a.income, true);
      assert i < |s| - 1 && front[i] == s[i];
      assert Leq(s[i], e, offset);
      AfterIsEffective(e.m, a.income, offset);
    }
  }
}
