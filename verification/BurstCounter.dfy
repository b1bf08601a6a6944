/** `_bump` of `agents/relevance_guard.py`: a counter with a fixed window, kept in a cache. Times are
    milliseconds. */
module BurstCounter {
  import opened Options

  const BURST_MAX: nat := 15
  const BURST_WINDOW: int := 60000

  /** `created` is when the key was made; `expires` is when the cache drops it. */
  datatype Counter = Counter(count: nat, created: int, expires: int)

  /** One `_bump`: when it calls `add` and `incr`, until when the cache keeps what it writes, and whether
      the message is let through in the end. */
  datatype Bump = Bump(addAt: int, incrAt: int, lives: int, through: bool)

  predicate Live(k: Option<Counter>, now: int) { k.Some? && now < k.value.expires }

  /** When the counter was touched: by `add`, unless the key was there. */
  function TouchedAt(k: Option<Counter>, addAt: int, incrAt: int): int { if Live(k, addAt) then incrAt else addAt }

  /** One more, or a new window if the key is gone. */
  function Increment(k: Option<Counter>, addAt: int, incrAt: int, lives: int): Counter {
    if Live(k, addAt) && Live(k, incrAt) then Counter(k.value.count + 1, k.value.created, lives)
    else Counter(1, TouchedAt(k, addAt, incrAt), lives)
  }

  function AfterBump(k: Option<Counter>, b: Bump): Counter { Increment(k, b.addAt, b.incrAt, b.lives) }

  function CounterOf(bs: seq<Bump>): Option<Counter> {
    if bs == [] then None else Some(AfterBump(CounterOf(bs[..|bs| - 1]), bs[|bs| - 1]))
  }

  /** Bumps do not interleave. What else the checks do, looking at the mute or keeping the echo, may
      overlap in any way. */
  predicate InTurn(bs: seq<Bump>) {
    && (forall i :: 0 <= i < |bs| ==> bs[i].addAt <= bs[i].incrAt)
    && (forall i, j :: 0 <= i < j < |bs| ==> bs[i].incrAt <= bs[j].addAt)
  }

  /** The cache keeps every counter for its window at least; an increment may extend it. */
  predicate KeptFor(k: Option<Counter>, b: Bump) { b.lives >= AfterBump(k, b).created + BURST_WINDOW }

  /** Nothing is let through on a count above the limit. */
  predicate Limited(k: Option<Counter>, b: Bump) { b.through ==> AfterBump(k, b).count <= BURST_MAX }

  predicate Regular(bs: seq<Bump>) {
    forall i :: 0 <= i < |bs| ==> KeptFor(CounterOf(bs[..i]), bs[i]) && Limited(CounterOf(bs[..i]), bs[i])
  }

  /** Is the message let through, with its bump in the minute [a, a + 60000)? */
  predicate ThroughIn(k: Option<Counter>, b: Bump, a: int) {
    b.through && a <= TouchedAt(k, b.addAt, b.incrAt) < a + 60000
  }

  function Through(bs: seq<Bump>, a: int): nat {
    if bs == [] then 0
    else Through(bs[..|bs| - 1], a) + if ThroughIn(CounterOf(bs[..|bs| - 1]), bs[|bs| - 1], a) then 1 else 0
  }

  function Capped(n: nat): nat { if n < BURST_MAX then n else BURST_MAX }

  /** While the interval is open: what the counter says of the messages let through so far. */
  predicate Accounted(k: Option<Counter>, a: int, through: nat) {
    if k.None? then through == 0
    else
      && k.value.count >= 1 && k.value.expires >= k.value.created + BURST_WINDOW
      && through <= Capped(k.value.count) - 1 + if k.value.created < a then 0 else BURST_MAX
  }

  lemma AccountedStep(k: Option<Counter>, b: Bump, a: int, through: nat)
    requires Accounted(k, a, through) && b.addAt <= b.incrAt && KeptFor(k, b) && Limited(k, b)
    requires TouchedAt(k, b.addAt, b.incrAt) < a + BURST_WINDOW && (through > 0 ==> a <= b.addAt)
    ensures Accounted(Some(AfterBump(k, b)), a, through + if ThroughIn(k, b, a) then 1 else 0)
  {
  }

  lemma BumpPrefix(bs: seq<Bump>)
    requires bs != [] && InTurn(bs) && Regular(bs)
    ensures var front, b := bs[..|bs| - 1], bs[|bs| - 1];
            && InTurn(front) && Regular(front) && KeptFor(CounterOf(front), b) && Limited(CounterOf(front), b)
            && b.addAt <= b.incrAt && (front != [] ==> front[|front| - 1].incrAt <= b.addAt)
  {
    var front := bs[..|bs| - 1];
    forall i | 0 <= i < |front|
      ensures KeptFor(CounterOf(front[..i]), front[i]) && Limited(CounterOf(front[..i]), front[i])
    {
      assert front[..i] == bs[..i];
    }
  }

  lemma {:induction false} LastThrough(bs: seq<Bump>, a: int)
    requires InTurn(bs) && Regular(bs) && Through(bs, a) > 0
    ensures bs != [] && a <= bs[|bs| - 1].incrAt
  {
    BumpPrefix(bs);
    if Through(bs[..|bs| - 1], a) > 0 { LastThrough(bs[..|bs| - 1], a); }
  }

  lemma {:induction false} OpenInterval(bs: seq<Bump>, a: int)
    requires InTurn(bs) && Regular(bs)
    requires bs != [] ==>
               TouchedAt(CounterOf(bs[..|bs| - 1]), bs[|bs| - 1].addAt, bs[|bs| - 1].incrAt) < a + BURST_WINDOW
    ensures Accounted(CounterOf(bs), a, Through(bs, a))
  {
    if bs != [] {
      var front, b := bs[..|bs| - 1], bs[|bs| - 1];
      BumpPrefix(bs);
      if front != [] { BumpPrefix(front); }
      OpenInterval(front, a);
      if Through(front, a) > 0 { LastThrough(front, a); }
      AccountedStep(CounterOf(front), b, a, Through(front, a));
    }
  }

  /** In any half-open minute, fewer than twice the limit are let through,
      whatever decides about the messages besides the count. */
  lemma {:induction false} BumpBound(bs: seq<Bump>, a: int)
    requires InTurn(bs) && Regular(bs)
    ensures Through(bs, a) <= 29
  {
    if bs != [] {
      var front, b := bs[..|bs| - 1], bs[|bs| - 1];
      BumpPrefix(bs);
      if TouchedAt(CounterOf(front), b.addAt, b.incrAt) < a + BURST_WINDOW {
        OpenInterval(bs, a);
      } else {
        BumpBound(front, a);
      }
    }
  }
}
