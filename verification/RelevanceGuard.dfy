/** `agents/relevance_guard.py`: the flood check of one sender, and the streak of off-topic messages.
    Times are milliseconds. The state lives in a cache whose keys expire. */
module RelevanceGuard {
  import opened Options
  import opened BurstCounter

  const ECHO_MAX: nat := 4
  const MUTE: int := 15 * 60000
  const ECHO_MUTE: int := 5 * 60000
  const STRIKE_TTL: int := 24 * 60 * 60000

  datatype Echo = Echo(digest: int, n: nat, expires: int)

  /** The keys of one sender; `mute` holds when it expires. */
  datatype Memory = Memory(mute: Option<int>, burst: Option<Counter>, echo: Option<Echo>)

  const Fresh: Memory := Memory(None, None, None)

  datatype Verdict = Pass | Muted | Flood | Repeated

  /** One message: the digest of its text, when each cache operation ran, and until when the cache
      keeps the counter it wrote. */
  datatype Call = Call(digest: int, muteAt: int, addAt: int, incrAt: int, setAt: int, lives: int)

  predicate InOrder(c: Call) { c.muteAt <= c.addAt <= c.incrAt <= c.setAt }

  predicate IsMuted(m: Memory, now: int) { m.mute.Some? && now < m.mute.value }

  predicate CounterLive(m: Memory, now: int) { Live(m.burst, now) }

  function BumpedAt(m: Memory, c: Call): int { TouchedAt(m.burst, c.addAt, c.incrAt) }

  function Bumped(m: Memory, c: Call): Counter { Increment(m.burst, c.addAt, c.incrAt, c.lives) }

  function Repeats(m: Memory, c: Call): nat {
    if m.echo.Some? && c.setAt < m.echo.value.expires && m.echo.value.digest == c.digest then m.echo.value.n + 1 else 1
  }

  function Judge(m: Memory, c: Call): Verdict {
    if IsMuted(m, c.muteAt) then Muted
    else if Bumped(m, c).count > BURST_MAX then Flood
    else if Repeats(m, c) >= ECHO_MAX then Repeated
    else Pass
  }

  function After(m: Memory, c: Call): Memory {
    match Judge(m, c)
    case Muted => m
    case Flood => m.(burst := Some(Bumped(m, c)), mute := Some(c.setAt + MUTE))
    case Repeated => Memory(
      Some(c.setAt + ECHO_MUTE), Some(Bumped(m, c)),
      Some(Echo(c.digest, Repeats(m, c), c.setAt + 10 * BURST_WINDOW)))
    case Pass => m.(
      burst := Some(Bumped(m, c)),
      echo := Some(Echo(c.digest, Repeats(m, c), c.setAt + 10 * BURST_WINDOW)))
  }

  class Guard {
    const enabled: bool
    var mute: Option<int>
    var burst: Option<Counter>
    var echo: Option<Echo>

    function Now(): Memory
      reads this
    {
      Memory(mute, burst, echo)
    }

    constructor (enabled: bool)
      ensures Now() == Fresh && this.enabled == enabled
    {
      this.enabled := enabled;
      mute, burst, echo := None, None, None;
    }

    /** `cache.add`: sets the key only if it is not there. */
    method Add(now: int, lives: int) returns (added: bool)
      modifies this`burst
      ensures added <==> !CounterLive(old(Now()), now)
      ensures burst == if added then Some(Counter(1, now, lives)) else old(burst)
    {
      added := burst.None? || now >= burst.value.expires;
      if added { burst := Some(Counter(1, now, lives)); }
    }

    /** `_bump`: the key may expire between `add` and `incr`. */
    method Bump(addAt: int, incrAt: int, lives: int) returns (count: nat)
      modifies this`burst
      ensures forall c: Call :: c.addAt == addAt && c.incrAt == incrAt && c.lives == lives ==>
                burst == Some(Bumped(old(Now()), c)) && count == Bumped(old(Now()), c).count
    {
      var added := Add(addAt, lives);
      if added { return 1; }
      if incrAt < burst.value.expires {
        burst := Some(Counter(burst.value.count + 1, burst.value.created, lives));
        return burst.value.count;
      }
      burst := Some(Counter(1, incrAt, lives));
      count := 1;
    }

    /** `check_flood`; switched off, it lets everything through and remembers nothing. */
    method CheckFlood(c: Call) returns (verdict: Verdict)
      modifies this
      ensures verdict == if enabled then Judge(old(Now()), c) else Pass
      ensures Now() == if enabled then After(old(Now()), c) else old(Now())
    {
      if !enabled { return Pass; }
      if mute.Some? && c.muteAt < mute.value { return Muted; }
      var count := Bump(c.addAt, c.incrAt, c.lives);
      if count > BURST_MAX {
        mute := Some(c.setAt + MUTE);
        return Flood;
      }
      var repeats: nat := 1;
      if echo.Some? && c.setAt < echo.value.expires && echo.value.digest == c.digest { repeats := echo.value.n + 1; }
      echo := Some(Echo(c.digest, repeats, c.setAt + 10 * BURST_WINDOW));
      if repeats >= ECHO_MAX {
        mute := Some(c.setAt + ECHO_MUTE);
        return Repeated;
      }
      verdict := Pass;
    }
  }

  // ------------------------------------------------------------ runs

  function Play(calls: seq<Call>): Memory {
    if calls == [] then Fresh else After(Play(calls[..|calls| - 1]), calls[|calls| - 1])
  }

  function VerdictOf(calls: seq<Call>, i: nat): Verdict
    requires i < |calls|
  {
    Judge(Play(calls[..i]), calls[i])
  }

  /** Messages of a sender are checked one after the other. */
  predicate Ordered(calls: seq<Call>) {
    (forall i :: 0 <= i < |calls| ==> InOrder(calls[i]))
    && forall i, j :: 0 <= i < j < |calls| ==> calls[i].setAt <= calls[j].muteAt
  }

  /** Of messages checked, those that were not muted bump the counter, one after the other. */
  predicate BumpsInTurn(calls: seq<Call>) {
    && (forall i :: 0 <= i < |calls| ==> calls[i].addAt <= calls[i].incrAt)
    && (forall i, j :: 0 <= i < j < |calls| ==> calls[i].incrAt <= calls[j].addAt)
  }

  /** The cache keeps every counter for its window at least; an increment may extend it. */
  predicate Kept(calls: seq<Call>) {
    forall i :: 0 <= i < |calls| && !VerdictOf(calls, i).Muted? ==>
      calls[i].lives >= Bumped(Play(calls[..i]), calls[i]).created + BURST_WINDOW
  }

  /** How many messages pass in the minute [a, a + 60000). */
  function Passes(calls: seq<Call>, a: int): nat {
    if calls == [] then 0
    else
      var front, c := calls[..|calls| - 1], calls[|calls| - 1];
      Passes(front, a)
      + if Judge(Play(front), c).Pass? && a <= BumpedAt(Play(front), c) < a + 60000 then 1 else 0
  }

  /** The bumps of a run. */
  function BumpsOf(calls: seq<Call>): seq<Bump> {
    if calls == [] then []
    else
      var front, c := calls[..|calls| - 1], calls[|calls| - 1];
      var verdict := Judge(Play(front), c);
      BumpsOf(front) + if verdict.Muted? then [] else [BumpOf(Play(front), c)]
  }

  lemma KeptPrefix(calls: seq<Call>)
    requires calls != [] && BumpsInTurn(calls) && Kept(calls)
    ensures var front, c := calls[..|calls| - 1], calls[|calls| - 1];
            && BumpsInTurn(front) && Kept(front) && c.addAt <= c.incrAt
            && (Judge(Play(front), c).Muted? || c.lives >= Bumped(Play(front), c).created + BURST_WINDOW)
  {
    var front := calls[..|calls| - 1];
    assert VerdictOf(calls, |front|) == Judge(Play(front), calls[|front|]);
    forall i | 0 <= i < |front| && !VerdictOf(front, i).Muted?
      ensures front[i].lives >= Bumped(Play(front[..i]), front[i]).created + BURST_WINDOW
    {
      assert front[..i] == calls[..i];
      assert !VerdictOf(calls, i).Muted?;
    }
  }

  predicate IsBumpOf(b: Bump, c: Call) { b.addAt == c.addAt && b.incrAt == c.incrAt }

  /** Every bump is the one of some message. */
  lemma {:induction false} BumpsAreCalls(calls: seq<Call>, i: nat)
    requires i < |BumpsOf(calls)|
    ensures exists k :: 0 <= k < |calls| && IsBumpOf(BumpsOf(calls)[i], calls[k])
  {
    if calls != [] {
      var front := calls[..|calls| - 1];
      if i < |BumpsOf(front)| {
        BumpsAreCalls(front, i);
        var k :| 0 <= k < |front| && IsBumpOf(BumpsOf(front)[i], front[k]);
        assert calls[k] == front[k];
      } else {
        assert IsBumpOf(BumpsOf(calls)[i], calls[|front|]);
      }
    }
  }

  lemma AddBump(bs: seq<Bump>, b: Bump, a: int)
    ensures CounterOf(bs + [b]) == Some(AfterBump(CounterOf(bs), b))
    ensures Through(bs + [b], a) == Through(bs, a) + if ThroughIn(CounterOf(bs), b, a) then 1 else 0
    ensures Regular(bs) && KeptFor(CounterOf(bs), b) && Limited(CounterOf(bs), b) ==> Regular(bs + [b])
    ensures InTurn(bs) && b.addAt <= b.incrAt && (forall i :: 0 <= i < |bs| ==> bs[i].incrAt <= b.addAt) ==>
              InTurn(bs + [b])
  {
    var more := bs + [b];
    assert more[..|bs|] == bs;
    assert forall i :: 0 <= i < |bs| ==> more[..i] == bs[..i] && more[i] == bs[i];
  }

  function BumpOf(m: Memory, c: Call): Bump { Bump(c.addAt, c.incrAt, c.lives, Judge(m, c).Pass?) }

  /** A check that is not muted bumps, and lets nothing through above the limit. */
  lemma CheckBumps(m: Memory, c: Call, a: int)
    requires !Judge(m, c).Muted?
    ensures After(m, c).burst == Some(AfterBump(m.burst, BumpOf(m, c))) && AfterBump(m.burst, BumpOf(m, c)) == Bumped(m, c)
    ensures Limited(m.burst, BumpOf(m, c))
    ensures ThroughIn(m.burst, BumpOf(m, c), a) <==>
              Judge(m, c).Pass? && a <= BumpedAt(m, c) < a + BURST_WINDOW
  {
  }

  lemma BumpsBefore(calls: seq<Call>)
    requires calls != [] && BumpsInTurn(calls)
    ensures var bs := BumpsOf(calls[..|calls| - 1]);
            forall i :: 0 <= i < |bs| ==> bs[i].incrAt <= calls[|calls| - 1].addAt
  {
    var front := calls[..|calls| - 1];
    var bs := BumpsOf(front);
    forall i | 0 <= i < |bs| ensures bs[i].incrAt <= calls[|calls| - 1].addAt {
      BumpsAreCalls(front, i);
      var k :| 0 <= k < |front| && IsBumpOf(bs[i], front[k]);
      assert calls[k] == front[k];
    }
  }

  /** The counter of the run is the counter of its bumps, and they are in turn. */
  predicate IsBumps(bs: seq<Bump>, calls: seq<Call>, a: int) {
    CounterOf(bs) == Play(calls).burst && Through(bs, a) == Passes(calls, a) && InTurn(bs) && Regular(bs)
  }

  lemma OneMoreBump(bs: seq<Bump>, front: seq<Call>, c: Call, calls: seq<Call>, a: int)
    requires calls != [] && front == calls[..|calls| - 1] && c == calls[|calls| - 1]
    requires IsBumps(bs, front, a) && !Judge(Play(front), c).Muted? && c.addAt <= c.incrAt
    requires c.lives >= Bumped(Play(front), c).created + BURST_WINDOW
    requires forall i :: 0 <= i < |bs| ==> bs[i].incrAt <= c.addAt
    ensures IsBumps(bs + [BumpOf(Play(front), c)], calls, a)
  {
    CheckBumps(Play(front), c, a);
    AddBump(bs, BumpOf(Play(front), c), a);
  }

  lemma {:induction false} RunIsItsBumps(calls: seq<Call>, a: int)
    requires BumpsInTurn(calls) && Kept(calls)
    ensures IsBumps(BumpsOf(calls), calls, a)
  {
    if calls != [] {
      var front, c := calls[..|calls| - 1], calls[|calls| - 1];
      KeptPrefix(calls);
      RunIsItsBumps(front, a);
      if !Judge(Play(front), c).Muted? {
        BumpsBefore(calls);
        OneMoreBump(BumpsOf(front), front, c, calls, a);
      } else {
        assert BumpsOf(calls) == BumpsOf(front);
      }
    }
  }

  /** In any minute a sender gets fewer than twice the burst limit through. */
  lemma FloodBound(calls: seq<Call>, a: int)
    requires BumpsInTurn(calls) && Kept(calls)
    ensures Passes(calls, a) <= 29
  {
    RunIsItsBumps(calls, a);
    BumpBound(BumpsOf(calls), a);
  }

  // ------------------------------------------------------------ the bound is reached

  /** One message at the start of a window, fourteen at its end, fifteen in the next one. */
  function BusyCall(n: nat): Call {
    var t := if n == 0 then 0 else if n < BURST_MAX then BURST_WINDOW - 1 else BURST_WINDOW;
    Call(n, t, t, t, t, if n < BURST_MAX then BURST_WINDOW else 2 * BURST_WINDOW)
  }

  function Busy(n: nat): seq<Call> { seq(n, i requires 0 <= i < n => BusyCall(i)) }

  function BusyMemory(n: nat): Memory
    requires n > 0
  {
    Memory(
      None,
      Some(if n <= BURST_MAX then Counter(n, 0, BURST_WINDOW)
           else Counter(n - BURST_MAX, BURST_WINDOW, 2 * BURST_WINDOW)),
      Some(Echo(n - 1, 1, BusyCall(n - 1).setAt + 10 * BURST_WINDOW)))
  }

  function BusyBefore(n: nat): Memory { if n == 0 then Fresh else BusyMemory(n) }

  lemma BusyCounts(n: nat)
    requires n < 2 * BURST_MAX
    ensures Some(Bumped(BusyBefore(n), BusyCall(n))) == BusyMemory(n + 1).burst
    ensures Repeats(BusyBefore(n), BusyCall(n)) == 1
    ensures BumpedAt(BusyBefore(n), BusyCall(n)) == BusyCall(n).addAt
  {
  }

  lemma BusyStep(n: nat)
    requires n < 2 * BURST_MAX
    ensures Judge(BusyBefore(n), BusyCall(n)).Pass? && After(BusyBefore(n), BusyCall(n)) == BusyMemory(n + 1)
  {
    BusyCounts(n);
  }

  lemma PlayMore(calls: seq<Call>, c: Call, m: Memory, a: int)
    requires Play(calls) == m
    ensures Play(calls + [c]) == After(m, c)
    ensures Passes(calls + [c], a)
            == Passes(calls, a) + if Judge(m, c).Pass? && a <= BumpedAt(m, c) < a + BURST_WINDOW then 1 else 0
  {
    assert (calls + [c])[..|calls|] == calls;
  }

  lemma {:induction false} BusyPasses(n: nat)
    requires n <= 2 * BURST_MAX
    ensures Play(Busy(n)) == BusyBefore(n)
    ensures Passes(Busy(n), BURST_WINDOW - 1) == if n == 0 then 0 else n - 1
  {
    if n > 0 {
      BusyPasses(n - 1);
      BusyGrows(n - 1);
      BusyMore(n - 1, Busy(n - 1));
    }
  }

  lemma BusyGrows(n: nat)
    ensures Busy(n + 1) == Busy(n) + [BusyCall(n)]
  {
  }

  lemma BusyMore(n: nat, calls: seq<Call>)
    requires n < 2 * BURST_MAX && Play(calls) == BusyBefore(n)
    ensures Play(calls + [BusyCall(n)]) == BusyMemory(n + 1)
    ensures Passes(calls + [BusyCall(n)], BURST_WINDOW - 1)
            == Passes(calls, BURST_WINDOW - 1) + if n == 0 then 0 else 1
  {
    PlayMore(calls, BusyCall(n), BusyBefore(n), BURST_WINDOW - 1);
    BusyStep(n);
    BusyCounts(n);
  }

  lemma BusyIsKept(n: nat)
    requires n <= 2 * BURST_MAX
    ensures Ordered(Busy(n)) && BumpsInTurn(Busy(n)) && Kept(Busy(n))
  {
    forall i | 0 <= i < n ensures Busy(n)[i].lives >= Bumped(Play(Busy(n)[..i]), Busy(n)[i]).created + BURST_WINDOW {
      assert Busy(n)[..i] == Busy(i);
      BusyPasses(i);
    }
  }

  lemma FloodBoundIsReached()
    ensures Ordered(Busy(30)) && BumpsInTurn(Busy(30)) && Kept(Busy(30))
    ensures Passes(Busy(30), 59999) == 29
  {
    BusyIsKept(30);
    BusyPasses(30);
  }

  /** One text four times within a minute. */
  function Same(n: nat): seq<Call> { seq(n, i requires 0 <= i < n => Call(7, i, i, i, i, 60000)) }

  function SameMemory(n: nat): Memory
    requires 1 <= n <= 3
  {
    Memory(None, Some(Counter(n, 0, 60000)), Some(Echo(7, n, n - 1 + 600000)))
  }

  lemma {:induction false} SameCalls(n: nat)
    requires 1 <= n <= 3
    ensures Play(Same(n)) == SameMemory(n) && VerdictOf(Same(n), n - 1).Pass?
  {
    var c := Call(7, n - 1, n - 1, n - 1, n - 1, 60000);
    if n == 1 {
      assert Same(1) == [] + [c];
      PlayMore([], c, Fresh, 0);
      assert Same(1)[..0] == [];
    } else {
      SameCalls(n - 1);
      assert Same(n) == Same(n - 1) + [c] && Same(n)[..n - 1] == Same(n - 1);
      PlayMore(Same(n - 1), c, SameMemory(n - 1), 0);
    }
  }

  /** The third still passes, the fourth does not. */
  lemma EchoBoundIsReached()
    ensures Ordered(Same(4)) && Kept(Same(3))
    ensures VerdictOf(Same(4), 2).Pass? && VerdictOf(Same(4), 3).Repeated?
  {
    SameCalls(1);
    SameCalls(2);
    SameCalls(3);
    assert Same(4)[..3] == Same(3) && Same(4)[..2] == Same(3)[..2] == Same(2);
    assert Same(3)[..1] == Same(1) && Same(3)[..0] == [];
  }

  // ------------------------------------------------------------ silence

  lemma {:induction false} MuteLasts(calls: seq<Call>, i: nat, j: nat, until: int)
    requires Ordered(calls) && i < j <= |calls|
    requires Play(calls[..i + 1]).mute == Some(until)
    requires forall k :: i < k < j ==> calls[k].muteAt < until
    ensures Play(calls[..j]).mute == Some(until)
  {
    if j > i + 1 {
      MuteLasts(calls, i, j - 1, until);
      assert calls[..j][..j - 1] == calls[..j - 1];
    }
  }

  /** After a flood nothing passes for a quarter of an hour, and the mute is not prolonged. */
  lemma FloodSilences(calls: seq<Call>, i: nat, j: nat)
    requires Ordered(calls) && i < j < |calls| && VerdictOf(calls, i).Flood?
    requires calls[j].muteAt < calls[i].setAt + 15 * 60 * 1000
    ensures VerdictOf(calls, j).Muted?
  {
    assert calls[..i + 1][..i] == calls[..i];
    forall k | i < k < j ensures calls[k].muteAt < calls[i].setAt + MUTE {
      assert calls[k].setAt <= calls[j].muteAt && InOrder(calls[k]);
    }
    MuteLasts(calls, i, j, calls[i].setAt + MUTE);
  }

  /** When the mute ends that a message causes: fifteen minutes after a flood, five after a text repeated
      too often. */
  function MuteEnd(calls: seq<Call>, i: nat): Option<int>
    requires i < |calls|
  {
    match VerdictOf(calls, i)
    case Flood => Some(calls[i].setAt + 15 * 60 * 1000)
    case Repeated => Some(calls[i].setAt + 5 * 60 * 1000)
    case _ => None
  }

  /** The mute is the one some message caused, and any other ended before the last message. */
  ghost predicate LatestMute(calls: seq<Call>, j: nat)
    requires j <= |calls|
  {
    var mute := Play(calls[..j]).mute;
    && (mute.Some? ==> exists i: nat :: i < j && MuteEnd(calls, i) == mute)
    && forall i: nat :: i < j && MuteEnd(calls, i).Some? ==>
         mute.Some? && (MuteEnd(calls, i).value <= mute.value || MuteEnd(calls, i).value <= calls[j - 1].muteAt)
  }

  lemma {:induction false} MuteIsLatest(calls: seq<Call>, j: nat)
    requires Ordered(calls) && j <= |calls|
    ensures LatestMute(calls, j)
  {
    if j > 0 {
      MuteIsLatest(calls, j - 1);
      assert calls[..j][..j - 1] == calls[..j - 1];
      if j > 1 { assert InOrder(calls[j - 2]) && calls[j - 2].setAt <= calls[j - 1].muteAt; }
      MuteStep(calls, j, Play(calls[..j - 1]));
    }
  }

  lemma MuteStep(calls: seq<Call>, j: nat, m: Memory)
    requires 0 < j <= |calls| && m == Play(calls[..j - 1]) && Play(calls[..j]) == After(m, calls[j - 1])
    requires LatestMute(calls, j - 1) && (j > 1 ==> calls[j - 2].muteAt <= calls[j - 1].muteAt)
    ensures LatestMute(calls, j)
  {
    var now := After(m, calls[j - 1]).mute;
    assert VerdictOf(calls, j - 1) == Judge(m, calls[j - 1]);
    if MuteEnd(calls, j - 1).Some? {
      assert MuteEnd(calls, j - 1) == now;
    } else {
      assert now == m.mute;
    }
  }

  /** Exactly when a message is muted. */
  lemma MutedIff(calls: seq<Call>, j: nat)
    requires Ordered(calls) && j < |calls|
    ensures VerdictOf(calls, j).Muted? <==>
              exists i: nat :: i < j && MuteEnd(calls, i).Some? && calls[j].muteAt < MuteEnd(calls, i).value
  {
    MuteIsLatest(calls, j);
    if j > 0 { assert InOrder(calls[j - 1]) && calls[j - 1].setAt <= calls[j].muteAt; }
  }

  /** The same text, sent over and over within the memory of the echo, is let through three times. */
  lemma {:induction false} EchoCounts(calls: seq<Call>, i: nat, n: nat)
    requires Ordered(calls) && 1 <= n && i + n <= |calls|
    requires forall k :: i <= k < i + n ==> calls[k].digest == calls[i].digest && VerdictOf(calls, k).Pass?
    requires forall k :: i < k < i + n ==> calls[k].setAt < calls[k - 1].setAt + 10 * BURST_WINDOW
    ensures n <= 3
    ensures var e := Play(calls[..i + n]).echo;
            e.Some? && e.value.n >= n && e.value.digest == calls[i].digest
            && e.value.expires == calls[i + n - 1].setAt + 10 * BURST_WINDOW
  {
    assert calls[..i + n][..i + n - 1] == calls[..i + n - 1];
    assert VerdictOf(calls, i + n - 1).Pass?;
    if n > 1 { EchoCounts(calls, i, n - 1); }
  }
}
