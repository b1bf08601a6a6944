/** Checks of one sender that overlap. Each is a sequence of cache operations, and the database cache
    increments by reading and then writing; so two checks may count the same message number. */
module RelevanceOverlap {
  import opened Options
  import opened BurstCounter
  import opened RelevanceGuard

  /** Where a check stands: about to look at the mute, to `add`, to read for `incr`, to write what it
      read plus one; with its count; or over. */
  datatype Pc = Looking | Adding | Reading | Writing(read: nat) | Counted(count: nat) | Over(verdict: Verdict)

  datatype Shared = Shared(memory: Memory, checks: map<nat, Pc>)

  /** The next operation of check `id`, on a text with that digest; `lives` is until when the cache
      keeps a counter it writes. */
  datatype Op = Op(id: nat, digest: int, at: int, lives: int)

  function PcOf(s: Shared, id: nat): Pc { if id in s.checks then s.checks[id] else Looking }

  function Goto(s: Shared, id: nat, pc: Pc): Shared { s.(checks := s.checks[id := pc]) }

  function NewCounter(s: Shared, op: Op): Shared {
    Goto(s.(memory := s.memory.(burst := Some(Counter(1, op.at, op.lives)))), op.id, Counted(1))
  }

  /** `cache.set` inside `incr`: whatever the counter is by now, it becomes what was read plus one. */
  function Write(s: Shared, op: Op, read: nat): Shared {
    var created := if s.memory.burst.Some? then s.memory.burst.value.created else op.at;
    Goto(s.(memory := s.memory.(burst := Some(Counter(read + 1, created, op.lives)))), op.id, Counted(read + 1))
  }

  /** The end of a check, with its count. */
  function Finish(s: Shared, op: Op, count: nat): Shared {
    var m, c := s.memory, Call(op.digest, op.at, op.at, op.at, op.at, op.lives);
    var echo := Some(Echo(op.digest, Repeats(m, c), op.at + 10 * BURST_WINDOW));
    if count > BURST_MAX then Goto(s.(memory := m.(mute := Some(op.at + MUTE))), op.id, Over(Flood))
    else if Repeats(m, c) >= ECHO_MAX then
      Goto(s.(memory := m.(mute := Some(op.at + ECHO_MUTE), echo := echo)), op.id, Over(Repeated))
    else Goto(s.(memory := m.(echo := echo)), op.id, Over(Pass))
  }

  function Do(s: Shared, op: Op): Shared {
    match PcOf(s, op.id)
    case Looking => Goto(s, op.id, if IsMuted(s.memory, op.at) then Over(Muted) else Adding)
    case Adding => if CounterLive(s.memory, op.at) then Goto(s, op.id, Reading) else NewCounter(s, op)
    case Reading =>
      if CounterLive(s.memory, op.at) then Goto(s, op.id, Writing(s.memory.burst.value.count)) else NewCounter(s, op)
    case Writing(read) => Write(s, op, read)
    case Counted(count) => Finish(s, op, count)
    case Over(_) => s
  }

  function DoAll(s: Shared, ops: seq<Op>): Shared {
    if ops == [] then s else Do(DoAll(s, ops[..|ops| - 1]), ops[|ops| - 1])
  }

  // ------------------------------------------------------------ one check alone

  /** The operations of a check nobody interrupts, at the times of `c`. */
  function Alone(m: Memory, id: nat, c: Call): seq<Op> {
    var at := (t: int) => Op(id, c.digest, t, c.lives);
    if IsMuted(m, c.muteAt) then [at(c.muteAt)]
    else if !CounterLive(m, c.addAt) then [at(c.muteAt), at(c.addAt), at(c.setAt)]
    else if !CounterLive(m, c.incrAt) then [at(c.muteAt), at(c.addAt), at(c.incrAt), at(c.setAt)]
    else [at(c.muteAt), at(c.addAt), at(c.incrAt), at(c.incrAt), at(c.setAt)]
  }

  lemma DoTwo(s: Shared, a: Op, b: Op)
    ensures DoAll(s, [a]) == Do(s, a) && DoAll(s, [a, b]) == Do(Do(s, a), b)
  {
    assert [a][..0] == [] && [a, b][..1] == [a];
  }

  lemma DoThree(s: Shared, a: Op, b: Op, c: Op)
    ensures DoAll(s, [a, b, c]) == Do(Do(Do(s, a), b), c)
  {
    DoTwo(s, a, b);
    assert [a, b, c][..2] == [a, b];
  }

  lemma DoFive(s: Shared, a: Op, b: Op, c: Op, d: Op, e: Op)
    ensures DoAll(s, [a, b, c, d]) == Do(DoAll(s, [a, b, c]), d)
    ensures DoAll(s, [a, b, c, d, e]) == Do(DoAll(s, [a, b, c, d]), e)
  {
    assert [a, b, c, d][..3] == [a, b, c] && [a, b, c, d, e][..4] == [a, b, c, d];
  }

  predicate IsCheck(s: Shared, t: Shared, id: nat, c: Call) {
    t.memory == After(s.memory, c) && PcOf(t, id) == Over(Judge(s.memory, c))
  }

  lemma NewIsCheck(s: Shared, id: nat, c: Call)
    requires id !in s.checks && !IsMuted(s.memory, c.muteAt) && !CounterLive(s.memory, c.addAt)
    ensures IsCheck(s, DoAll(s, Alone(s.memory, id, c)), id, c)
  {
    DoThree(s, Op(id, c.digest, c.muteAt, c.lives), Op(id, c.digest, c.addAt, c.lives), Op(id, c.digest, c.setAt, c.lives));
  }

  /** The first two operations of a check that finds a counter. */
  lemma FindsCounter(s: Shared, id: nat, c: Call)
    requires id !in s.checks && !IsMuted(s.memory, c.muteAt) && CounterLive(s.memory, c.addAt)
    ensures var t := Do(Do(s, Op(id, c.digest, c.muteAt, c.lives)), Op(id, c.digest, c.addAt, c.lives));
            t.memory == s.memory && PcOf(t, id) == Reading
  {
  }

  lemma GoneEnds(s: Shared, t: Shared, id: nat, c: Call)
    requires !IsMuted(s.memory, c.muteAt) && CounterLive(s.memory, c.addAt) && !CounterLive(s.memory, c.incrAt)
    requires t.memory == s.memory && PcOf(t, id) == Reading
    ensures IsCheck(s, Do(Do(t, Op(id, c.digest, c.incrAt, c.lives)), Op(id, c.digest, c.setAt, c.lives)), id, c)
  {
  }

  lemma OldEnds(s: Shared, t: Shared, id: nat, c: Call)
    requires !IsMuted(s.memory, c.muteAt) && CounterLive(s.memory, c.addAt) && CounterLive(s.memory, c.incrAt)
    requires t.memory == s.memory && PcOf(t, id) == Reading
    ensures var incr := Op(id, c.digest, c.incrAt, c.lives);
            IsCheck(s, Do(Do(Do(t, incr), incr), Op(id, c.digest, c.setAt, c.lives)), id, c)
  {
    var incr := Op(id, c.digest, c.incrAt, c.lives);
    var written := Do(Do(t, incr), incr);
    assert PcOf(Do(t, incr), id) == Writing(s.memory.burst.value.count);
    assert written.memory == s.memory.(burst := Some(Bumped(s.memory, c)));
  }

  lemma GoneIsCheck(s: Shared, id: nat, c: Call)
    requires id !in s.checks && !IsMuted(s.memory, c.muteAt) && CounterLive(s.memory, c.addAt)
    requires !CounterLive(s.memory, c.incrAt)
    ensures IsCheck(s, DoAll(s, Alone(s.memory, id, c)), id, c)
  {
    var incr, end := Op(id, c.digest, c.incrAt, c.lives), Op(id, c.digest, c.setAt, c.lives);
    var look, add := Op(id, c.digest, c.muteAt, c.lives), Op(id, c.digest, c.addAt, c.lives);
    DoThree(s, look, add, incr);
    DoFive(s, look, add, incr, end, end);
    FindsCounter(s, id, c);
    GoneEnds(s, Do(Do(s, look), add), id, c);
  }

  lemma OldIsCheck(s: Shared, id: nat, c: Call)
    requires id !in s.checks && !IsMuted(s.memory, c.muteAt) && CounterLive(s.memory, c.addAt)
    requires CounterLive(s.memory, c.incrAt)
    ensures IsCheck(s, DoAll(s, Alone(s.memory, id, c)), id, c)
  {
    var incr, end := Op(id, c.digest, c.incrAt, c.lives), Op(id, c.digest, c.setAt, c.lives);
    var look, add := Op(id, c.digest, c.muteAt, c.lives), Op(id, c.digest, c.addAt, c.lives);
    DoThree(s, look, add, incr);
    DoFive(s, look, add, incr, incr, end);
    FindsCounter(s, id, c);
    OldEnds(s, Do(Do(s, look), add), id, c);
  }

  /** Uninterrupted, the operations are one `check_flood`. */
  lemma AloneIsCheck(s: Shared, id: nat, c: Call)
    requires id !in s.checks
    ensures IsCheck(s, DoAll(s, Alone(s.memory, id, c)), id, c)
  {
    if IsMuted(s.memory, c.muteAt) {
      var look := Op(id, c.digest, c.muteAt, c.lives);
      DoTwo(s, look, look);
    } else if !CounterLive(s.memory, c.addAt) {
      NewIsCheck(s, id, c);
    } else if !CounterLive(s.memory, c.incrAt) {
      GoneIsCheck(s, id, c);
    } else {
      OldIsCheck(s, id, c);
    }
  }

  // ------------------------------------------------------------ any number of messages at once

  function At0(id: nat): Op { Op(id, id, 0, BURST_WINDOW) }

  const OneCount: Memory := Memory(None, Some(Counter(1, 0, BURST_WINDOW)), None)
  const TwoCount: Memory := Memory(None, Some(Counter(2, 0, BURST_WINDOW)), None)

  /** The first check counts one; `k` more read that one. */
  function Reads(k: nat): seq<Op> {
    if k == 0 then [At0(0), At0(0)] else Reads(k - 1) + [At0(k), At0(k), At0(k)]
  }

  /** Then `k` of them write two. */
  function Writes(n: nat, k: nat): seq<Op> {
    if k == 0 then Reads(n) else Writes(n, k - 1) + [At0(k)]
  }

  /** Then `k` checks end. */
  function Ends(n: nat, k: nat): seq<Op> {
    if k == 0 then Writes(n, n) else Ends(n, k - 1) + [At0(k - 1)]
  }

  const Start: Shared := Shared(Fresh, map[])

  lemma DoMore(ops: seq<Op>, op: Op)
    ensures DoAll(Start, ops + [op]) == Do(DoAll(Start, ops), op)
  {
    assert (ops + [op])[..|ops|] == ops;
  }

  function ReadPc(k: nat, i: nat): Pc {
    if i > k then Looking else if i == 0 then Counted(1) else Writing(1)
  }

  function WrittenPc(n: nat, k: nat, i: nat): Pc {
    if 1 <= i <= k then Counted(2) else ReadPc(n, i)
  }

  function EndedPc(n: nat, k: nat, i: nat): Pc {
    if i < k then Over(Pass) else WrittenPc(n, n, i)
  }

  predicate AtFirst(s: Shared, op: Op) { PcOf(s, op.id) == Looking && s.memory == OneCount && op == At0(op.id) }

  lemma ReadOne(s: Shared, op: Op)
    requires AtFirst(s, op)
    ensures var t := Do(Do(Do(s, op), op), op);
            t.memory == OneCount && t.checks == s.checks[op.id := Writing(1)]
  {
    var looked := Do(s, op);
    assert looked == Goto(s, op.id, Adding);
    var added := Do(looked, op);
    assert added == Goto(looked, op.id, Reading);
    assert s.checks[op.id := Adding][op.id := Reading][op.id := Writing(1)] == s.checks[op.id := Writing(1)];
  }

  lemma DoOthers(s: Shared, op: Op, i: nat)
    requires i != op.id
    ensures PcOf(Do(s, op), i) == PcOf(s, i)
  {
  }

  lemma ThreeReads(k: nat)
    requires k > 0
    ensures DoAll(Start, Reads(k)) == Do(Do(Do(DoAll(Start, Reads(k - 1)), At0(k)), At0(k)), At0(k))
  {
    var ops, op := Reads(k - 1), At0(k);
    DoMore(ops, op);
    DoMore(ops + [op], op);
    DoMore(ops + [op] + [op], op);
    assert Reads(k) == ops + [op] + [op] + [op];
  }

  lemma {:induction false} ReadsDone(k: nat)
    ensures DoAll(Start, Reads(k)).memory == OneCount
    ensures forall i: nat :: PcOf(DoAll(Start, Reads(k)), i) == ReadPc(k, i)
  {
    if k == 0 {
      DoTwo(Start, At0(0), At0(0));
    } else {
      ReadsDone(k - 1);
      ThreeReads(k);
      var s := DoAll(Start, Reads(k - 1));
      assert PcOf(s, k) == Looking;
      ReadOne(s, At0(k));
      ReadOthers(s, Do(Do(Do(s, At0(k)), At0(k)), At0(k)), k);
    }
  }

  lemma ReadOthers(s: Shared, t: Shared, k: nat)
    requires k > 0 && t.checks == s.checks[k := Writing(1)]
    requires forall i: nat :: PcOf(s, i) == ReadPc(k - 1, i)
    ensures forall i: nat :: PcOf(t, i) == ReadPc(k, i)
  {
    forall i: nat ensures PcOf(t, i) == ReadPc(k, i) {
      assert PcOf(s, i) == ReadPc(k - 1, i);
    }
  }

  lemma {:induction false} WritesDone(n: nat, k: nat)
    requires k <= n
    ensures DoAll(Start, Writes(n, k)).memory == if k == 0 then OneCount else TwoCount
    ensures forall i: nat :: PcOf(DoAll(Start, Writes(n, k)), i) == WrittenPc(n, k, i)
  {
    if k == 0 {
      ReadsDone(n);
      forall i: nat ensures PcOf(DoAll(Start, Writes(n, k)), i) == WrittenPc(n, k, i) {
        assert PcOf(DoAll(Start, Reads(n)), i) == ReadPc(n, i);
      }
    } else {
      WritesDone(n, k - 1);
      DoMore(Writes(n, k - 1), At0(k));
      var s := DoAll(Start, Writes(n, k - 1));
      assert PcOf(s, k) == WrittenPc(n, k - 1, k) == Writing(1);
      forall i: nat ensures PcOf(Do(s, At0(k)), i) == WrittenPc(n, k, i) {
        assert PcOf(s, i) == WrittenPc(n, k - 1, i);
        if i != k { DoOthers(s, At0(k), i); }
      }
    }
  }

  lemma FinishPasses(s: Shared, op: Op, count: nat, id: nat)
    requires PcOf(s, op.id) == Counted(count) && count <= 2 && op == At0(id)
    requires s.memory == TwoCount.(echo := if id == 0 then None else Some(Echo(id - 1, 1, 10 * BURST_WINDOW)))
    ensures PcOf(Do(s, op), id) == Over(Pass)
    ensures Do(s, op).memory == TwoCount.(echo := Some(Echo(id, 1, 10 * BURST_WINDOW)))
  {
  }

  lemma {:induction false} EndsDone(n: nat, k: nat)
    requires 1 <= n && k <= n + 1
    ensures DoAll(Start, Ends(n, k)).memory
            == TwoCount.(echo := if k == 0 then None else Some(Echo(k - 1, 1, 10 * BURST_WINDOW)))
    ensures forall i: nat :: PcOf(DoAll(Start, Ends(n, k)), i) == EndedPc(n, k, i)
  {
    if k == 0 {
      WritesDone(n, n);
      forall i: nat ensures PcOf(DoAll(Start, Ends(n, k)), i) == EndedPc(n, k, i) {
        assert PcOf(DoAll(Start, Writes(n, n)), i) == WrittenPc(n, n, i);
      }
    } else {
      EndsDone(n, k - 1);
      var s, op := DoAll(Start, Ends(n, k - 1)), At0(k - 1);
      DoMore(Ends(n, k - 1), op);
      assert PcOf(s, k - 1) == EndedPc(n, k - 1, k - 1) == WrittenPc(n, n, k - 1);
      FinishPasses(s, op, if k == 1 then 1 else 2, k - 1);
      forall i: nat ensures PcOf(Do(s, op), i) == EndedPc(n, k, i) {
        assert PcOf(s, i) == EndedPc(n, k - 1, i);
        if i != k - 1 { DoOthers(s, op, i); }
      }
    }
  }

  lemma {:induction false} AllAtOnce(n: nat, k: nat)
    ensures forall i :: 0 <= i < |Ends(n, k)| ==> Ends(n, k)[i].at == 0 && Ends(n, k)[i].lives == BURST_WINDOW
  {
    if k > 0 { AllAtOnce(n, k - 1); } else { WritesAtOnce(n, n); }
  }

  lemma {:induction false} WritesAtOnce(n: nat, k: nat)
    ensures forall i :: 0 <= i < |Writes(n, k)| ==> Writes(n, k)[i].at == 0 && Writes(n, k)[i].lives == BURST_WINDOW
  {
    if k > 0 { WritesAtOnce(n, k - 1); } else { ReadsAtOnce(n); }
  }

  lemma {:induction false} ReadsAtOnce(k: nat)
    ensures forall i :: 0 <= i < |Reads(k)| ==> Reads(k)[i].at == 0 && Reads(k)[i].lives == BURST_WINDOW
  {
    if k > 0 { ReadsAtOnce(k - 1); }
  }

  function Overlapping(n: nat): seq<Op> { Ends(n, n + 1) }

  /** The bound needs bumps that do not interleave: of any number of messages checked at one instant,
      their texts all different and the counter kept for its window, all may pass. */
  lemma NoBoundWithOverlap(n: nat)
    requires n >= 1
    ensures forall i: nat :: i <= n ==> PcOf(DoAll(Start, Overlapping(n)), i) == Over(Pass)
    ensures forall i :: 0 <= i < |Overlapping(n)| ==>
              Overlapping(n)[i].at == 0 && Overlapping(n)[i].lives == BURST_WINDOW
  {
    EndsDone(n, n + 1);
    AllAtOnce(n, n + 1);
  }
}
