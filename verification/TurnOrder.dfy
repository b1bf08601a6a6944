/** Turns run in the order of their tickets: while heartbeats and leases are kept up and nobody runs
    past its deadline, a turn is let in only after everybody before it has finished. */
module TurnOrder {
  import opened TurnQueue
  import opened TurnExclusion

  // ------------------------------------------------------------ hypotheses on a run

  predicate FinalScan(pc: Pc) {
    HoldsLease(pc) && (pc.Ranking? || pc.Ranging? || pc.Probing? || pc.Removing?)
  }

  /** What the code counts on: heartbeats of turns in line are fresh, a waiter comes from one deadline test
      to the next within the life of a lock, EXPIRE follows ZADD before the key expires, leases are
      renewed in time, nobody gives up waiting, and whoever joins the line ahead of a turn after the
      ZRANK of its final head check still has a heartbeat while that check lasts. Turns may crash at
      any time. */
  ghost predicate Timely(s: State) {
    && (forall t :: t in s.turns && s.turns[t].pc != Crashed && t in s.queue ==> Alive(s, t))
    && (forall t :: t in s.turns && Waiting(s.turns[t].pc) ==> s.now < s.turns[t].tested + LOCK_TTL)
    && (forall t :: t in s.turns && s.turns[t].pc == Enqueued ==> t in s.queue)
    && (forall t :: t in s.turns && HoldsLease(s.turns[t].pc) ==> s.now < s.turns[t].lease)
    && (forall t :: t in s.turns ==> s.turns[t].pc != Body(false))
    && (forall t, n :: t in s.turns && FinalScan(s.turns[t].pc) && !s.turns[t].pc.Ranking? && Newcomer(s, t, n) ==>
          n in s.turns && Alive(s, n))
  }

  /** In line ahead of `t`, but not yet there at `t`'s last ZRANK. */
  predicate Newcomer(s: State, t: Ticket, n: Ticket)
    requires t in s.turns
  {
    n in s.queue && Before(n, t) && n !in s.turns[t].ahead
  }

  // ------------------------------------------------------------ invariants

  /** Out of the line, or dead in it. */
  predicate Departed(s: State, x: Ticket) {
    x in s.turns && !NotJoined(s.turns[x].pc)
    && (x !in s.queue || (s.turns[x].pc == Crashed && !Alive(s, x)))
  }

  predicate Standing(s: State, x: Ticket) {
    x in s.queue && x in s.turns && s.turns[x].pc != Crashed
  }

  /** In line, and an EXISTS will find it: it runs, or its heartbeat has outlived it. */
  predicate InSight(s: State, x: Ticket) {
    x in s.queue && x in s.turns && (s.turns[x].pc != Crashed || Alive(s, x))
  }

  predicate QueueInv(s: State) {
    && Sorted(s.queue)
    && MembersOk(s)
    && (forall t :: t in s.turns && Waiting(s.turns[t].pc) ==>
          t in s.queue && s.queueUntil.At? && s.turns[t].start + QUEUE_TTL <= s.queueUntil.time)
  }

  predicate ListOk(s: State, pc: Pc) {
    match pc
    case Probing(_, rest, _) => rest != [] && forall x :: x in rest ==> Joined(s, x)
    case Removing(_, rest, _) =>
      rest != [] && Departed(s, rest[0]) && forall x :: x in rest ==> Joined(s, x)
    case _ => true
  }

  predicate Joined(s: State, x: Ticket) {
    x in s.turns && !NotJoined(s.turns[x].pc)
  }

  predicate ListInv(s: State) {
    forall t :: t in s.turns ==> ListOk(s, s.turns[t].pc)
  }

  /** `w` is in the list still to be probed and will make the scan of `t` see somebody alive. */
  predicate Stops(s: State, t: Ticket, b: Ticket, w: Ticket)
    requires t in s.turns
  {
    InSight(s, w) && (w == b || Newcomer(s, t, w))
  }

  ghost predicate ScanOk(s: State, t: Ticket)
    requires t in s.turns
  {
    && (forall n :: Newcomer(s, t, n) ==>
          n in s.turns && (OnlyWaits(s.turns[n].pc) || s.turns[n].pc == Crashed))
    && (forall b :: b in s.turns[t].ahead ==>
          Before(b, t) && b in s.turns
          && (b in s.queue || Finished(s.turns[b].pc) || s.turns[b].pc == Crashed))
    && (s.turns[t].pc.Ranging? ==> |s.turns[t].ahead| == s.turns[t].pc.rank)
    && (s.turns[t].pc.Probing? || s.turns[t].pc.Removing? ==>
          s.turns[t].pc.aliveAhead || forall b :: b in s.turns[t].ahead && Standing(s, b) ==>
            exists w :: w in s.turns[t].pc.rest && Stops(s, t, b, w))
  }

  ghost predicate ScanInv(s: State) {
    forall t :: t in s.turns && FinalScan(s.turns[t].pc) && !s.turns[t].pc.Ranking? ==> ScanOk(s, t)
  }

  ghost predicate OrderInv(s: State) {
    QueueInv(s) && ListInv(s) && ScanInv(s) && LeaseIsLock(s) && LeaseBounded(s) && Tested(s)
  }

  // ------------------------------------------------------------ what one command changes

  /** How the line itself moves: ZADD adds the turn, ZREM takes out the turn or the dead it found. */
  predicate QueueStep(s: State, s': State, t: Ticket)
    requires t in s.turns && t in s'.turns
  {
    var pc, pc' := s.turns[t].pc, s'.turns[t].pc;
    && (forall x :: x in s'.queue && x !in s.queue ==> x == t && pc == Announced && pc' == Enqueued)
    && (forall x :: x in s.queue && x !in s'.queue ==>
          (x == t && pc == Leaving && pc' == Forgetting)
          || (pc.Removing? && pc.rest != [] && x == pc.rest[0]))
    && (pc' == Enqueued && pc != Enqueued ==> t in s'.queue)
    && (pc' == Forgetting && pc != Forgetting ==> t !in s'.queue)
    && (s'.queue != [] ==> s'.queueUntil == s.queueUntil || s'.queueUntil == At(s.now + QUEUE_TTL))
    && (pc == Enqueued && Waiting(pc') && s'.queue != [] ==> s'.queueUntil == At(s.now + QUEUE_TTL))
  }

  lemma QueueFrame(s: State, t: Ticket)
    requires t in s.turns && Sorted(s.queue)
    ensures Sorted(RunTurn(s, t).queue)
    ensures QueueStep(s, RunTurn(s, t), t)
  {
    match s.turns[t].pc
    case Announced => InsertKeepsOrder(s.queue, t);
    case Removing(_, rest, _) => if rest != [] { RemoveKeepsOrder(s.queue, rest[0]); }
    case Leaving => RemoveKeepsOrder(s.queue, t);
    case _ =>
  }

  /** Nobody sets another turn's heartbeat, and a crashed turn none. */
  ghost predicate BeatStep(s: State, s': State, t: Ticket)
    requires t in s.turns
  {
    && (forall x :: x != t ==> (Alive(s', x) <==> Alive(s, x)))
    && (s.turns[t].pc == Crashed && Alive(s', t) ==> Alive(s, t))
  }

  lemma BeatFrame(s: State, t: Ticket)
    requires t in s.turns
    ensures BeatStep(s, RunTurn(s, t), t)
  {
  }

  /** An action of `t` that is neither its arrival nor a tick of the clock. */
  ghost predicate Step(s: State, s': State, t: Ticket) {
    && Move(s, s', t)
    && QueueStep(s, s', t)
    && BeatStep(s, s', t)
    && Sorted(s'.queue)
  }

  lemma RunIsStep(s: State, t: Ticket)
    requires Sorted(s.queue) && t in s.turns
    ensures Step(s, RunTurn(s, t), t)
  {
    TurnEffect(s, t);
    QueueFrame(s, t);
    BeatFrame(s, t);
  }

  lemma OtherIsStep(s: State, a: Action, t: Ticket)
    requires Sorted(s.queue) && ActionOf(a, t) && !a.Arrive? && !a.Run? && t in s.turns
    ensures Step(s, Apply(s, a), t)
  {
  }

  lemma ActionIsStep(s: State, a: Action, t: Ticket)
    requires Sorted(s.queue) && ActionOf(a, t) && !a.Arrive? && t in s.turns
    ensures Step(s, Apply(s, a), t)
  {
    if a.Run? { RunIsStep(s, t); } else { OtherIsStep(s, a, t); }
  }

  // ------------------------------------------------------------ the line

  /** A member in sight leaves the line only by its own ZREM at the end. */
  lemma LeavesOnlyWhenDone(s: State, s': State, t: Ticket, x: Ticket)
    requires ListInv(s) && Step(s, s', t)
    requires InSight(s, x) && x !in s'.queue
    ensures x == t && s.turns[t].pc == Leaving && s'.turns[t].pc == Forgetting
  {
    if s.turns[t].pc.Removing? { assert ListOk(s, s.turns[t].pc); }
  }

  lemma WaiterStaysInLine(s: State, s': State, t: Ticket, u: Ticket)
    requires ListInv(s) && LeaseBounded(s) && Step(s, s', t) && u in s'.turns && Waiting(s'.turns[u].pc)
    requires Waiting(s.turns[u].pc) ==>
               u in s.queue && s.queueUntil.At? && s.turns[u].start + QUEUE_TTL <= s.queueUntil.time
    requires s.turns[u].pc == Enqueued ==> u in s.queue
    ensures u in s'.queue && s'.queueUntil.At? && s'.turns[u].start + QUEUE_TTL <= s'.queueUntil.time
  {
    assert u != t ==> s'.turns[u] == s.turns[u];
    assert Standing(s, u);
    if u !in s'.queue { LeavesOnlyWhenDone(s, s', t, u); }
  }

  lemma QueueInvStep(s: State, s': State, t: Ticket)
    requires OrderInv(s) && Timely(s) && Step(s, s', t)
    ensures QueueInv(s')
  {
    forall u | u in s'.turns && Waiting(s'.turns[u].pc)
      ensures u in s'.queue && s'.queueUntil.At? && s'.turns[u].start + QUEUE_TTL <= s'.queueUntil.time
    {
      WaiterStaysInLine(s, s', t, u);
    }
    MembersStep(s, s', t);
  }

  predicate MembersOk(s: State) {
    forall x :: x in s.queue ==> Joined(s, x) && !Finished(s.turns[x].pc)
  }

  lemma MembersStep(s: State, s': State, t: Ticket)
    requires MembersOk(s) && Step(s, s', t)
    ensures MembersOk(s')
  {
  }

  lemma QueueInvPass(s: State, to: real)
    requires OrderInv(s) && s.now <= to && Timely(Pass(s, to))
    ensures QueueInv(Pass(s, to))
    ensures (exists t :: t in s.turns && Waiting(s.turns[t].pc)) ==> Pass(s, to).queue == s.queue
  {
  }

  // ------------------------------------------------------------ the lists of the scans

  lemma ListOkStep(s: State, s': State, t: Ticket, pc: Pc)
    requires OrderInv(s) && Step(s, s', t) && ListOk(s, pc)
    ensures ListOk(s', pc)
  {
    if pc.Removing? { DepartedStays(s, s', t, pc.rest[0]); }
  }

  /** The list a scan goes on with comes from the line or from the list before; and only somebody
      found dead is removed. */
  lemma ListOkSelf(s: State, t: Ticket)
    requires t in s.turns && ListOk(s, s.turns[t].pc) && MembersOk(s)
    requires forall x :: Standing(s, x) ==> Alive(s, x)
    ensures ListOk(s, RunTurn(s, t).turns[t].pc)
  {
    match s.turns[t].pc
    case Ranging(_, _) =>
    case Probing(_, rest, _) => assert rest[0] in rest;
    case Removing(_, _, _) =>
    case Starting =>
    case Announced =>
    case Enqueued =>
    case Beating =>
    case Ranking(_) =>
    case Locking =>
    case GivingBack =>
    case Resting =>
    case Unlocking =>
    case Leaving =>
    case _ =>
  }

  lemma DepartedStays(s: State, s': State, t: Ticket, x: Ticket)
    requires QueueInv(s) && Step(s, s', t) && Departed(s, x)
    ensures Departed(s', x)
  {
  }

  lemma ListInvStep(s: State, a: Action, t: Ticket)
    requires OrderInv(s) && Timely(s) && ActionOf(a, t) && !a.Arrive? && t in s.turns
    ensures ListInv(Apply(s, a))
  {
    var s' := Apply(s, a);
    ActionIsStep(s, a, t);
    if a.Run? { ListOkSelf(s, t); }
    forall u | u in s'.turns ensures ListOk(s', s'.turns[u].pc) {
      if u != t {
        ListOkStep(s, s', t, s.turns[u].pc);
      } else if ListOk(s, s'.turns[t].pc) {
        ListOkStep(s, s', t, s'.turns[t].pc);
      }
    }
  }

  // ------------------------------------------------------------ the final head check

  /** While `t` makes its final check nobody else has the lock. */
  lemma NobodyElseHolds(s: State, t: Ticket, u: Ticket)
    requires LeaseIsLock(s) && Timely(s) && t in s.turns && FinalScan(s.turns[t].pc)
    requires u in s.turns && HoldsLease(s.turns[u].pc)
    ensures u == t
  {
  }

  /** The scan of `t` survives a step of another turn `u`. */
  lemma ScanOkOther(s: State, s': State, t: Ticket, u: Ticket)
    requires OrderInv(s) && Timely(s) && LeaseIsLock(s') && Timely(s') && Step(s, s', u) && u != t
    requires t in s.turns && FinalScan(s.turns[t].pc) && ScanOk(s, t)
    ensures ScanOk(s', t)
  {
    assert s'.turns[t] == s.turns[t];
    forall n | Newcomer(s', t, n)
      ensures n in s'.turns && (OnlyWaits(s'.turns[n].pc) || s'.turns[n].pc == Crashed)
    {
      if n == u && HoldsLease(s'.turns[u].pc) { NobodyElseHolds(s', t, u); }
      if n != u { assert Newcomer(s, t, n); }
    }
    forall b | b in s.turns[t].ahead
      ensures b in s'.turns && (b in s'.queue || Finished(s'.turns[b].pc) || s'.turns[b].pc == Crashed)
    {
      if Standing(s, b) && b !in s'.queue { LeavesOnlyWhenDone(s, s', u, b); }
    }
    if (s.turns[t].pc.Probing? || s.turns[t].pc.Removing?) && !s.turns[t].pc.aliveAhead {
      forall b | b in s'.turns[t].ahead && Standing(s', b)
        ensures exists w :: w in s'.turns[t].pc.rest && Stops(s', t, b, w)
      {
        assert Standing(s, b);
        var w :| w in s.turns[t].pc.rest && Stops(s, t, b, w);
        StopsStays(s, s', t, u, b, w);
      }
    }
  }

  lemma StopsInLine(s: State, s': State, t: Ticket, u: Ticket, b: Ticket, w: Ticket)
    requires ListInv(s) && Step(s, s', u) && t in s.turns && Stops(s, t, b, w)
    requires w == b ==> Standing(s', b)
    requires w != b ==> OnlyWaits(s.turns[w].pc) || s.turns[w].pc == Crashed
    ensures w in s'.queue && w in s'.turns
  {
    if w !in s'.queue { LeavesOnlyWhenDone(s, s', u, w); }
  }

  lemma StopsStays(s: State, s': State, t: Ticket, u: Ticket, b: Ticket, w: Ticket)
    requires ListInv(s) && Timely(s') && Step(s, s', u) && u != t
    requires t in s.turns && FinalScan(s.turns[t].pc) && !s.turns[t].pc.Ranking? && ScanOk(s, t)
    requires Stops(s, t, b, w) && Standing(s', b)
    ensures Stops(s', t, b, w)
  {
    StopsInLine(s, s', t, u, b, w);
    assert s'.turns[t] == s.turns[t];
    assert w != b ==> Newcomer(s', t, w);
  }

  /** What the final check has established after a step of its own: it goes on soundly, or it lets
      the turn in and nobody it saw ahead still stands in line. */
  ghost predicate CheckOk(s: State, t: Ticket)
    requires t in s.turns
  {
    && (FinalScan(s.turns[t].pc) && !s.turns[t].pc.Ranking? ==> ScanOk(s, t))
    && (s.turns[t].pc == Body(true) ==> forall b :: b in s.turns[t].ahead ==> !Standing(s, b))
  }

  lemma CheckStarts(s: State, t: Ticket)
    requires OrderInv(s) && t in s.turns && s.turns[t].pc == Ranking(true)
    ensures CheckOk(RunTurn(s, t), t)
    ensures RunTurn(s, t).turns[t].ahead == Lower(s.queue, t)
  {
    RankIsLowerCount(s.queue, t);
    if IndexOf(s.queue, t) == 0 { assert Lower(s.queue, t) == {}; }
  }

  lemma CheckLists(s: State, t: Ticket)
    requires OrderInv(s) && t in s.turns && FinalScan(s.turns[t].pc) && s.turns[t].pc.Ranging?
    requires Timely(s) && ScanOk(s, t)
    ensures CheckOk(RunTurn(s, t), t)
  {
    var s' := RunTurn(s, t);
    var list := Prefix(s.queue, s.turns[t].pc.rank);
    assert s'.queue == s.queue && s'.turns[t].ahead == s.turns[t].ahead;
    forall b | b in s.turns[t].ahead && Standing(s', b)
      ensures exists w :: w in list && Stops(s', t, b, w)
    {
      var w := Pigeonhole(s.queue, s.turns[t].ahead, b);
      assert w == b || Newcomer(s, t, w);
      assert Stops(s', t, b, w);
    }
  }

  /** A probe by `t`: only where `t` stands in its scan changes. */
  ghost predicate Steady(s: State, s': State, t: Ticket) {
    && t in s.turns && s'.turns.Keys == s.turns.Keys && s'.queue == s.queue
    && s'.now == s.now && s'.beats == s.beats
    && s'.turns[t].ahead == s.turns[t].ahead && s'.turns[t].pc != Crashed && s.turns[t].pc != Crashed
    && (forall x :: x in s.turns && x != t ==> s'.turns[x] == s.turns[x])
  }

  lemma StopsSteady(s: State, s': State, t: Ticket, b: Ticket, w: Ticket)
    requires Steady(s, s', t) && Stops(s, t, b, w)
    ensures Stops(s', t, b, w)
  {
  }

  lemma ProbeGoesOn(s: State, s': State, t: Ticket, rest: seq<Ticket>, aliveAhead: bool)
    requires Steady(s, s', t) && ScanOk(s, t) && rest != []
    requires s.turns[t].pc == Probing(true, rest, aliveAhead)
    requires s'.turns[t].pc == Removing(true, rest, aliveAhead) || s'.turns[t].pc == Continue(true, rest[1..], true)
    ensures CheckOk(s', t)
  {
    forall b | !aliveAhead && b in s'.turns[t].ahead && Standing(s', b)
      ensures exists w :: w in rest && Stops(s', t, b, w)
    {
      var w :| w in rest && Stops(s, t, b, w);
      StopsSteady(s, s', t, b, w);
    }
  }

  lemma CheckProbes(s: State, t: Ticket)
    requires OrderInv(s) && t in s.turns && FinalScan(s.turns[t].pc) && s.turns[t].pc.Probing?
    requires Timely(s) && ScanOk(s, t)
    ensures CheckOk(RunTurn(s, t), t)
  {
    assert ListOk(s, s.turns[t].pc);
    ProbeGoesOn(s, RunTurn(s, t), t, s.turns[t].pc.rest, s.turns[t].pc.aliveAhead);
  }

  /** A removal by `t`, in the middle of its scan. */
  ghost predicate Removal(s: State, s': State, t: Ticket, gone: Ticket) {
    && t in s.turns && s'.turns.Keys == s.turns.Keys
    && s'.now == s.now && s'.beats == s.beats
    && (forall x :: x in s'.queue <==> x in s.queue && x != gone)
    && s'.turns[t].ahead == s.turns[t].ahead && s'.turns[t].pc != Crashed && s.turns[t].pc != Crashed
    && (forall x :: x in s.turns && x != t ==> s'.turns[x] == s.turns[x])
  }

  lemma RemovalOf(s: State, t: Ticket)
    requires t in s.turns && s.turns[t].pc.Removing? && s.turns[t].pc.rest != [] && Sorted(s.queue)
    ensures Removal(s, RunTurn(s, t), t, s.turns[t].pc.rest[0])
  {
    RemoveKeepsOrder(s.queue, s.turns[t].pc.rest[0]);
  }

  lemma NewcomersKept(s: State, s': State, t: Ticket, gone: Ticket, n: Ticket)
    requires Removal(s, s', t, gone) && Newcomer(s', t, n) && Before(n, t) && n != t
    requires Newcomer(s, t, n) ==> n in s.turns && (OnlyWaits(s.turns[n].pc) || s.turns[n].pc == Crashed)
    ensures n in s'.turns && (OnlyWaits(s'.turns[n].pc) || s'.turns[n].pc == Crashed)
  {
  }

  lemma AheadKept(s: State, s': State, t: Ticket, gone: Ticket, b: Ticket)
    requires Removal(s, s', t, gone) && Departed(s, gone) && b in s.turns && b != t
    requires b in s.queue || Finished(s.turns[b].pc) || s.turns[b].pc == Crashed
    ensures b in s'.turns && (b in s'.queue || Finished(s'.turns[b].pc) || s'.turns[b].pc == Crashed)
  {
  }

  lemma StopsKept(s: State, s': State, t: Ticket, gone: Ticket, b: Ticket, w: Ticket)
    requires Removal(s, s', t, gone) && Departed(s, gone) && Stops(s, t, b, w)
    ensures w != gone && Stops(s', t, b, w)
  {
  }

  lemma CheckRemoves(s: State, t: Ticket)
    requires OrderInv(s) && t in s.turns && FinalScan(s.turns[t].pc) && s.turns[t].pc.Removing?
    requires Timely(s) && ScanOk(s, t)
    ensures CheckOk(RunTurn(s, t), t)
  {
    var Removing(final, rest, aliveAhead) := s.turns[t].pc;
    assert ListOk(s, s.turns[t].pc);
    RemovalOf(s, t);
    RemovalGoesOn(s, RunTurn(s, t), t, rest, aliveAhead);
  }

  lemma RemovalGoesOn(s: State, s': State, t: Ticket, rest: seq<Ticket>, aliveAhead: bool)
    requires t in s.turns && ScanOk(s, t) && rest != [] && Removal(s, s', t, rest[0]) && Departed(s, rest[0])
    requires s.turns[t].pc == Removing(true, rest, aliveAhead)
    requires s'.turns[t].pc == Continue(true, rest[1..], aliveAhead)
    ensures CheckOk(s', t)
  {
    forall n | Newcomer(s', t, n)
      ensures n in s'.turns && (OnlyWaits(s'.turns[n].pc) || s'.turns[n].pc == Crashed)
    {
      NewcomersKept(s, s', t, rest[0], n);
    }
    forall b | b in s'.turns[t].ahead
      ensures b in s'.turns && (b in s'.queue || Finished(s'.turns[b].pc) || s'.turns[b].pc == Crashed)
    {
      AheadKept(s, s', t, rest[0], b);
    }
    forall b | !aliveAhead && b in s'.turns[t].ahead && Standing(s', b)
      ensures exists w :: w in rest[1..] && Stops(s', t, b, w)
    {
      var w :| w in rest && Stops(s, t, b, w);
      StopsKept(s, s', t, rest[0], b, w);
    }
  }

  lemma CheckStep(s: State, t: Ticket)
    requires OrderInv(s) && Timely(s) && t in s.turns && FinalScan(s.turns[t].pc)
    ensures CheckOk(RunTurn(s, t), t)
    ensures !s.turns[t].pc.Ranking? ==> RunTurn(s, t).turns[t].ahead == s.turns[t].ahead
  {
    match s.turns[t].pc
    case Ranking(_) => CheckStarts(s, t);
    case Ranging(_, _) => CheckLists(s, t);
    case Probing(_, _, _) => CheckProbes(s, t);
    case Removing(_, _, _) => CheckRemoves(s, t);
  }

  // ------------------------------------------------------------ whole runs

  lemma ScanInvStep(s: State, a: Action, t: Ticket)
    requires OrderInv(s) && Timely(s) && Timely(Apply(s, a)) && LeaseIsLock(Apply(s, a))
    requires ActionOf(a, t) && !a.Arrive? && t in s.turns
    ensures ScanInv(Apply(s, a))
  {
    var s' := Apply(s, a);
    ActionIsStep(s, a, t);
    forall u | u in s'.turns && FinalScan(s'.turns[u].pc) && !s'.turns[u].pc.Ranking?
      ensures ScanOk(s', u)
    {
      if u != t {
        ScanOkOther(s, s', u, t);
      } else {
        ScanningBefore(s, a, t);
        if a.Run? { CheckStep(s, t); }
      }
    }
  }

  /** Only the ZRANK of a final check leads into its later commands. */
  lemma ScanningBefore(s: State, a: Action, t: Ticket)
    requires ActionOf(a, t) && !a.Arrive? && t in s.turns
    requires var pc' := Apply(s, a).turns[t].pc; FinalScan(pc') && !pc'.Ranking?
    ensures FinalScan(s.turns[t].pc)
    ensures !a.Run? ==> Apply(s, a) == s
  {
    if a.Run? { TurnEffect(s, t); }
  }

  lemma PassLists(s: State, to: real)
    requires ListInv(s) && s.now <= to
    ensures ListInv(Pass(s, to))
  {
    var s' := Pass(s, to);
    forall u | u in s'.turns ensures ListOk(s', s'.turns[u].pc) {
      assert ListOk(s, s.turns[u].pc);
    }
  }

  lemma PassScan(s: State, to: real, t: Ticket)
    requires t in s.turns && ScanOk(s, t) && Pass(s, to).queue == s.queue
    requires FinalScan(s.turns[t].pc) && !s.turns[t].pc.Ranking? && Timely(Pass(s, to))
    ensures ScanOk(Pass(s, to), t)
  {
    var s' := Pass(s, to);
    assert s'.turns == s.turns;
    if (s.turns[t].pc.Probing? || s.turns[t].pc.Removing?) && !s.turns[t].pc.aliveAhead {
      forall b | b in s'.turns[t].ahead && Standing(s', b)
        ensures exists w :: w in s'.turns[t].pc.rest && Stops(s', t, b, w)
      {
        var w :| w in s.turns[t].pc.rest && Stops(s, t, b, w);
        assert Stops(s', t, b, w);
      }
    }
  }

  lemma OrderInvPass(s: State, to: real)
    requires OrderInv(s) && s.now <= to && Timely(Pass(s, to))
    ensures OrderInv(Pass(s, to))
  {
    var s' := Pass(s, to);
    QueueInvPass(s, to);
    PassLists(s, to);
    LeaseKept(s, Advance(to));
    TestedKept(s, Advance(to));
    LeaseBoundedKept(s, Advance(to));
    forall u | u in s'.turns && FinalScan(s'.turns[u].pc) && !s'.turns[u].pc.Ranking?
      ensures ScanOk(s', u)
    {
      PassScan(s, to, u);
    }
  }

  lemma OrderInvArrive(s: State, t: Ticket)
    requires OrderInv(s) && t !in s.turns
    ensures OrderInv(Apply(s, Arrive(t)))
  {
    var s' := Apply(s, Arrive(t));
    LeaseKept(s, Arrive(t));
    TestedKept(s, Arrive(t));
    forall u | u in s'.turns ensures ListOk(s', s'.turns[u].pc) {
      if u != t { assert ListOk(s, s.turns[u].pc); }
    }
    forall u | u in s'.turns && FinalScan(s'.turns[u].pc) && !s'.turns[u].pc.Ranking?
      ensures ScanOk(s', u)
    {
      ArriveScan(s, t, u);
    }
  }

  lemma ArriveScan(s: State, t: Ticket, u: Ticket)
    requires t !in s.turns && u in s.turns && ScanOk(s, u)
    ensures ScanOk(Apply(s, Arrive(t)), u)
  {
    var s' := Apply(s, Arrive(t));
    assert forall x :: x in s.turns ==> s'.turns[x] == s.turns[x];
    if (s.turns[u].pc.Probing? || s.turns[u].pc.Removing?) && !s.turns[u].pc.aliveAhead {
      forall b | b in s'.turns[u].ahead && Standing(s', b)
        ensures exists w :: w in s'.turns[u].pc.rest && Stops(s', u, b, w)
      {
        var w :| w in s.turns[u].pc.rest && Stops(s, u, b, w);
        assert Stops(s', u, b, w);
      }
    }
  }

  lemma OrderInvKept(s: State, a: Action)
    requires OrderInv(s) && Timely(s) && Timely(Apply(s, a))
    ensures OrderInv(Apply(s, a))
  {
    match a
    case Advance(to) => if s.now <= to { OrderInvPass(s, to); }
    case Arrive(t) => if t !in s.turns { OrderInvArrive(s, t); }
    case _ =>
      var t := a.t;
      if t in s.turns {
        LeaseKept(s, a);
        LeaseBoundedKept(s, a);
        TestedKept(s, a);
        ActionIsStep(s, a, t);
        QueueInvStep(s, Apply(s, a), t);
        ListInvStep(s, a, t);
        ScanInvStep(s, a, t);
      }
  }

  ghost predicate TimelyAt(actions: seq<Action>, k: nat)
    requires k <= |actions|
  {
    Timely(Play(actions[..k]))
  }

  ghost predicate TimelyRun(actions: seq<Action>) {
    forall k :: 0 <= k <= |actions| ==> TimelyAt(actions, k)
  }

  lemma {:induction false} OrderAlways(actions: seq<Action>)
    requires TimelyRun(actions)
    ensures OrderInv(Play(actions))
  {
    if actions != [] {
      var n := |actions| - 1;
      PrefixTimely(actions, n);
      OrderAlways(actions[..n]);
      assert TimelyAt(actions, n) && TimelyAt(actions, n + 1);
      assert actions[..n + 1] == actions;
      OrderInvKept(Play(actions[..n]), actions[n]);
    }
  }

  predicate CheckingAt(actions: seq<Action>, a: Ticket, j: nat)
    requires j <= |actions|
  {
    a in Play(actions[..j]).turns && FinalScan(Play(actions[..j]).turns[a].pc)
  }

  /** The check of `a` that began at `i` is still going on after every action up to `k`. */
  ghost predicate StillChecking(actions: seq<Action>, a: Ticket, i: nat, k: nat)
    requires k <= |actions|
  {
    forall j :: i <= j <= k ==> CheckingAt(actions, a, j)
  }

  lemma PlayNext(actions: seq<Action>, k: nat)
    requires k < |actions|
    ensures Play(actions[..k + 1]) == Apply(Play(actions[..k]), actions[k])
  {
    assert actions[..k + 1][..k] == actions[..k];
  }

  lemma CheckingStep(actions: seq<Action>, k: nat, a: Ticket)
    requires TimelyRun(actions) && k < |actions| && CheckingAt(actions, a, k) && CheckingAt(actions, a, k + 1)
    requires Play(actions[..k]).turns[a].pc.Ranking? ==> actions[k] == Run(a)
    ensures !Play(actions[..k + 1]).turns[a].pc.Ranking?
    ensures Play(actions[..k + 1]).turns[a].ahead == Ahead(Play(actions[..k]), a)
  {
    PrefixTimely(actions, k);
    OrderAlways(actions[..k]);
    PlayNext(actions, k);
    assert TimelyAt(actions, k);
    AheadStep(Play(actions[..k]), actions[k], a);
  }

  /** In the middle of a final check, `ahead` is still what ZRANK saw. */
  lemma {:induction false} AheadFixed(actions: seq<Action>, a: Ticket, i: nat, k: nat)
    requires i < k <= |actions| && TimelyRun(actions) && StillChecking(actions, a, i, k)
    requires CheckingAt(actions, a, i) && CheckingAt(actions, a, k)
    requires Play(actions[..i]).turns[a].pc == Ranking(true)
    requires actions[i] == Run(a)
    ensures Play(actions[..k]).turns[a].ahead == Lower(Play(actions[..i]).queue, a)
    ensures !Play(actions[..k]).turns[a].pc.Ranking?
  {
    assert CheckingAt(actions, a, k - 1);
    if k > i + 1 { AheadFixed(actions, a, i, k - 1); }
    CheckingStep(actions, k - 1, a);
  }

  lemma AheadStep(s: State, act: Action, a: Ticket)
    requires OrderInv(s) && Timely(s) && a in s.turns && FinalScan(s.turns[a].pc)
    requires s.turns[a].pc.Ranking? ==> act == Run(a)
    requires a in Apply(s, act).turns && FinalScan(Apply(s, act).turns[a].pc)
    ensures !Apply(s, act).turns[a].pc.Ranking?
    ensures Apply(s, act).turns[a].ahead == Ahead(s, a)
  {
    if act == Run(a) {
      CheckStep(s, a);
      NotRankingAfter(s, a);
      if s.turns[a].pc.Ranking? { CheckStarts(s, a); }
    } else {
      AheadByOthers(s, act, a);
    }
  }

  /** Who counts as ahead of `a` in its current head check. */
  function Ahead(s: State, a: Ticket): set<Ticket>
    requires a in s.turns
  {
    if s.turns[a].pc.Ranking? then Lower(s.queue, a) else s.turns[a].ahead
  }

  lemma PrefixTimely(actions: seq<Action>, k: nat)
    requires TimelyRun(actions) && k <= |actions|
    ensures TimelyRun(actions[..k])
  {
    forall j | 0 <= j <= k ensures TimelyAt(actions[..k], j) {
      assert actions[..k][..j] == actions[..j];
      assert TimelyAt(actions, j);
    }
  }

  lemma NotRankingAfter(s: State, a: Ticket)
    requires a in s.turns && FinalScan(s.turns[a].pc)
    ensures !RunTurn(s, a).turns[a].pc.Ranking?
  {
    match s.turns[a].pc
    case Ranking(_) =>
    case Ranging(_, _) =>
    case Probing(_, _, _) =>
    case Removing(_, _, _) =>
  }

  lemma AheadByOthers(s: State, act: Action, a: Ticket)
    requires a in s.turns && act != Run(a)
    ensures a in Apply(s, act).turns && Apply(s, act).turns[a].ahead == s.turns[a].ahead
    ensures FinalScan(s.turns[a].pc) && FinalScan(Apply(s, act).turns[a].pc) ==>
              Apply(s, act).turns[a].pc == s.turns[a].pc
  {
    if act.Run? && act.t in s.turns { TurnEffect(s, act.t); }
  }

  /** The final check of `a` begins with action `i`, a ZRANK that sees `b` in line before `a`. */
  predicate SeenAhead(actions: seq<Action>, i: nat, a: Ticket, b: Ticket)
    requires i < |actions|
  {
    CheckingAt(actions, a, i) && Play(actions[..i]).turns[a].pc == Ranking(true) && actions[i] == Run(a)
    && b in Play(actions[..i]).queue && Before(b, a)
  }

  /** `b` has finished its body and left the line, or has crashed. */
  predicate IsThrough(s: State, b: Ticket) {
    b in s.turns
    && (s.turns[b].pc == Crashed
        || (b !in s.queue && (s.turns[b].pc == Forgetting || s.turns[b].pc == Done)))
  }

  /** The same for a `b` that has joined by then, in line or not. */
  predicate JoinedAhead(actions: seq<Action>, i: nat, a: Ticket, b: Ticket)
    requires i < |actions|
  {
    CheckingAt(actions, a, i) && Play(actions[..i]).turns[a].pc == Ranking(true) && actions[i] == Run(a)
    && Joined(Play(actions[..i]), b) && Before(b, a)
  }

  predicate IsOver(s: State, b: Ticket) {
    b in s.turns && Over(s.turns[b].pc)
  }

  /** Who has joined and is not in line, while another turn holds the lock, has its body behind it. */
  lemma OutOfLineIsOver(s: State, a: Ticket, b: Ticket)
    requires OrderInv(s) && Timely(s) && a in s.turns && FinalScan(s.turns[a].pc)
    requires Joined(s, b) && b !in s.queue && b != a
    ensures IsOver(s, b)
  {
    if HoldsLease(s.turns[b].pc) { NobodyElseHolds(s, a, b); }
  }

  lemma OverStep(s: State, act: Action, b: Ticket)
    requires IsOver(s, b)
    ensures IsOver(Apply(s, act), b)
  {
    if act.Run? && act.t in s.turns { TurnEffect(s, act.t); }
  }

  lemma OverNext(actions: seq<Action>, k: nat, b: Ticket)
    requires k < |actions| && IsOver(Play(actions[..k]), b)
    ensures IsOver(Play(actions[..k + 1]), b)
  {
    PlayNext(actions, k);
    OverStep(Play(actions[..k]), actions[k], b);
  }

  predicate OverAt(actions: seq<Action>, k: nat, b: Ticket)
    requires k <= |actions|
  {
    IsOver(Play(actions[..k]), b)
  }

  lemma {:induction false} OverFrom(actions: seq<Action>, i: nat, k: nat, b: Ticket)
    requires i <= k <= |actions| && OverAt(actions, i, b)
    ensures OverAt(actions, k, b)
  {
    if i < k {
      OverFrom(actions, i, k - 1, b);
      OverNext(actions, k - 1, b);
    }
  }

  lemma OutOfLineAt(actions: seq<Action>, i: nat, a: Ticket, b: Ticket)
    requires TimelyRun(actions) && i < |actions| && JoinedAhead(actions, i, a, b)
    ensures SeenAhead(actions, i, a, b) || OverAt(actions, i, b)
  {
    if b !in Play(actions[..i]).queue {
      PrefixTimely(actions, i);
      OrderAlways(actions[..i]);
      assert TimelyAt(actions, i);
      OutOfLineIsOver(Play(actions[..i]), a, b);
    }
  }

  lemma ThroughIsOver(s: State, b: Ticket)
    requires IsThrough(s, b)
    ensures IsOver(s, b)
  {
  }

  /** Grant order. The final check of `a` begins with the ZRANK at action `i` and the last action
      lets `a` in: then every `b` before `a` that had joined by that ZRANK has its body behind it, or
      has crashed; and if it was in line it has left, too. */
  lemma GrantOrder(actions: seq<Action>, i: nat, a: Ticket, b: Ticket)
    requires TimelyRun(actions) && i < |actions|
    requires StillChecking(actions, a, i, |actions| - 1)
    requires JoinedAhead(actions, i, a, b)
    requires LetIn(actions, a)
    ensures IsOver(Play(actions), b)
    ensures SeenAhead(actions, i, a, b) ==> IsThrough(Play(actions), b)
  {
    OutOfLineAt(actions, i, a, b);
    if SeenAhead(actions, i, a, b) {
      GrantInLine(actions, i, |actions| - 1, a, b);
      ThroughIsOver(Play(actions), b);
    } else {
      OverFrom(actions, i, |actions|, b);
      assert actions[..|actions|] == actions;
    }
  }

  lemma GrantInLine(actions: seq<Action>, i: nat, n: nat, a: Ticket, b: Ticket)
    requires TimelyRun(actions) && i <= n && |actions| == n + 1
    requires StillChecking(actions, a, i, n) && SeenAhead(actions, i, a, b)
    requires LetIn(actions, a)
    ensures IsThrough(Play(actions), b)
  {
    AheadAtEnd(actions, i, n, a, b);
    LastGrant(actions, n, a, b);
  }

  predicate LetIn(actions: seq<Action>, a: Ticket) { InBody(Play(actions), a) }

  predicate AheadAt(actions: seq<Action>, n: nat, a: Ticket, b: Ticket)
    requires n <= |actions|
  {
    CheckingAt(actions, a, n) && b in Ahead(Play(actions[..n]), a)
  }

  lemma AheadAtEnd(actions: seq<Action>, i: nat, n: nat, a: Ticket, b: Ticket)
    requires TimelyRun(actions) && i <= n < |actions|
    requires StillChecking(actions, a, i, n) && SeenAhead(actions, i, a, b)
    ensures AheadAt(actions, n, a, b)
  {
    assert CheckingAt(actions, a, n);
    if i < n { AheadFixed(actions, a, i, n); }
  }

  lemma LastGrant(actions: seq<Action>, n: nat, a: Ticket, b: Ticket)
    requires TimelyRun(actions) && |actions| == n + 1 && AheadAt(actions, n, a, b)
    requires LetIn(actions, a)
    ensures IsThrough(Play(actions), b)
  {
    PrefixTimely(actions, n);
    OrderAlways(actions[..n]);
    PlayNext(actions, n);
    assert actions[..n + 1] == actions;
    assert TimelyAt(actions, n);
    GrantStep(Play(actions[..n]), actions[n], a, b);
  }

  lemma GrantStep(s: State, act: Action, a: Ticket, b: Ticket)
    requires OrderInv(s) && Timely(s) && a in s.turns && FinalScan(s.turns[a].pc)
    requires b in Ahead(s, a)
    requires InBody(Apply(s, act), a)
    ensures IsThrough(Apply(s, act), b)
  {
    if act != Run(a) { StaysOut(s, act, a); }
    CheckStep(s, a);
    if s.turns[a].pc.Ranking? { CheckStarts(s, a); }
    LastStep(s, RunTurn(s, a), a, b);
  }

  lemma StaysOut(s: State, act: Action, a: Ticket)
    requires a in s.turns && FinalScan(s.turns[a].pc) && act != Run(a)
    ensures !InBody(Apply(s, act), a)
  {
    if act.Run? && act.t in s.turns { TurnEffect(s, act.t); }
  }

  lemma LastStep(s: State, s': State, a: Ticket, b: Ticket)
    requires OrderInv(s) && a in s.turns && FinalScan(s.turns[a].pc) && s' == RunTurn(s, a)
    requires !Standing(s', b) && b in Ahead(s, a)
    ensures IsThrough(s', b)
  {
    TurnEffect(s, a);
    QueueFrame(s, a);
    assert ListOk(s, s.turns[a].pc);
  }
}
