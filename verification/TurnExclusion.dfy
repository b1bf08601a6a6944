/** Mutual exclusion of the turn lock, for every run: crashes, timeouts and expired keys included. */
module TurnExclusion {
  import opened TurnQueue

  /** Program points between a successful acquire and the release that follows it. */
  predicate HoldsLease(pc: Pc) {
    match pc
    case Ranking(final) => final
    case Ranging(final, _) => final
    case Probing(final, _, _) => final
    case Removing(final, _, _) => final
    case GivingBack => true
    case Body(acquired) => acquired
    case Unlocking => true
    case _ => false
  }

  /** Past EXPIRE and not yet let in. */
  predicate Waiting(pc: Pc) {
    pc.Beating? || pc.Ranking? || pc.Ranging? || pc.Probing? || pc.Removing?
    || pc.Locking? || pc.GivingBack? || pc.Resting?
  }

  predicate Finished(pc: Pc) { pc == Forgetting || pc == Done }

  /** The body is behind the turn, or it has crashed. */
  predicate Over(pc: Pc) { pc == Leaving || Finished(pc) || pc == Crashed }

  predicate NotJoined(pc: Pc) { pc == Starting || pc == Announced }

  /** In line without having taken the lock. */
  predicate OnlyWaits(pc: Pc) {
    pc == Enqueued || (Waiting(pc) && !HoldsLease(pc))
  }

  // ------------------------------------------------------------ what one command changes

  /** How a program point may move, seen by the other turns. */
  predicate PcStep(pc: Pc, pc': Pc) {
    && (NotJoined(pc) ==> NotJoined(pc') || pc' == Enqueued || pc' == Crashed)
    && (!NotJoined(pc) ==> !NotJoined(pc'))
    && (OnlyWaits(pc) ==> OnlyWaits(pc') || HoldsLease(pc') || pc' == Body(false) || pc' == Crashed)
    && (Waiting(pc') ==> Waiting(pc) || pc == Enqueued)
    && (Finished(pc) ==> Finished(pc') || pc' == Crashed)
    && (pc' == Done ==> Finished(pc))
    && (Over(pc) ==> Over(pc'))
    && (pc == Crashed ==> pc' == Crashed)
  }

  /** Only an acquire on a free lock takes it, and only its owner frees it; it does so on its way out. */
  predicate LockStep(s: State, s': State, t: Ticket)
    requires t in s.turns && t in s'.turns
  {
    var turn, turn' := s.turns[t], s'.turns[t];
    if turn.pc == Locking && !LockTaken(s) then
      turn'.pc == Ranking(true) && turn'.lease == s.now + LOCK_TTL && s'.lock == Held(t, turn'.lease)
    else
      && turn'.lease == turn.lease
      && (HoldsLease(turn'.pc) ==> HoldsLease(turn.pc))
      && (HoldsLease(turn.pc) && !HoldsLease(turn'.pc) ==> !LockedBy(s', t))
      && (s'.lock == s.lock || (s'.lock == Free && LockedBy(s, t) && !HoldsLease(turn'.pc)
                                && (turn.pc == GivingBack || turn.pc == Unlocking)))
  }

  /** What an action of `t` may change in the turns. */
  predicate Move(s: State, s': State, t: Ticket) {
    && t in s.turns && s'.now == s.now && s'.turns.Keys == s.turns.Keys
    && (forall u :: u in s.turns && u != t ==> s'.turns[u] == s.turns[u])
    && s'.turns[t].start == s.turns[t].start
    && (s'.turns[t].tested == s.turns[t].tested
        || (s'.turns[t].tested == s.now && s.now < s.turns[t].start + WAIT_SECONDS))
    && PcStep(s.turns[t].pc, s'.turns[t].pc)
  }

  /** Everything a command of `t` changes besides the line and the heartbeats. */
  predicate Effect(s: State, s': State, t: Ticket) {
    Move(s, s', t) && LockStep(s, s', t)
  }

  predicate Scanning(pc: Pc) {
    pc.Ranking? || pc.Ranging? || pc.Probing? || pc.Removing?
  }

  lemma RankEffect(s: State, t: Ticket)
    requires t in s.turns && s.turns[t].pc.Ranking?
    ensures Effect(s, RunTurn(s, t), t)
  {
  }

  lemma RangeEffect(s: State, t: Ticket)
    requires t in s.turns && s.turns[t].pc.Ranging?
    ensures Effect(s, RunTurn(s, t), t)
  {
  }

  lemma ProbeEffect(s: State, t: Ticket)
    requires t in s.turns && s.turns[t].pc.Probing?
    ensures Effect(s, RunTurn(s, t), t)
  {
  }

  lemma RemoveEffect(s: State, t: Ticket)
    requires t in s.turns && s.turns[t].pc.Removing?
    ensures Effect(s, RunTurn(s, t), t)
  {
  }

  lemma ScanEffect(s: State, t: Ticket)
    requires t in s.turns && Scanning(s.turns[t].pc)
    ensures Effect(s, RunTurn(s, t), t)
  {
    if s.turns[t].pc.Ranking? { RankEffect(s, t); }
    else if s.turns[t].pc.Ranging? { RangeEffect(s, t); }
    else if s.turns[t].pc.Probing? { ProbeEffect(s, t); }
    else { RemoveEffect(s, t); }
  }

  lemma LockEffect(s: State, t: Ticket)
    requires t in s.turns
    requires s.turns[t].pc in {Locking, GivingBack, Unlocking, Resting}
    ensures Effect(s, RunTurn(s, t), t)
  {
    match s.turns[t].pc
    case Locking =>
    case GivingBack =>
    case Unlocking =>
    case Resting =>
  }

  lemma TurnEffect(s: State, t: Ticket)
    requires t in s.turns
    ensures Effect(s, RunTurn(s, t), t)
  {
    if Scanning(s.turns[t].pc) {
      ScanEffect(s, t);
    } else if s.turns[t].pc in {Locking, GivingBack, Unlocking, Resting} {
      LockEffect(s, t);
    } else {
      match s.turns[t].pc
      case Starting =>
      case Announced =>
      case Enqueued =>
      case Beating =>
      case Leaving =>
      case Forgetting =>
      case Body(_) =>
      case Done =>
      case Crashed =>
    }
  }

  // ------------------------------------------------------------ mutual exclusion

  /** A turn that acquired or extended less than `LOCK_TTL` ago is the one in the lock. */
  predicate LeaseIsLock(s: State) {
    forall t :: t in s.turns && HoldsLease(s.turns[t].pc) && s.now < s.turns[t].lease ==>
      s.lock == Held(t, s.turns[t].lease)
  }

  lemma LeaseKept(s: State, a: Action)
    requires LeaseIsLock(s)
    ensures LeaseIsLock(Apply(s, a))
  {
    match a
    case Run(t) => if t in s.turns { TurnEffect(s, t); LeaseKeptByTurn(s, RunTurn(s, t), t); }
    case _ =>
  }

  lemma LeaseKeptByTurn(s: State, s': State, t: Ticket)
    requires LeaseIsLock(s) && Effect(s, s', t)
    ensures LeaseIsLock(s')
  {
  }

  lemma {:induction false} LeaseAlways(actions: seq<Action>)
    ensures LeaseIsLock(Play(actions))
  {
    if actions != [] {
      LeaseAlways(actions[..|actions| - 1]);
      LeaseKept(Play(actions[..|actions| - 1]), actions[|actions| - 1]);
    }
  }

  /** Two turns that are both in their body with the lock, and renewed within its life, are one. */
  lemma MutualExclusion(actions: seq<Action>, t: Ticket, u: Ticket)
    requires var s := Play(actions);
             && InBody(s, t) && s.now < s.turns[t].lease
             && InBody(s, u) && s.now < s.turns[u].lease
    ensures t == u
  {
    LeaseAlways(actions);
  }

  /** The turn an action belongs to. */
  predicate ActionOf(a: Action, t: Ticket) {
    !a.Advance? && a.t == t
  }

  /** Whatever a turn does, it leaves alone a lock that another turn holds; its own live lock goes
      away only when it releases it. */
  lemma ForeignLockUntouched(s: State, a: Action, t: Ticket)
    requires ActionOf(a, t)
    ensures LockTaken(s) && s.lock.owner != t ==> Apply(s, a).lock == s.lock
    ensures LockedBy(s, t) && t in s.turns ==>
              (Apply(s, a).lock == Free <==> a == Run(t) && s.turns[t].pc in {GivingBack, Unlocking})
  {
    if a == Run(t) && t in s.turns { TurnEffect(s, t); }
  }

  // ------------------------------------------------------------ nobody walks off with the lock

  /** A live lock belongs to a turn between its acquire and its release, or to one that crashed. */
  ghost predicate OwnerHolds(s: State) {
    forall t :: LockedBy(s, t) ==> t in s.turns && (HoldsLease(s.turns[t].pc) || s.turns[t].pc == Crashed)
  }

  lemma OwnerHoldsByTurn(s: State, s': State, t: Ticket)
    requires OwnerHolds(s) && Effect(s, s', t)
    ensures OwnerHolds(s')
  {
    if s'.lock.Held? && s'.lock == s.lock { assert LockedBy(s, s.lock.owner) <==> LockedBy(s', s.lock.owner); }
  }

  lemma OwnerHoldsKept(s: State, a: Action)
    requires OwnerHolds(s)
    ensures OwnerHolds(Apply(s, a))
  {
    if a.Run? {
      if a.t in s.turns { TurnEffect(s, a.t); OwnerHoldsByTurn(s, RunTurn(s, a.t), a.t); }
    } else if s.lock.Held? && s.now < s.lock.until {
      assert LockedBy(s, s.lock.owner);
    }
  }

  lemma {:induction false} OwnerHoldsAlways(actions: seq<Action>)
    ensures OwnerHolds(Play(actions))
  {
    if actions != [] {
      OwnerHoldsAlways(actions[..|actions| - 1]);
      OwnerHoldsKept(Play(actions[..|actions| - 1]), actions[|actions| - 1]);
    }
  }

  /** The lease a turn believes in is a real time: it ends `LOCK_TTL` after an acquire or extend at
      the latest, so a crashed owner blocks the others no longer than that. */
  predicate LeaseBounded(s: State) {
    && (s.lock.Held? ==> s.lock.until <= s.now + LOCK_TTL)
    && forall t :: t in s.turns ==> s.turns[t].lease <= s.now + LOCK_TTL && s.turns[t].start <= s.now
  }

  lemma LeaseBoundedKept(s: State, a: Action)
    requires LeaseBounded(s)
    ensures LeaseBounded(Apply(s, a))
  {
    match a
    case Run(t) => if t in s.turns { TurnEffect(s, t); LeaseBoundedByTurn(s, RunTurn(s, t), t); }
    case _ =>
  }

  lemma LeaseBoundedByTurn(s: State, s': State, t: Ticket)
    requires LeaseBounded(s) && Effect(s, s', t)
    ensures LeaseBounded(s')
  {
  }

  lemma {:induction false} LeaseBoundedAlways(actions: seq<Action>)
    ensures LeaseBounded(Play(actions))
  {
    if actions != [] {
      LeaseBoundedAlways(actions[..|actions| - 1]);
      LeaseBoundedKept(Play(actions[..|actions| - 1]), actions[|actions| - 1]);
    }
  }

  // ------------------------------------------------------------ how long a turn waits

  /** Every deadline test a turn has passed was before its deadline. */
  predicate Tested(s: State) {
    forall t :: t in s.turns ==> s.turns[t].tested < s.turns[t].start + WAIT_SECONDS
  }

  lemma TestedKept(s: State, a: Action)
    requires Tested(s)
    ensures Tested(Apply(s, a))
  {
    match a
    case Run(t) => if t in s.turns { TurnEffect(s, t); }
    case _ =>
  }

  lemma {:induction false} TestedAlways(actions: seq<Action>)
    ensures Tested(Play(actions))
  {
    if actions != [] {
      TestedAlways(actions[..|actions| - 1]);
      TestedKept(Play(actions[..|actions| - 1]), actions[|actions| - 1]);
    }
  }

  /** On every run: a turn that comes to its next deadline test within the life of a lock stops waiting
      within the life that its EXPIRE gives the queue key. */
  lemma WaitsWithinQueueLife(actions: seq<Action>, t: Ticket)
    requires t in Play(actions).turns && Play(actions).now < Play(actions).turns[t].tested + LOCK_TTL
    ensures Play(actions).now < Play(actions).turns[t].start + QUEUE_TTL
  {
    TestedAlways(actions);
  }
}
