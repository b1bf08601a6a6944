/** How long a turn waits: the polling loop of `_acquire_in_order` against its deadline, and why the
    queue key outlives every waiter. */
module TurnWaiting {
  import opened TurnQueue
  import opened TurnExclusion

  const POLL_SECONDS: real := 0.5
  /** Two polls a second for `WAIT_SECONDS`, and the attempt that finds the deadline passed. */
  const MAX_ATTEMPTS: nat := 301

  /** What the commands of each attempt answer and how long they take: whether the turn is the first
      one alive, whether the lock is free for it, whether it is still the first once it has the lock;
      and how long the sleep after the attempt really lasts. */
  datatype World = World(
    attempt: nat -> real, sleep: nat -> real, head: nat -> bool, free: nat -> bool, still: nat -> bool)

  /** Sleeps last at least a poll, and a sleep with the attempt after it less than the lock lives. */
  ghost predicate Prompt(w: World) {
    && w.attempt(0) < LOCK_TTL - POLL_SECONDS
    && forall k: nat :: w.attempt(k) >= 0.0 && w.sleep(k) >= POLL_SECONDS
                        && w.sleep(k) + w.attempt(k + 1) < LOCK_TTL
  }

  /** The attempt takes the lock as the first one alive and keeps it. */
  predicate Succeeds(w: World, k: nat) { w.head(k) && w.free(k) && w.still(k) }

  function Later(a: real, b: real): real { if a < b then b else a }

  /** The polling loop, from `now`, for a turn that started at `start`. It ends within the life of the
      queue key, unless what came before it has used up the wait; it leaves with the lock exactly when
      it was let in. */
  method AcquireInOrder(w: World, start: real, now: real)
    returns (acquired: bool, end: real, attempts: nat, holds: bool)
    requires Prompt(w) && start <= now
    ensures 1 <= attempts <= MAX_ATTEMPTS
    ensures acquired <==> Succeeds(w, attempts - 1)
    ensures forall k: nat :: k < attempts - 1 ==> !Succeeds(w, k)
    ensures holds == acquired
    ensures !acquired ==> end >= start + WAIT_SECONDS
    ensures now <= end < Later(now, start + WAIT_SECONDS) + LOCK_TTL
    ensures now <= start + WAIT_SECONDS ==> end < start + QUEUE_TTL
  {
    var deadline := start + WAIT_SECONDS;
    end, attempts, holds := now, 0, false;
    ghost var before := now;
    while true
      invariant attempts < MAX_ATTEMPTS && !holds
      invariant attempts > 0 ==> before < deadline && now <= before
      invariant attempts == 0 ==> before == end == now
      invariant attempts > 0 ==> end == before + w.sleep(attempts - 1)
      invariant start + attempts as real * POLL_SECONDS <= end
      invariant forall k: nat :: k < attempts ==> !Succeeds(w, k)
      decreases MAX_ATTEMPTS - attempts
    {
      end := end + w.attempt(attempts);
      var k := attempts;
      attempts := attempts + 1;
      if w.head(k) && w.free(k) {
        holds := true;
        if w.still(k) {
          return true, end, attempts, holds;
        }
        holds := false;
      }
      if end >= deadline {
        return false, end, attempts, holds;
      }
      assert k as real * POLL_SECONDS < WAIT_SECONDS;
      before := end;
      end := end + w.sleep(k);
    }
  }

  // ------------------------------------------------------------ progress

  function RunTimes(s: State, t: Ticket, n: nat): State {
    if n == 0 then s else Apply(RunTimes(s, t, n - 1), Run(t))
  }

  /** First in line and nobody in the lock: one attempt is enough, if nobody interferes. */
  lemma FirstInLineGetsIn(s: State, t: Ticket)
    requires t in s.turns && s.turns[t].pc == Beating
    requires t in s.queue && IndexOf(s.queue, t) == 0 && !LockTaken(s)
    ensures InBody(RunTimes(s, t, 4), t)
    ensures LockedBy(RunTimes(s, t, 4), t)
  {
    var s1 := RunTimes(s, t, 1);
    assert s1 == Apply(RunTimes(s, t, 0), Run(t));
    assert s1.turns[t].pc == Ranking(false) && s1.queue == s.queue && s1.lock == s.lock;
    var s2 := RunTimes(s, t, 2);
    assert s2 == Apply(s1, Run(t));
    assert s2.turns[t].pc == Locking && s2.queue == s.queue && s2.lock == s.lock;
    var s3 := RunTimes(s, t, 3);
    assert s3 == Apply(s2, Run(t));
    assert s3.turns[t].pc == Ranking(true) && s3.queue == s.queue && LockedBy(s3, t);
    assert RunTimes(s, t, 4) == Apply(s3, Run(t));
  }
}
