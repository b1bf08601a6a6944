/** The per-user turn queue of `agents/turn_history.py` as a state machine over Redis commands.

    One `Run(t)` action is one Redis command (or the local decision that follows it) of turn `t`,
    so two turns interleave at every command, also inside `_is_head`. Keys expire by the clock. */
module TurnQueue {
  import opened Sets

  const LOCK_TTL: real := 60.0
  const AGENT_EXECUTION_TIMEOUT: real := 120.0
  const WAIT_SECONDS: real := AGENT_EXECUTION_TIMEOUT + 30.0
  const QUEUE_TTL: real := WAIT_SECONDS + LOCK_TTL

  // ------------------------------------------------------------ data model

  /** A turn's place in the line: the sorted-set score and, at equal scores, the member itself. */
  datatype Ticket = Ticket(order: real, token: nat)

  predicate Before(a: Ticket, b: Ticket) {
    a.order < b.order || (a.order == b.order && a.token < b.token)
  }

  datatype Lock = Free | Held(owner: Ticket, until: real)

  /** What a turn does next. `final` tells the second head check, made with the lock taken. */
  datatype Pc =
    | Starting                                                       // SET alive
    | Announced                                                      // ZADD
    | Enqueued                                                       // EXPIRE queue
    | Beating                                                        // SET alive, top of the loop
    | Ranking(final: bool)                                           // ZRANK
    | Ranging(final: bool, rank: nat)                                // ZRANGE 0 rank-1
    | Probing(final: bool, rest: seq<Ticket>, aliveAhead: bool)      // EXISTS alive:rest[0]
    | Removing(final: bool, rest: seq<Ticket>, aliveAhead: bool)     // ZREM rest[0]
    | Locking                                                        // lock.acquire(blocking=False)
    | GivingBack                                                     // lock.release(), head was lost
    | Resting                                                        // deadline test and sleep
    | Body(acquired: bool)
    | Unlocking                                                      // lock.release()
    | Leaving                                                        // ZREM own token
    | Forgetting                                                     // DEL alive
    | Done
    | Crashed

  /** `start` is when the turn's deadline began; `tested` is when it last found the deadline ahead, or
      `start`; `lease` is how long its last acquire or extend protects it; `ahead` remembers who stood
      before it at the last ZRANK. */
  datatype Turn = Turn(pc: Pc, start: real, tested: real, lease: real, ahead: set<Ticket>)

  datatype Expiry = Never | At(time: real)

  datatype State = State(
    now: real,
    queue: seq<Ticket>,
    queueUntil: Expiry,
    beats: map<Ticket, real>,
    lock: Lock,
    turns: map<Ticket, Turn>)

  datatype Action =
    | Advance(to: real)
    | Arrive(t: Ticket)
    | Run(t: Ticket)
    | FinishBody(t: Ticket)
    | KeepAlive(t: Ticket)
    | Extend(t: Ticket)
    | Crash(t: Ticket)

  const Init: State := State(0.0, [], Never, map[], Free, map[])

  // ------------------------------------------------------------ Redis commands

  predicate Sorted(q: seq<Ticket>) {
    forall i, j :: 0 <= i < j < |q| ==> Before(q[i], q[j])
  }

  function Members(q: seq<Ticket>): set<Ticket> {
    set x | x in q
  }

  /** Everybody in the line whose place is before `t`. */
  function Lower(q: seq<Ticket>, t: Ticket): set<Ticket> {
    set x | x in q && Before(x, t)
  }

  function Insert(q: seq<Ticket>, t: Ticket): seq<Ticket> {
    if q == [] || Before(t, q[0]) then [t] + q
    else if q[0] == t then q
    else [q[0]] + Insert(q[1..], t)
  }

  function Remove(q: seq<Ticket>, t: Ticket): seq<Ticket> {
    if q == [] then []
    else if q[0] == t then Remove(q[1..], t)
    else [q[0]] + Remove(q[1..], t)
  }

  /** ZRANK of a member that is in the line. */
  function IndexOf(q: seq<Ticket>, t: Ticket): (i: nat)
    requires t in q
    ensures i < |q| && q[i] == t && t !in q[..i]
  {
    if q[0] == t then 0 else 1 + IndexOf(q[1..], t)
  }

  function Prefix(q: seq<Ticket>, n: nat): seq<Ticket> {
    if n <= |q| then q[..n] else q
  }

  predicate Alive(s: State, t: Ticket) {
    t in s.beats && s.now < s.beats[t]
  }

  predicate LockedBy(s: State, t: Ticket) {
    s.lock.Held? && s.lock.owner == t && s.now < s.lock.until
  }

  predicate LockTaken(s: State) {
    s.lock.Held? && s.now < s.lock.until
  }

  /** A sorted set that becomes empty is deleted, and its time to live with it. */
  function WithQueue(s: State, q: seq<Ticket>): State {
    s.(queue := q, queueUntil := if q == [] then Never else s.queueUntil)
  }

  function Goto(s: State, t: Ticket, pc: Pc): State
    requires t in s.turns
  {
    s.(turns := s.turns[t := s.turns[t].(pc := pc)])
  }

  function Beat(s: State, t: Ticket): State {
    s.(beats := s.beats[t := s.now + LOCK_TTL])
  }

  // ------------------------------------------------------------ the protocol

  /** Where `_is_head` returns to. */
  function Verdict(final: bool, head: bool): Pc {
    if final then (if head then Body(true) else GivingBack)
    else if head then Locking else Resting
  }

  function Continue(final: bool, rest: seq<Ticket>, aliveAhead: bool): Pc {
    if rest == [] then Verdict(final, !aliveAhead) else Probing(final, rest, aliveAhead)
  }

  function RunRank(s: State, t: Ticket, final: bool): State
    requires t in s.turns
  {
    var s := s.(turns := s.turns[t := s.turns[t].(ahead := Lower(s.queue, t))]);
    if t !in s.queue || IndexOf(s.queue, t) == 0 then Goto(s, t, Verdict(final, true))
    else Goto(s, t, Ranging(final, IndexOf(s.queue, t)))
  }

  function RunTurn(s: State, t: Ticket): State
    requires t in s.turns
  {
    match s.turns[t].pc
    case Starting => Goto(Beat(s, t), t, Announced)
    case Announced => Goto(WithQueue(s, Insert(s.queue, t)), t, Enqueued)
    case Enqueued =>
      Goto(if s.queue == [] then s else s.(queueUntil := At(s.now + QUEUE_TTL)), t, Beating)
    case Beating => Goto(Beat(s, t), t, Ranking(false))
    case Ranking(final) => RunRank(s, t, final)
    case Ranging(final, rank) => Goto(s, t, Continue(final, Prefix(s.queue, rank), false))
    case Probing(final, rest, aliveAhead) =>
      if rest == [] then s
      else if Alive(s, rest[0]) then Goto(s, t, Continue(final, rest[1..], true))
      else Goto(s, t, Removing(final, rest, aliveAhead))
    case Removing(final, rest, aliveAhead) =>
      if rest == [] then s
      else Goto(WithQueue(s, Remove(s.queue, rest[0])), t, Continue(final, rest[1..], aliveAhead))
    case Locking =>
      if LockTaken(s) then Goto(s, t, Resting)
      else
        var until := s.now + LOCK_TTL;
        s.(lock := Held(t, until), turns := s.turns[t := s.turns[t].(pc := Ranking(true), lease := until)])
    case GivingBack =>
      // Releasing a lock that is no longer ours raises, and the turn goes on without it.
      if LockedBy(s, t) then Goto(s.(lock := Free), t, Resting) else Goto(s, t, Body(false))
    case Resting =>
      if s.now >= s.turns[t].start + WAIT_SECONDS then Goto(s, t, Body(false))
      else s.(turns := s.turns[t := s.turns[t].(pc := Beating, tested := s.now)])
    case Body(_) => s
    case Unlocking => Goto(if LockedBy(s, t) then s.(lock := Free) else s, t, Leaving)
    case Leaving => Goto(WithQueue(s, Remove(s.queue, t)), t, Forgetting)
    case Forgetting => Goto(s.(beats := s.beats - {t}), t, Done)
    case Done => s
    case Crashed => s
  }

  /** Time passes; an expired queue key disappears with everybody in it. */
  function Pass(s: State, to: real): State {
    var s := s.(now := to);
    if s.queueUntil.At? && s.queueUntil.time <= to then s.(queue := [], queueUntil := Never) else s
  }

  predicate InBody(s: State, t: Ticket) {
    t in s.turns && s.turns[t].pc == Body(true)
  }

  /** One step of the whole system. An action that is not possible now changes nothing. */
  function Apply(s: State, a: Action): State {
    match a
    case Advance(to) => if to < s.now then s else Pass(s, to)
    case Arrive(t) =>
      if t in s.turns then s else s.(turns := s.turns[t := Turn(Starting, s.now, s.now, s.now, {})])
    case Run(t) => if t in s.turns then RunTurn(s, t) else s
    case FinishBody(t) =>
      if t in s.turns && s.turns[t].pc.Body?
      then Goto(s, t, if s.turns[t].pc.acquired then Unlocking else Leaving) else s
    case KeepAlive(t) => if InBody(s, t) then Beat(s, t) else s
    case Extend(t) =>
      if InBody(s, t) && LockedBy(s, t)
      then
        var until := s.now + LOCK_TTL;
        s.(lock := Held(t, until), turns := s.turns[t := s.turns[t].(lease := until)])
      else s
    case Crash(t) => if t in s.turns then Goto(s, t, Crashed) else s
  }

  /** The state after a whole run. */
  function Play(actions: seq<Action>): State {
    if actions == [] then Init
    else Apply(Play(actions[..|actions| - 1]), actions[|actions| - 1])
  }

  // ------------------------------------------------------------ facts about the line

  lemma {:induction false} InsertKeepsOrder(q: seq<Ticket>, t: Ticket)
    requires Sorted(q)
    ensures Sorted(Insert(q, t)) && forall x :: x in Insert(q, t) <==> x == t || x in q
  {
    if q != [] && !Before(t, q[0]) && q[0] != t {
      InsertKeepsOrder(q[1..], t);
      var r := Insert(q[1..], t);
      forall i, j | 0 <= i < j < |Insert(q, t)| ensures Before(Insert(q, t)[i], Insert(q, t)[j]) {
        if i == 0 { assert r[j - 1] in r; }
      }
      assert forall x :: x in q <==> x == q[0] || x in q[1..];
    }
  }

  lemma {:induction false} RemoveKeepsOrder(q: seq<Ticket>, t: Ticket)
    requires Sorted(q)
    ensures Sorted(Remove(q, t)) && forall x :: x in Remove(q, t) <==> x != t && x in q
  {
    if q != [] {
      RemoveKeepsOrder(q[1..], t);
      var r := Remove(q[1..], t);
      if q[0] != t {
        forall i, j | 0 <= i < j < |Remove(q, t)| ensures Before(Remove(q, t)[i], Remove(q, t)[j]) {
          if i == 0 { assert r[j - 1] in r; }
        }
      }
      assert forall x :: x in q <==> x == q[0] || x in q[1..];
    }
  }

  lemma {:induction false} DistinctCardinality(q: seq<Ticket>)
    requires Sorted(q)
    ensures |Members(q)| == |q|
  {
    if q == [] {
      assert Members(q) == {};
    } else {
      var front, last := q[..|q| - 1], q[|q| - 1];
      DistinctCardinality(front);
      assert Members(q) == Members(front) + {last};
      assert last !in front;
    }
  }

  /** ZRANK counts the members before `t`. */
  lemma RankIsLowerCount(q: seq<Ticket>, t: Ticket)
    requires Sorted(q) && t in q
    ensures Lower(q, t) == Members(q[..IndexOf(q, t)]) && |Lower(q, t)| == IndexOf(q, t)
  {
    var r := IndexOf(q, t);
    forall x ensures x in Lower(q, t) <==> x in q[..r] { LowerIsAhead(q, t, x); }
    assert Lower(q, t) == Members(q[..r]);
    DistinctCardinality(q[..r]);
  }

  lemma LowerIsAhead(q: seq<Ticket>, t: Ticket, x: Ticket)
    requires Sorted(q) && t in q
    ensures x in Lower(q, t) <==> x in q[..IndexOf(q, t)]
  {
    var r := IndexOf(q, t);
    if x in Lower(q, t) {
      var i :| 0 <= i < |q| && q[i] == x;
      assert r < i ==> Before(q[r], q[i]);
      assert q[..r][i] == x;
    }
  }

  /** The pigeonhole behind the head scan: once ZRANK saw `known` before this turn, a ZRANGE of that
      many members either lists `b`, one of them still in line, or lists somebody who came later. */
  lemma Pigeonhole(q: seq<Ticket>, known: set<Ticket>, b: Ticket) returns (w: Ticket)
    requires Sorted(q) && b in q && b in known
    ensures w in Prefix(q, |known|) && (w == b || (w !in known && Before(w, b)))
  {
    var list := Prefix(q, |known|);
    if b in list {
      return b;
    }
    var i :| 0 <= i < |q| && q[i] == b;
    if forall x :: x in list ==> x in known {
      DistinctCardinality(list);
      assert i >= |list| && |list| == |known|;
      assert Members(list) + {b} <= known;
      Fewer(Members(list) + {b}, known);
      assert false;
    }
    w :| w in list && w !in known;
  }
}
