/** What one turn of the queue does when nobody interferes, from its arrival to its end, and how long
    what it has set lasts when everybody does. */
module TurnAlone {
  import opened TurnQueue
  import opened TurnExclusion
  import opened HeadScan

  predicate StepAt(path: seq<State>, t: Ticket, i: nat)
    requires i + 1 < |path|
  {
    path[i + 1] == Apply(path[i], Run(t))
  }

  predicate IsPath(path: seq<State>, s: State, v: State, t: Ticket) {
    && path != [] && path[0] == s && path[|path| - 1] == v
    && forall i :: 0 <= i < |path| - 1 ==> StepAt(path, t, i)
  }

  /** Commands of turn `t` alone lead from `s` to `v`. */
  ghost predicate Reaches(s: State, v: State, t: Ticket) { exists path :: IsPath(path, s, v, t) }

  lemma Stays(s: State, t: Ticket)
    ensures Reaches(s, s, t)
  {
    assert IsPath([s], s, s, t);
  }

  lemma Runs(s: State, v: State, t: Ticket)
    requires t in s.turns && v == RunTurn(s, t)
    ensures Reaches(s, v, t)
  {
    assert StepAt([s, v], t, 0);
    assert IsPath([s, v], s, v, t);
  }

  lemma Then(s: State, u: State, v: State, t: Ticket)
    requires Reaches(s, u, t) && Reaches(u, v, t)
    ensures Reaches(s, v, t)
  {
    var p :| IsPath(p, s, u, t);
    var q :| IsPath(q, u, v, t);
    var path := p + q[1..];
    forall i | 0 <= i < |path| - 1 ensures StepAt(path, t, i) {
      if i < |p| - 1 { assert StepAt(p, t, i); } else { assert StepAt(q, t, i - (|p| - 1)); }
    }
    assert IsPath(path, s, v, t);
  }

  /** What a head check sees of the state. */
  function StoreOf(s: State): Store { Store(s.queue, set x | x in s.beats && s.now < s.beats[x]) }

  /** Nobody alive stands before the turn. */
  ghost predicate First(s: State, t: Ticket) { FirstAlive(StoreOf(s), t) }

  /** The state is the same but for the line and for turn `t`, which is now `turn`. */
  predicate OnlyTurn(s: State, v: State, t: Ticket, turn: Turn) {
    v == s.(queue := v.queue, queueUntil := v.queueUntil, turns := s.turns[t := turn])
  }

  // ------------------------------------------------------------ joining

  /** SET, ZADD, EXPIRE: the turn is in line and alive, and the line lives as long as it may wait. */
  lemma JoinsAlone(s: State, t: Ticket) returns (v: State)
    requires t !in s.turns && Sorted(s.queue)
    ensures Reaches(Apply(s, Arrive(t)), v, t)
    ensures v == s.(queue := v.queue, queueUntil := At(s.now + 210.0), beats := s.beats[t := s.now + 60.0],
                    turns := s.turns[t := Turn(Beating, s.now, s.now, s.now, {})])
    ensures Sorted(v.queue) && forall x :: x in v.queue <==> x in s.queue || x == t
  {
    InsertKeepsOrder(s.queue, t);
    Arrives(s, t);
    var arrived := s.(turns := s.turns[t := Turn(Starting, s.now, s.now, s.now, {})]);
    JoinsFrom(arrived, t);
    v := JoinedState(arrived, t);
    Overwrite(s.turns, t, Turn(Starting, s.now, s.now, s.now, {}), Turn(Beating, s.now, s.now, s.now, {}));
  }

  lemma Arrives(s: State, t: Ticket)
    requires t !in s.turns
    ensures Apply(s, Arrive(t)) == s.(turns := s.turns[t := Turn(Starting, s.now, s.now, s.now, {})])
  {
  }

  /** The state once the turn has joined. */
  function JoinedState(s: State, t: Ticket): State
    requires t in s.turns
  {
    s.(queue := Insert(s.queue, t), queueUntil := At(s.now + QUEUE_TTL), beats := s.beats[t := s.now + LOCK_TTL],
       turns := s.turns[t := s.turns[t].(pc := Beating)])
  }

  lemma JoinsFrom(s: State, t: Ticket)
    requires t in s.turns && s.turns[t].pc == Starting && t in Insert(s.queue, t)
    ensures Reaches(s, JoinedState(s, t), t)
  {
    var announced := Goto(Beat(s, t), t, Announced);
    Announces(s, t);
    var enqueued := Enqueues(announced, t);
    Then(s, announced, enqueued, t);
    var v := Expires(enqueued, t);
    Then(s, enqueued, v, t);
    var turn := s.turns[t];
    Joined(s, t, turn.(pc := Announced), turn.(pc := Enqueued), turn.(pc := Beating), announced.beats, enqueued.queue,
           v.queueUntil);
  }

  /** Three updates of a turn are the last one. */
  lemma Joined(s: State, t: Ticket, a: Turn, b: Turn, c: Turn, beats: map<Ticket, real>, q: seq<Ticket>, e: Expiry)
    ensures var announced := s.(beats := beats, turns := s.turns[t := a]);
            var enqueued := announced.(queue := q, turns := announced.turns[t := b]);
            enqueued.(queueUntil := e, turns := enqueued.turns[t := c])
            == s.(queue := q, queueUntil := e, beats := beats, turns := s.turns[t := c])
  {
    Overwrite(s.turns, t, a, b);
    Overwrite(s.turns, t, b, c);
  }

  lemma Overwrite<K, V>(m: map<K, V>, k: K, x: V, y: V)
    ensures m[k := x][k := y] == m[k := y]
  {
  }

  lemma Announces(s: State, t: Ticket)
    requires t in s.turns && s.turns[t].pc == Starting
    ensures Reaches(s, Goto(Beat(s, t), t, Announced), t)
  {
    Runs(s, Goto(Beat(s, t), t, Announced), t);
  }

  lemma Enqueues(s: State, t: Ticket) returns (v: State)
    requires t in s.turns && s.turns[t].pc == Announced && t in Insert(s.queue, t)
    ensures Reaches(s, v, t) && v == Goto(s.(queue := Insert(s.queue, t)), t, Enqueued)
  {
    v := Goto(WithQueue(s, Insert(s.queue, t)), t, Enqueued);
    Runs(s, v, t);
  }

  lemma Expires(s: State, t: Ticket) returns (v: State)
    requires t in s.turns && s.turns[t].pc == Enqueued && s.queue != []
    ensures Reaches(s, v, t) && v == Goto(s.(queueUntil := At(s.now + QUEUE_TTL)), t, Beating)
  {
    v := Goto(s.(queueUntil := At(s.now + QUEUE_TTL)), t, Beating);
    Runs(s, v, t);
  }

  // ------------------------------------------------------------ the head check

  /** The line after a scan of `probed`: its dead are gone. */
  ghost predicate Swept(s: State, q: seq<Ticket>, probed: seq<Ticket>) {
    Sorted(q) && forall x :: x in q <==> x in s.queue && (x in probed ==> Alive(s, x))
  }

  predicate AnyAlive(s: State, probed: seq<Ticket>) {
    exists x :: x in probed && Alive(s, x)
  }

  ghost predicate ScanEnd(s: State, v: State, t: Ticket, final: bool, rest: seq<Ticket>, aliveAhead: bool) {
    && t in s.turns
    && OnlyTurn(s, v, t, s.turns[t].(pc := Verdict(final, !aliveAhead && !AnyAlive(s, rest))))
    && Swept(s, v.queue, rest) && (v.queue != [] ==> v.queueUntil == s.queueUntil)
  }

  lemma FoundAlive(s: State, t: Ticket, final: bool, rest: seq<Ticket>, aliveAhead: bool, v: State, w: State)
    requires t in s.turns && rest != [] && Alive(s, rest[0]) && v == Goto(s, t, Continue(final, rest[1..], true))
    requires ScanEnd(v, w, t, final, rest[1..], true)
    ensures ScanEnd(s, w, t, final, rest, aliveAhead)
  {
    assert AnyAlive(s, rest);
    assert forall x :: x in rest <==> x == rest[0] || x in rest[1..];
    SameTurns(s, v, w, t, s.turns[t].(pc := Verdict(final, false)));
    forall x ensures x in w.queue <==> x in s.queue && (x in rest ==> Alive(s, x)) {
      assert Alive(v, x) <==> Alive(s, x);
    }
  }

  lemma SameTurns(s: State, v: State, w: State, t: Ticket, turn: Turn)
    requires t in s.turns && t in v.turns && OnlyTurn(v, w, t, turn)
    requires v == s.(queue := v.queue, queueUntil := v.queueUntil, turns := s.turns[t := v.turns[t]])
    ensures OnlyTurn(s, w, t, turn)
  {
    assert s.turns[t := v.turns[t]][t := turn] == s.turns[t := turn];
  }

  lemma FoundDead(s: State, t: Ticket, final: bool, rest: seq<Ticket>, aliveAhead: bool, v: State, w: State)
    requires t in s.turns && rest != [] && !Alive(s, rest[0]) && Sorted(s.queue)
    requires v == Goto(WithQueue(s, Remove(s.queue, rest[0])), t, Continue(final, rest[1..], aliveAhead))
    requires ScanEnd(v, w, t, final, rest[1..], aliveAhead)
    ensures ScanEnd(s, w, t, final, rest, aliveAhead)
  {
    RemoveKeepsOrder(s.queue, rest[0]);
    assert forall x :: x in rest <==> x == rest[0] || x in rest[1..];
    assert forall x :: Alive(v, x) <==> Alive(s, x);
    assert AnyAlive(v, rest[1..]) <==> AnyAlive(s, rest);
    SameTurns(s, v, w, t, s.turns[t].(pc := Verdict(final, !aliveAhead && !AnyAlive(s, rest))));
    if w.queue != [] { assert w.queue[0] in v.queue; }
  }

  lemma ProbesAlive(s: State, t: Ticket, final: bool, rest: seq<Ticket>, aliveAhead: bool)
    requires t in s.turns && s.turns[t].pc == Probing(final, rest, aliveAhead) && rest != [] && Alive(s, rest[0])
    ensures Reaches(s, Goto(s, t, Continue(final, rest[1..], true)), t)
  {
    Runs(s, Goto(s, t, Continue(final, rest[1..], true)), t);
  }

  lemma ProbesDead(s: State, t: Ticket, final: bool, rest: seq<Ticket>, aliveAhead: bool)
    requires t in s.turns && s.turns[t].pc == Probing(final, rest, aliveAhead) && rest != [] && !Alive(s, rest[0])
    ensures Reaches(s, Goto(WithQueue(s, Remove(s.queue, rest[0])), t, Continue(final, rest[1..], aliveAhead)), t)
  {
    var u := Goto(s, t, Removing(final, rest, aliveAhead));
    var v := Goto(WithQueue(s, Remove(s.queue, rest[0])), t, Continue(final, rest[1..], aliveAhead));
    Runs(s, u, t);
    RunsRemoving(u, v, t);
    Then(s, u, v, t);
  }

  lemma RunsRemoving(u: State, v: State, t: Ticket)
    requires t in u.turns && u.turns[t].pc.Removing? && u.turns[t].pc.rest != []
    requires var pc := u.turns[t].pc;
             v == Goto(WithQueue(u, Remove(u.queue, pc.rest[0])), t, Continue(pc.final, pc.rest[1..], pc.aliveAhead))
    ensures Reaches(u, v, t)
  {
    Runs(u, v, t);
  }

  lemma {:induction false} ScansAlone(s: State, t: Ticket, final: bool, rest: seq<Ticket>, aliveAhead: bool)
    returns (w: State)
    requires t in s.turns && Sorted(s.queue) && s.turns[t].pc == Continue(final, rest, aliveAhead)
    ensures Reaches(s, w, t) && ScanEnd(s, w, t, final, rest, aliveAhead)
    decreases |rest|
  {
    if rest == [] {
      w := s;
      Stays(s, t);
    } else if Alive(s, rest[0]) {
      var v := Goto(s, t, Continue(final, rest[1..], true));
      ProbesAlive(s, t, final, rest, aliveAhead);
      w := ScansAlone(v, t, final, rest[1..], true);
      FoundAlive(s, t, final, rest, aliveAhead, v, w);
      Then(s, v, w, t);
    } else {
      var v := Goto(WithQueue(s, Remove(s.queue, rest[0])), t, Continue(final, rest[1..], aliveAhead));
      ProbesDead(s, t, final, rest, aliveAhead);
      RemoveKeepsOrder(s.queue, rest[0]);
      w := ScansAlone(v, t, final, rest[1..], aliveAhead);
      FoundDead(s, t, final, rest, aliveAhead, v, w);
      Then(s, v, w, t);
    }
  }

  /** The head check of the protocol, undisturbed, is the one of `_is_head`: it finds out exactly whether
      somebody alive stands before the turn, and removes exactly the dead who do. */
  ghost predicate Checked(s: State, v: State, t: Ticket, final: bool) {
    && t in s.turns
    && OnlyTurn(s, v, t, s.turns[t].(pc := Verdict(final, First(s, t)), ahead := Lower(s.queue, t)))
    && Sorted(v.queue) && Cleaned(StoreOf(s), StoreOf(v), t) && (t in s.queue ==> v.queueUntil == s.queueUntil)
  }

  lemma RanksFirst(s: State, t: Ticket, final: bool)
    requires t in s.turns && Sorted(s.queue) && s.turns[t].pc == Ranking(final)
    requires t !in s.queue || IndexOf(s.queue, t) == 0
    ensures Reaches(s, RunRank(s, t, final), t) && Checked(s, RunRank(s, t, final), t, final)
  {
    Runs(s, RunRank(s, t, final), t);
    if t in s.queue { AheadIsProbed(s, t, []); }
    assert StoreOf(RunRank(s, t, final)) == StoreOf(s);
  }

  lemma RanksBehind(s: State, t: Ticket, final: bool, rest: seq<Ticket>)
    requires t in s.turns && s.turns[t].pc == Ranking(final)
    requires t in s.queue && IndexOf(s.queue, t) > 0 && rest == s.queue[..IndexOf(s.queue, t)]
    ensures Reaches(s, s.(turns := s.turns[t :=
              s.turns[t].(pc := Continue(final, rest, false), ahead := Lower(s.queue, t))]), t)
  {
    var u := RunRank(s, t, final);
    var v := Goto(u, t, Continue(final, rest, false));
    Runs(s, u, t);
    Runs(u, v, t);
    Then(s, u, v, t);
    assert v == s.(turns := s.turns[t :=
      s.turns[t].(pc := Continue(final, rest, false), ahead := Lower(s.queue, t))]);
  }

  lemma ChecksHeadAlone(s: State, t: Ticket, final: bool) returns (w: State)
    requires t in s.turns && Sorted(s.queue) && s.turns[t].pc == Ranking(final)
    ensures Reaches(s, w, t) && Checked(s, w, t, final)
  {
    if t !in s.queue || IndexOf(s.queue, t) == 0 {
      RanksFirst(s, t, final);
      w := RunRank(s, t, final);
    } else {
      var rest := s.queue[..IndexOf(s.queue, t)];
      var v := s.(turns := s.turns[t :=
        s.turns[t].(pc := Continue(final, rest, false), ahead := Lower(s.queue, t))]);
      RanksBehind(s, t, final, rest);
      w := ScansAlone(v, t, final, rest, false);
      Then(s, v, w, t);
      AheadIsProbed(s, t, rest);
      ScanIsCheck(s, v, w, t, final, rest);
    }
  }

  lemma AheadIsProbed(s: State, t: Ticket, rest: seq<Ticket>)
    requires Sorted(s.queue) && t in s.queue && rest == s.queue[..IndexOf(s.queue, t)]
    ensures forall x :: x in rest <==> x in s.queue && Before(x, t)
  {
    RankIsLowerCount(s.queue, t);
    forall x ensures x in rest <==> x in s.queue && Before(x, t) {
      assert x in Lower(s.queue, t) <==> x in Members(rest);
    }
  }

  lemma ScanIsCheck(s: State, v: State, w: State, t: Ticket, final: bool, rest: seq<Ticket>)
    requires t in s.turns && t in s.queue && forall x :: x in rest <==> x in s.queue && Before(x, t)
    requires v == s.(turns := s.turns[t := s.turns[t].(pc := Continue(final, rest, false), ahead := Lower(s.queue, t))])
    requires ScanEnd(v, w, t, final, rest, false)
    ensures Checked(s, w, t, final)
  {
    assert forall x :: Alive(v, x) <==> x in StoreOf(s).alive;
    assert AnyAlive(v, rest) <==> !First(s, t);
    assert !Before(t, t);
    assert t in w.queue;
    assert StoreOf(w).alive == StoreOf(s).alive;
  }

  // ------------------------------------------------------------ one attempt

  /** Where an attempt ends: in the body with the lock if the turn is the first one alive and the lock is
      free, else resting. Either way the turn is alive for a minute. */
  ghost predicate Attempted(s: State, v: State, t: Ticket) {
    && t in s.turns && t in v.turns && t in v.queue && Sorted(v.queue)
    && v.now == s.now && v.beats == s.beats[t := s.now + 60.0] && v.queueUntil == s.queueUntil
    && (forall x :: x in v.queue ==> x in s.queue)
    && (forall x :: x in s.queue && x !in v.queue ==> Before(x, t) && !Alive(s, x))
    && v.turns.Keys == s.turns.Keys && (forall u :: u in s.turns && u != t ==> v.turns[u] == s.turns[u])
    && v.turns[t].start == s.turns[t].start
    && (if First(s, t) && !LockTaken(s)
        then v.turns[t].pc == Body(true) && v.lock == Held(t, s.now + 60.0)
        else v.turns[t].pc == Resting && v.lock == s.lock)
  }

  lemma BeatIsFirst(s: State, t: Ticket)
    requires t in s.turns
    ensures First(Goto(Beat(s, t), t, Ranking(false)), t) <==> First(s, t)
  {
    var v := Goto(Beat(s, t), t, Ranking(false));
    assert forall x :: x != t ==> (x in StoreOf(v).alive <==> x in StoreOf(s).alive);
  }

  lemma Locks(v: State, t: Ticket) returns (w: State)
    requires t in v.turns && v.turns[t].pc == Locking
    ensures Reaches(v, w, t) && w == RunTurn(v, t)
    ensures LockTaken(v) ==> w == Goto(v, t, Resting)
    ensures !LockTaken(v) ==> w.turns[t].pc == Ranking(true) && w.queue == v.queue
  {
    w := RunTurn(v, t);
    Runs(v, w, t);
  }

  lemma AttemptsAlone(s: State, t: Ticket) returns (w: State)
    requires t in s.turns && s.turns[t].pc == Beating && t in s.queue && Sorted(s.queue)
    ensures Reaches(s, w, t) && Attempted(s, w, t)
  {
    var u := Goto(Beat(s, t), t, Ranking(false));
    Runs(s, u, t);
    BeatIsFirst(s, t);
    var v := ChecksHeadAlone(u, t, false);
    Then(s, u, v, t);
    CheckedBeat(s, u, v, t);
    w := v;
    if First(s, t) {
      w := Locks(v, t);
      Then(s, v, w, t);
      if !LockTaken(s) {
        var z := ChecksHeadAlone(w, t, true);
        Then(s, w, z, t);
        StillFirst(s, u, v, w, z, t);
        w := z;
      }
    }
  }

  lemma CheckedBeat(s: State, u: State, v: State, t: Ticket)
    requires t in s.turns && t in s.queue && u == Goto(Beat(s, t), t, Ranking(false)) && Checked(u, v, t, false)
    requires First(u, t) <==> First(s, t)
    ensures t in v.queue && v.lock == s.lock && v.now == s.now && v.beats == u.beats
    ensures v.turns[t].pc == if First(s, t) then Locking else Resting
    ensures !First(s, t) ==> Attempted(s, v, t)
    ensures First(s, t) ==> Attempted(s, Goto(v, t, Resting), t) || !LockTaken(s)
  {
    assert !Before(t, t);
    CleanedLine(s, u, v, t);
  }

  lemma CleanedLine(s: State, u: State, v: State, t: Ticket)
    requires t in s.queue && u.queue == s.queue && Cleaned(StoreOf(u), StoreOf(v), t)
    requires forall x :: x != t ==> (Alive(u, x) <==> Alive(s, x))
    ensures t in v.queue && (forall x :: x in v.queue ==> x in s.queue)
    ensures forall x :: x in s.queue && x !in v.queue ==> Before(x, t) && !Alive(s, x)
    ensures First(u, t) ==> forall x :: x in v.queue ==> !Before(x, t)
  {
    assert forall x :: x in v.queue <==> x in StoreOf(v).queue;
    assert forall x :: x in StoreOf(u).alive <==> Alive(u, x);
  }

  lemma StillFirst(s: State, u: State, v: State, w: State, z: State, t: Ticket)
    requires t in s.turns && t in s.queue && u == Goto(Beat(s, t), t, Ranking(false)) && Checked(u, v, t, false)
    requires First(u, t) && First(s, t) && !LockTaken(s)
    requires t in v.turns && v.turns[t].pc == Locking && w == RunTurn(v, t) && Checked(w, z, t, true)
    ensures Attempted(s, z, t)
  {
    CleanedLine(s, u, v, t);
    assert First(w, t);
    assert t in z.queue && forall x :: x in z.queue <==> x in w.queue by { CleanedSame(w, z, t); }
  }

  lemma CleanedSame(w: State, z: State, t: Ticket)
    requires Cleaned(StoreOf(w), StoreOf(z), t) && forall x :: x in w.queue ==> !Before(x, t)
    ensures forall x :: x in z.queue <==> x in w.queue
  {
    assert forall x :: x in z.queue <==> x in StoreOf(z).queue;
  }

  /** The deadline test: past it the turn goes on without the lock, else it tries again. */
  lemma TestsDeadline(s: State, t: Ticket)
    requires t in s.turns && s.turns[t].pc == Resting
    ensures var v := Apply(s, Run(t));
            v == s.(turns := s.turns[t :=
              if s.now >= s.turns[t].start + 150.0 then s.turns[t].(pc := Body(false))
              else s.turns[t].(pc := Beating, tested := s.now)])
  {
  }

  // ------------------------------------------------------------ the end

  /** A turn that ends its body leaves nothing behind: it is out of line, without a heartbeat, and its
      lock is free. Nothing else changes. */
  lemma FinishesAlone(s: State, t: Ticket) returns (v: State)
    requires t in s.turns && s.turns[t].pc.Body? && Sorted(s.queue)
    ensures Reaches(Apply(s, FinishBody(t)), v, t)
    ensures v == s.(queue := v.queue, queueUntil := if v.queue == [] then Never else s.queueUntil,
                    beats := s.beats - {t}, turns := s.turns[t := s.turns[t].(pc := Done)],
                    lock := if s.turns[t].pc.acquired && LockedBy(s, t) then Free else s.lock)
    ensures Sorted(v.queue) && forall x :: x in v.queue <==> x in s.queue && x != t
  {
    RemoveKeepsOrder(s.queue, t);
    var unlocked := Unlocks(s, t);
    Leaves(unlocked, t);
    v := Forgotten(unlocked, t);
    Then(Apply(s, FinishBody(t)), unlocked, v, t);
  }

  lemma Unlocks(s: State, t: Ticket) returns (v: State)
    requires t in s.turns && s.turns[t].pc.Body?
    ensures Reaches(Apply(s, FinishBody(t)), v, t)
    ensures v == Goto(if s.turns[t].pc.acquired && LockedBy(s, t) then s.(lock := Free) else s, t, Leaving)
  {
    Ends(s, t);
    if s.turns[t].pc.acquired {
      v := Goto(if LockedBy(s, t) then s.(lock := Free) else s, t, Leaving);
      Runs(Goto(s, t, Unlocking), v, t);
    } else {
      v := Goto(s, t, Leaving);
      Stays(v, t);
    }
  }

  lemma Ends(s: State, t: Ticket)
    requires t in s.turns && s.turns[t].pc.Body?
    ensures Apply(s, FinishBody(t)) == Goto(s, t, if s.turns[t].pc.acquired then Unlocking else Leaving)
  {
  }

  function Forgotten(s: State, t: Ticket): State
    requires t in s.turns
  {
    Goto(WithQueue(s, Remove(s.queue, t)).(beats := s.beats - {t}), t, Done)
  }

  lemma Leaves(s: State, t: Ticket)
    requires t in s.turns && s.turns[t].pc == Leaving
    ensures Reaches(s, Forgotten(s, t), t)
  {
    var out := Goto(WithQueue(s, Remove(s.queue, t)), t, Forgetting);
    Runs(s, out, t);
    Runs(out, Forgotten(s, t), t);
    Then(s, out, Forgotten(s, t), t);
  }

  // ------------------------------------------------------------ renewals, whatever the others do

  function PlayFrom(s: State, actions: seq<Action>): State {
    if actions == [] then s else Apply(PlayFrom(s, actions[..|actions| - 1]), actions[|actions| - 1])
  }

  /** Turn `t` runs no command and does not renew; it may crash or end its body. */
  predicate Idle(actions: seq<Action>, t: Ticket) {
    forall i :: 0 <= i < |actions| ==>
      actions[i] != Run(t) && actions[i] != Extend(t) && actions[i] != KeepAlive(t)
  }

  lemma OthersLeaveLock(s: State, a: Action, t: Ticket, until: real)
    requires s.lock == Held(t, until) && s.now < until && a != Run(t) && a != Extend(t)
    ensures Apply(s, a).lock == Held(t, until)
  {
    if a.Run? { ForeignLockUntouched(s, a, a.t); }
  }

  lemma OthersLeaveBeat(s: State, a: Action, t: Ticket, until: real)
    requires t in s.beats && s.beats[t] == until && a != Run(t) && a != KeepAlive(t)
    ensures t in Apply(s, a).beats && Apply(s, a).beats[t] == until
  {
    if a.Run? && a.t in s.turns { CommandLeavesBeat(s, a.t, t); }
  }

  lemma CommandLeavesBeat(s: State, u: Ticket, t: Ticket)
    requires u in s.turns && t in s.beats && u != t
    ensures t in RunTurn(s, u).beats && RunTurn(s, u).beats[t] == s.beats[t]
  {
  }

  lemma NowGrows(s: State, a: Action)
    ensures s.now <= Apply(s, a).now
  {
    if a.Run? && a.t in s.turns { TurnEffect(s, a.t); }
  }

  lemma {:induction false} SetLasts(s: State, actions: seq<Action>, t: Ticket, until: real)
    requires Idle(actions, t)
    ensures s.lock == Held(t, until) && PlayFrom(s, actions).now < until ==> PlayFrom(s, actions).lock == Held(t, until)
    ensures t in s.beats && s.beats[t] == until ==>
              t in PlayFrom(s, actions).beats && PlayFrom(s, actions).beats[t] == until
  {
    if actions != [] {
      var front, a := actions[..|actions| - 1], actions[|actions| - 1];
      SetLasts(s, front, t, until);
      var v := PlayFrom(s, front);
      NowGrows(v, a);
      if v.lock == Held(t, until) && v.now < until { OthersLeaveLock(v, a, t, until); }
      if t in v.beats && v.beats[t] == until { OthersLeaveBeat(v, a, t, until); }
    }
  }

  /** After a renewal nobody else gets the lock, or finds the turn dead, for a minute. */
  lemma RenewalProtects(s: State, actions: seq<Action>, t: Ticket)
    requires InBody(s, t) && LockedBy(s, t) && Idle(actions, t)
    ensures var v := PlayFrom(Apply(Apply(s, KeepAlive(t)), Extend(t)), actions);
            v.now < s.now + 60.0 ==> LockedBy(v, t) && Alive(v, t)
  {
    var renewed := Apply(Apply(s, KeepAlive(t)), Extend(t));
    assert renewed.lock == Held(t, s.now + LOCK_TTL) && t in renewed.beats && renewed.beats[t] == s.now + LOCK_TTL;
    SetLasts(renewed, actions, t, s.now + LOCK_TTL);
  }

  // ------------------------------------------------------------ the life of the line

  /** A line that is due to expire has members, and has not expired. */
  predicate FreshLine(s: State) { s.queueUntil.At? ==> s.queue != [] && s.now < s.queueUntil.time }

  lemma FreshByTurn(s: State, t: Ticket)
    requires FreshLine(s) && t in s.turns
    ensures FreshLine(RunTurn(s, t))
  {
    if s.turns[t].pc == Announced { InsertHasMember(s.queue, t); }
  }

  lemma InsertHasMember(q: seq<Ticket>, t: Ticket)
    ensures Insert(q, t) != []
  {
  }

  lemma {:induction false} FreshAlways(actions: seq<Action>)
    ensures FreshLine(Play(actions))
  {
    if actions != [] {
      var s, a := Play(actions[..|actions| - 1]), actions[|actions| - 1];
      FreshAlways(actions[..|actions| - 1]);
      FreshKept(s, a);
    }
  }

  lemma FreshKept(s: State, a: Action)
    requires FreshLine(s)
    ensures FreshLine(Apply(s, a))
  {
    match a
    case Run(t) => if t in s.turns { FreshByTurn(s, t); }
    case _ =>
  }
}
