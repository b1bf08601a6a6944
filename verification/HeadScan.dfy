/** `_is_head` as the loop it is: a sequence of Redis commands between which other turns do anything.
    The other turns are an arbitrary function `env` that rewrites the store before each command. */
module HeadScan {
  import opened TurnQueue

  /** What a head check can see: the line and the heartbeats that have not expired. */
  datatype Store = Store(queue: seq<Ticket>, alive: set<Ticket>)

  datatype Rank = NotThere | AtRank(rank: nat)

  class Client {
    var store: Store
    /** The store each command of this client found, in order. */
    ghost var trace: seq<Store>
    const env: (nat, Store) -> Store
    var commands: nat

    constructor (env: (nat, Store) -> Store, store: Store)
      ensures this.env == env && this.store == store && trace == [] && commands == 0
    {
      this.env := env;
      this.store := store;
      this.trace := [];
      this.commands := 0;
    }

    /** A sorted set is sorted, whoever writes it. */
    ghost predicate Valid()
      reads this
    {
      Sorted(store.queue) && forall n: nat, s: Store :: Sorted(s.queue) ==> Sorted(env(n, s).queue)
    }

    /** The other turns act, and the next command finds what they left. */
    method Interleave()
      requires Valid()
      modifies this
      ensures Valid() && store == env(old(commands), old(store)) && commands == old(commands) + 1
      ensures trace == old(trace) + [store]
    {
      store := env(commands, store);
      commands := commands + 1;
      trace := trace + [store];
    }

    method ZRank(t: Ticket) returns (r: Rank)
      requires Valid()
      modifies this
      ensures Valid() && store == env(old(commands), old(store)) && commands == old(commands) + 1
      ensures trace == old(trace) + [store]
      ensures r == if t in store.queue then AtRank(IndexOf(store.queue, t)) else NotThere
    {
      Interleave();
      r := if t in store.queue then AtRank(IndexOf(store.queue, t)) else NotThere;
    }

    method ZRange(count: nat) returns (members: seq<Ticket>)
      requires Valid()
      modifies this
      ensures Valid() && store == env(old(commands), old(store)) && commands == old(commands) + 1
      ensures trace == old(trace) + [store]
      ensures members == Prefix(store.queue, count)
    {
      Interleave();
      members := Prefix(store.queue, count);
    }

    method Exists(t: Ticket) returns (alive: bool)
      requires Valid()
      modifies this
      ensures Valid() && store == env(old(commands), old(store)) && commands == old(commands) + 1
      ensures trace == old(trace) + [store]
      ensures alive <==> t in store.alive
    {
      Interleave();
      alive := t in store.alive;
    }

    method ZRem(t: Ticket)
      requires Valid()
      modifies this
      ensures Valid() && commands == old(commands) + 1
      ensures var found := env(old(commands), old(store));
              trace == old(trace) + [found] && store == found.(queue := Remove(found.queue, t))
    {
      Interleave();
      RemoveKeepsOrder(store.queue, t);
      store := store.(queue := Remove(store.queue, t));
    }
  }

  /** During the commands in `tr`, `b` is in line before `me`, and alive; `me` stays in line; and
      whoever joins the line before `me` is alive from then on. */
  ghost predicate BlockedThroughout(tr: seq<Store>, me: Ticket, b: Ticket) {
    && Before(b, me)
    && (forall k :: 0 <= k < |tr| ==> me in tr[k].queue && b in tr[k].queue && b in tr[k].alive)
    && (forall j, k, x :: 0 <= j <= k < |tr| && x in tr[j].queue && x !in tr[0].queue && Before(x, me) ==>
          x in tr[k].alive)
  }

  /** Nobody else touches the store. */
  ghost predicate Quiet(env: (nat, Store) -> Store) {
    forall n: nat, s: Store :: env(n, s) == s
  }

  ghost predicate FirstAlive(s: Store, me: Ticket) {
    me !in s.queue || forall x :: x in s.queue && Before(x, me) ==> x !in s.alive
  }

  /** The line after a head check nobody disturbs: the dead ahead of `me` are gone. */
  ghost predicate Cleaned(before: Store, after: Store, me: Ticket) {
    && after.alive == before.alive
    && forall x :: x in after.queue <==>
         x in before.queue && !(me in before.queue && Before(x, me) && x !in before.alive)
  }

  /** None of the probed members, all found dead, can be a `b` that blocks, or have come late. */
  ghost predicate NoneBlocks(tr: seq<Store>, me: Ticket, probed: seq<Ticket>)
    requires |tr| > 0
  {
    forall b, x :: BlockedThroughout(tr, me, b) && x in probed ==>
      x != b && (x in tr[0].queue || !Before(x, me))
  }

  /** What an undisturbed scan has done after probing `probed`. */
  ghost predicate Progress(first: Store, now: Store, probed: seq<Ticket>, aliveAhead: bool) {
    && now.alive == first.alive
    && (aliveAhead <==> exists x :: x in probed && x in first.alive)
    && (forall x :: x in now.queue <==> x in first.queue && !(x in probed && x !in first.alive))
  }

  /** Where a scan stands: the commands so far, and the members probed. */
  ghost predicate Scanning(
      env: (nat, Store) -> Store, first: Store, now: Store, tr: seq<Store>, me: Ticket,
      members: seq<Ticket>, i: nat, aliveAhead: bool)
    requires i <= |members|
  {
    && |tr| >= 2 && Sorted(tr[0].queue) && Sorted(tr[1].queue)
    && me in tr[0].queue && members == Prefix(tr[1].queue, IndexOf(tr[0].queue, me))
    && (aliveAhead || NoneBlocks(tr, me, members[..i]))
    && (Quiet(env) ==> tr[0] == first && tr[1] == first && Progress(first, now, members[..i], aliveAhead))
  }

  lemma ScanStarts(env: (nat, Store) -> Store, first: Store, tr: seq<Store>, me: Ticket, members: seq<Ticket>)
    requires |tr| == 2 && Sorted(tr[0].queue) && Sorted(tr[1].queue) && me in tr[0].queue
    requires members == Prefix(tr[1].queue, IndexOf(tr[0].queue, me))
    requires Quiet(env) ==> tr[0] == first && tr[1] == first
    ensures Scanning(env, first, tr[1], tr, me, members, 0, false)
  {
  }

  /** The member probed is alive. */
  lemma ScanFindsAlive(
      env: (nat, Store) -> Store, first: Store, now: Store, tr: seq<Store>, me: Ticket,
      members: seq<Ticket>, i: nat, aliveAhead: bool, seen: Store)
    requires i < |members| && Scanning(env, first, now, tr, me, members, i, aliveAhead)
    requires Sorted(now.queue) && members[i] in seen.alive && (Quiet(env) ==> seen == now)
    ensures Scanning(env, first, seen, tr + [seen], me, members, i + 1, true)
  {
    if Quiet(env) { ProgressStep(first, now, members, i, aliveAhead); }
  }

  /** The member probed is dead, and is removed. */
  lemma ScanFindsDead(
      env: (nat, Store) -> Store, first: Store, now: Store, tr: seq<Store>, me: Ticket,
      members: seq<Ticket>, i: nat, aliveAhead: bool, seen: Store, later: Store)
    requires i < |members| && Scanning(env, first, now, tr, me, members, i, aliveAhead)
    requires Sorted(now.queue) && members[i] !in seen.alive && (Quiet(env) ==> seen == now == later)
    ensures Scanning(env, first, later.(queue := Remove(later.queue, members[i])), tr + [seen] + [later],
                     me, members, i + 1, aliveAhead)
  {
    assert members[i] in tr[1].queue;
    NoneBlocksStep(tr, tr + [seen], me, members, i, aliveAhead);
    NoneBlocksLonger(tr + [seen], tr + [seen] + [later], me, members[..i + 1], aliveAhead);
    if Quiet(env) { ProgressStep(first, now, members, i, aliveAhead); }
  }

  lemma ScanEnds(
      env: (nat, Store) -> Store, first: Store, now: Store, tr: seq<Store>, me: Ticket,
      members: seq<Ticket>, aliveAhead: bool)
    requires Scanning(env, first, now, tr, me, members, |members|, aliveAhead)
    ensures forall b :: BlockedThroughout(tr, me, b) ==> aliveAhead
    ensures Quiet(env) ==> !aliveAhead == FirstAlive(first, me) && Cleaned(first, now, me)
  {
    assert members[..|members|] == members;
    forall b | BlockedThroughout(tr, me, b) ensures aliveAhead { SomebodyBlocks(tr, me, b, members); }
    if Quiet(env) { QuietVerdict(first, now, me, members, aliveAhead); }
  }

  lemma Undisturbed(env: (nat, Store) -> Store, n: nat, s: Store)
    ensures Quiet(env) ==> env(n, s) == s
  {
  }

  /** One round of the scan: EXISTS, and ZREM if nobody answers. */
  method Probe(
      client: Client, me: Ticket, members: seq<Ticket>, i: nat, aliveAhead: bool,
      ghost first: Store, ghost base: seq<Store>, ghost tr: seq<Store>)
    returns (alive: bool, ghost longer: seq<Store>)
    requires client.Valid() && i < |members| && client.trace == base + tr
    requires Scanning(client.env, first, client.store, tr, me, members, i, aliveAhead)
    modifies client
    ensures client.Valid() && client.trace == base + longer && |longer| > 0
    ensures Scanning(client.env, first, client.store, longer, me, members, i + 1, aliveAhead || alive)
  {
    ghost var now := client.store;
    Undisturbed(client.env, client.commands, now);
    alive := client.Exists(members[i]);
    ghost var seen := client.store;
    longer := tr + [seen];
    if alive {
      ScanFindsAlive(client.env, first, now, tr, me, members, i, aliveAhead, seen);
    } else {
      ghost var later := client.env(client.commands, seen);
      Undisturbed(client.env, client.commands, seen);
      client.ZRem(members[i]);
      longer := longer + [later];
      ScanFindsDead(client.env, first, now, tr, me, members, i, aliveAhead, seen, later);
    }
  }

  /** `True` if `me` is the first one alive in the line. Under any interleaving it is never `True`
      past somebody who stands ahead throughout; undisturbed, it answers exactly and removes exactly
      the dead ahead. */
  method IsHead(client: Client, me: Ticket) returns (head: bool)
    requires client.Valid()
    modifies client
    ensures client.Valid() && |old(client.trace)| < |client.trace|
    ensures forall b :: BlockedThroughout(client.trace[|old(client.trace)|..], me, b) ==> !head
    ensures Quiet(client.env) ==>
              head == FirstAlive(old(client.store), me) && Cleaned(old(client.store), client.store, me)
  {
    ghost var first, base := client.store, client.trace;
    Undisturbed(client.env, client.commands, first);
    var rank := client.ZRank(me);
    ghost var tr := [client.store];
    if rank.NotThere? || rank.rank == 0 {
      NobodyAhead(client.store, me);
      assert client.trace[|base|..] == tr;
      return true;
    }
    Undisturbed(client.env, client.commands, client.store);
    var members := client.ZRange(rank.rank);
    tr := tr + [client.store];
    ScanStarts(client.env, first, tr, me, members);
    var aliveAhead := false;
    for i := 0 to |members|
      invariant client.Valid() && client.trace == base + tr && |tr| > 0
      invariant Scanning(client.env, first, client.store, tr, me, members, i, aliveAhead)
    {
      var alive;
      alive, tr := Probe(client, me, members, i, aliveAhead, first, base, tr);
      if alive { aliveAhead := true; }
    }
    assert client.trace[|base|..] == tr;
    ScanEnds(client.env, first, client.store, tr, me, members, aliveAhead);
    head := !aliveAhead;
  }

  lemma NobodyAhead(seen: Store, me: Ticket)
    requires Sorted(seen.queue)
    requires me !in seen.queue || IndexOf(seen.queue, me) == 0
    ensures forall b :: !BlockedThroughout([seen], me, b)
    ensures FirstAlive(seen, me) && Cleaned(seen, seen, me)
  {
    if me in seen.queue { RankIsLowerCount(seen.queue, me); }
    assert me in seen.queue ==> Lower(seen.queue, me) == {};
    assert forall x :: me in seen.queue && x in seen.queue && Before(x, me) ==> x in Lower(seen.queue, me);
    forall b ensures !BlockedThroughout([seen], me, b) {
      assert [seen][0] == seen;
    }
  }

  lemma ShorterScan(short: seq<Store>, long: seq<Store>, me: Ticket, b: Ticket)
    requires short <= long && |short| > 0 && BlockedThroughout(long, me, b)
    ensures BlockedThroughout(short, me, b)
  {
    forall k | 0 <= k < |short|
      ensures me in short[k].queue && b in short[k].queue && b in short[k].alive
    {
      assert short[k] == long[k];
    }
    forall j, k, x | 0 <= j <= k < |short| && x in short[j].queue && x !in short[0].queue && Before(x, me)
      ensures x in short[k].alive
    {
      assert short[j] == long[j] && short[k] == long[k] && short[0] == long[0];
    }
  }

  lemma NoneBlocksLonger(short: seq<Store>, long: seq<Store>, me: Ticket, probed: seq<Ticket>, done: bool)
    requires short <= long && 0 < |short|
    requires done || NoneBlocks(short, me, probed)
    ensures done || NoneBlocks(long, me, probed)
  {
    forall b, x | !done && BlockedThroughout(long, me, b) && x in probed
      ensures x != b && (x in long[0].queue || !Before(x, me))
    {
      ShorterScan(short, long, me, b);
      assert long[0] == short[0];
    }
  }

  lemma NoneBlocksStep(
      short: seq<Store>, long: seq<Store>, me: Ticket, members: seq<Ticket>, i: nat, done: bool)
    requires short <= long && 2 <= |short| < |long| && i < |members|
    requires done || NoneBlocks(short, me, members[..i])
    requires members[i] in short[1].queue && members[i] !in long[|short|].alive
    ensures done || NoneBlocks(long, me, members[..i + 1])
  {
    NoneBlocksLonger(short, long, me, members[..i], done);
    assert members[..i + 1] == members[..i] + [members[i]];
    assert long[1] == short[1] && long[0] == short[0];
  }

  lemma SomebodyBlocks(tr: seq<Store>, me: Ticket, b: Ticket, members: seq<Ticket>)
    requires |tr| >= 2 && Sorted(tr[0].queue) && Sorted(tr[1].queue) && BlockedThroughout(tr, me, b)
    requires me in tr[0].queue ==> members == Prefix(tr[1].queue, IndexOf(tr[0].queue, me))
    ensures !NoneBlocks(tr, me, members)
  {
    RankIsLowerCount(tr[0].queue, me);
    var w := Pigeonhole(tr[1].queue, Lower(tr[0].queue, me), b);
  }

  lemma ProgressStep(first: Store, now: Store, members: seq<Ticket>, i: nat, aliveAhead: bool)
    requires i < |members| && Progress(first, now, members[..i], aliveAhead) && Sorted(now.queue)
    ensures members[i] in now.alive ==> Progress(first, now, members[..i + 1], true)
    ensures members[i] !in now.alive ==>
              Progress(first, now.(queue := Remove(now.queue, members[i])), members[..i + 1], aliveAhead)
  {
    assert members[..i + 1] == members[..i] + [members[i]];
    RemoveKeepsOrder(now.queue, members[i]);
  }

  lemma QuietVerdict(first: Store, now: Store, me: Ticket, members: seq<Ticket>, aliveAhead: bool)
    requires Sorted(first.queue) && me in first.queue
    requires members == Prefix(first.queue, IndexOf(first.queue, me))
    requires Progress(first, now, members, aliveAhead)
    ensures FirstAlive(first, me) <==> !aliveAhead
    ensures Cleaned(first, now, me)
  {
    RankIsLowerCount(first.queue, me);
    assert forall x :: x in members <==> x in Lower(first.queue, me);
  }
}
