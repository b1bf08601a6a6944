/** `composio_integration/state_token.py` and the callback that consumes the token. Times are
    milliseconds; the signature is an oracle: a callback carries a token of ours, or none. */
module StateToken {
  import opened Options

  const SECOND: int := 1000
  const TTL: int := 600 * SECOND

  /** `int(time.time())`. */
  function WholeSecond(t: int): int { t / SECOND * SECOND }

  /** `expires` is the `exp` claim. `issuedAt` is not in the token: it is what `expires` came from. */
  datatype Token = Token(user: int, toolkit: string, nonce: string, issuedAt: int, expires: int)

  /** `encode_state`, with the nonce it drew. */
  function Encode(user: int, toolkit: string, nonce: string, now: int): Token {
    Token(user, toolkit, nonce, now, WholeSecond(now) + TTL)
  }

  predicate Issued(t: Token) { t == Encode(t.user, t.toolkit, t.nonce, t.issuedAt) }

  datatype ConnectionStatus = Pending | Active | Failed

  datatype Connection = Connection(
    accountId: string, email: string, status: ConnectionStatus, lastError: string, triggerId: string)

  /** What the provider says of an account; none if the call raises. */
  datatype Account = Account(user: int, email: string)

  /** One callback: its query, when it decoded and when it consumed the nonce, until when the cache
      keeps the nonce, and the provider's answer. */
  datatype Callback = Callback(
    token: Option<Token>, status: string, accountId: string,
    decodeAt: int, consumeAt: int, keptUntil: int, account: Option<Account>)

  datatype Site = Site(nonces: map<string, int>, connections: map<int, Connection>)

  datatype Answer = BadToken | NonceUsed | Reported | NoAccount | NotOwner | Connected

  /** `decode_state`: not expired, as in section 4.1.4 of RFC 7519. */
  predicate Decodes(c: Callback) { c.token.Some? && c.decodeAt < c.token.value.expires }

  /** `cache.add` finds no live key. */
  predicate NonceFree(nonces: map<string, int>, nonce: string, now: int) {
    nonce != "" && !(nonce in nonces && now < nonces[nonce])
  }

  predicate GetsPast(s: Site, c: Callback) {
    Decodes(c) && NonceFree(s.nonces, c.token.value.nonce, c.consumeAt)
  }

  function Respond(s: Site, c: Callback): Answer {
    if !Decodes(c) then BadToken
    else if !GetsPast(s, c) then NonceUsed
    else if c.status != "success" then Reported
    else if c.account.None? then NoAccount
    else if c.account.value.user != c.token.value.user then NotOwner
    else Connected
  }

  function AfterCallback(s: Site, c: Callback): Site {
    if !GetsPast(s, c) then s
    else
      var t := c.token.value;
      var nonces := s.nonces[t.nonce := c.keptUntil];
      match Respond(s, c)
      case Reported =>
        Site(nonces, if t.user in s.connections
                     then s.connections[t.user := s.connections[t.user].(
                            status := Failed, lastError := "callback status=" + c.status)]
                     else s.connections)
      case Connected =>
        Site(nonces, s.connections[t.user := Connection(c.accountId, c.account.value.email, Active, "", "")])
      case _ => s.(nonces := nonces)
  }

  class Service {
    var nonces: map<string, int>
    var connections: map<int, Connection>

    function Now(): Site
      reads this
    {
      Site(nonces, connections)
    }

    constructor ()
      ensures Now() == Site(map[], map[])
    {
      nonces, connections := map[], map[];
    }

    /** `consume_nonce`. */
    method ConsumeNonce(nonce: string, now: int, keptUntil: int) returns (unseen: bool)
      modifies this`nonces
      ensures unseen <==> NonceFree(old(nonces), nonce, now)
      ensures nonces == if unseen then old(nonces)[nonce := keptUntil] else old(nonces)
    {
      if nonce == "" { return false; }
      if nonce in nonces && now < nonces[nonce] { return false; }
      nonces := nonces[nonce := keptUntil];
      unseen := true;
    }

    /** `complete_connect_flow`. */
    method CompleteConnectFlow(c: Callback) returns (answer: Answer)
      modifies this
      ensures answer == Respond(old(Now()), c)
      ensures Now() == AfterCallback(old(Now()), c)
    {
      if c.token.None? || c.decodeAt >= c.token.value.expires { return BadToken; }
      var payload := c.token.value;
      var unseen := ConsumeNonce(payload.nonce, c.consumeAt, c.keptUntil);
      if !unseen { return NonceUsed; }
      if c.status != "success" {
        if payload.user in connections {
          connections := connections[payload.user := connections[payload.user].(
            status := Failed, lastError := "callback status=" + c.status)];
        }
        return Reported;
      }
      if c.account.None? { return NoAccount; }
      var dto := c.account.value;
      if dto.user != payload.user { return NotOwner; }
      if payload.user !in connections {
        connections := connections[payload.user := Connection(c.accountId, dto.email, Active, "", "")];
      } else {
        var connection := connections[payload.user];
        connection := connection.(
          accountId := c.accountId, email := dto.email, status := Active, lastError := "", triggerId := "");
        connections := connections[payload.user := connection];
      }
      answer := Connected;
    }
  }

  // ------------------------------------------------------------ runs

  function Play(cs: seq<Callback>): Site {
    if cs == [] then Site(map[], map[]) else AfterCallback(Play(cs[..|cs| - 1]), cs[|cs| - 1])
  }

  predicate Past(cs: seq<Callback>, i: nat)
    requires i < |cs|
  {
    GetsPast(Play(cs[..i]), cs[i])
  }

  /** The clock is monotone: callbacks in the order in which they reach the cache. */
  predicate Monotone(cs: seq<Callback>) {
    (forall i :: 0 <= i < |cs| ==> cs[i].decodeAt <= cs[i].consumeAt)
    && forall i, j :: 0 <= i < j < |cs| ==> cs[i].consumeAt <= cs[j].consumeAt
  }

  /** The cache keeps a nonce for its timeout, cut to a whole second at worst. */
  predicate Kept(cs: seq<Callback>) {
    forall i :: 0 <= i < |cs| ==> cs[i].keptUntil >= WholeSecond(cs[i].consumeAt) + TTL
  }

  predicate SameNonce(c: Callback, d: Callback) {
    c.token.Some? && d.token.Some? && c.token.value.nonce == d.token.value.nonce
  }

  ghost predicate Consumed(cs: seq<Callback>, i: nat, nonce: string) {
    i < |cs| && cs[i].token.Some? && cs[i].token.value.nonce == nonce && Past(cs, i)
  }

  /** The cache holds a nonce until the last callback that consumed it says, no earlier one says more. */
  lemma {:induction false} NonceIsKept(cs: seq<Callback>, nonce: string)
    requires Monotone(cs)
    ensures nonce in Play(cs).nonces ==> exists i: nat :: Consumed(cs, i, nonce) && cs[i].keptUntil == Play(cs).nonces[nonce]
    ensures forall i: nat :: Consumed(cs, i, nonce) ==>
              nonce in Play(cs).nonces
              && (cs[i].keptUntil <= Play(cs).nonces[nonce] || cs[i].keptUntil <= cs[|cs| - 1].consumeAt)
  {
    if cs != [] {
      var front, n := cs[..|cs| - 1], |cs| - 1;
      NonceIsKept(front, nonce);
      forall i | 0 <= i < n ensures Consumed(cs, i, nonce) <==> Consumed(front, i, nonce) {
        assert cs[..i] == front[..i];
      }
      assert Past(cs, n) <==> GetsPast(Play(front), cs[n]);
      if Consumed(cs, n, nonce) {
        assert Play(cs).nonces[nonce] == cs[n].keptUntil;
      } else {
        assert nonce in Play(cs).nonces <==> nonce in Play(front).nonces;
        if nonce in Play(front).nonces {
          var i: nat :| Consumed(front, i, nonce) && front[i].keptUntil == Play(front).nonces[nonce];
          assert Consumed(cs, i, nonce);
        }
      }
      forall i: nat | Consumed(cs, i, nonce)
        ensures nonce in Play(cs).nonces
                && (cs[i].keptUntil <= Play(cs).nonces[nonce] || cs[i].keptUntil <= cs[n].consumeAt)
      {
        if i < n {
          assert Consumed(front, i, nonce);
          assert cs[n - 1].consumeAt <= cs[n].consumeAt;
        }
      }
    }
  }

  /** Exactly when a callback gets past the nonce check: its token decodes, and every earlier callback
      that consumed the nonce is forgotten by then. */
  lemma GetsPastIff(cs: seq<Callback>, j: nat)
    requires Monotone(cs) && j < |cs|
    ensures Past(cs, j) <==>
              && Decodes(cs[j]) && cs[j].token.value.nonce != ""
              && forall i: nat :: i < j && SameNonce(cs[i], cs[j]) && Past(cs, i) ==> cs[i].keptUntil <= cs[j].consumeAt
  {
    var before := cs[..j];
    if cs[j].token.Some? {
      var nonce := cs[j].token.value.nonce;
      NonceIsKept(before, nonce);
      forall i: nat | i < j ensures Consumed(before, i, nonce) <==> SameNonce(cs[i], cs[j]) && Past(cs, i) {
        assert before[..i] == cs[..i];
      }
      assert j > 0 ==> before[|before| - 1].consumeAt <= cs[j].consumeAt;
    }
  }

  /** Tokens are minted with nonces of their own, before they come back. */
  predicate Minted(cs: seq<Callback>) {
    && (forall i :: 0 <= i < |cs| && cs[i].token.Some? ==>
          Issued(cs[i].token.value) && cs[i].token.value.issuedAt <= cs[i].decodeAt)
    && (forall i, j :: 0 <= i < j < |cs| && SameNonce(cs[i], cs[j]) ==> cs[i].token == cs[j].token)
  }

  lemma WholeSecondMonotone(a: int, b: int)
    requires a <= b
    ensures WholeSecond(a) <= WholeSecond(b)
  {
  }

  /** A consumed nonce outlives the token. */
  lemma NonceOutlivesToken(cs: seq<Callback>, i: nat)
    requires Monotone(cs) && Kept(cs) && Minted(cs) && i < |cs| && cs[i].token.Some?
    ensures cs[i].keptUntil >= cs[i].token.value.expires
  {
    WholeSecondMonotone(cs[i].token.value.issuedAt, cs[i].consumeAt);
  }

  /** A token is used once for all time, when every callback consumes the nonce before the token
      expires, not only decodes it by then. */
  lemma SingleUse(cs: seq<Callback>, i: nat, j: nat)
    requires Monotone(cs) && Kept(cs) && Minted(cs) && i < j < |cs|
    requires SameNonce(cs[i], cs[j]) && cs[j].consumeAt < cs[j].token.value.expires
    ensures !(Past(cs, i) && Past(cs, j))
  {
    GetsPastIff(cs, j);
    NonceOutlivesToken(cs, i);
  }

  /** Without it: a callback at the instant of issue, and one that decodes just before the token
      expires and reaches the cache when the nonce has just been dropped, a second after its timeout. */
  function Straddling(): seq<Callback> {
    var token := Some(Encode(1, "gmail", "n", 0));
    [Callback(token, "success", "a", 0, 0, TTL + SECOND, Some(Account(1, "e"))),
     Callback(token, "success", "b", TTL - 1, TTL + SECOND, 2 * TTL + SECOND, Some(Account(1, "e")))]
  }

  lemma UsedTwice()
    ensures var cs := Straddling();
            && Monotone(cs) && Kept(cs) && Minted(cs)
            && Past(cs, 0) && Past(cs, 1) && Respond(Play(cs[..1]), cs[1]) == Connected
  {
    var cs := Straddling();
    assert cs[..1] == [cs[0]] && cs[..1][..0] == [] && cs[..0] == [];
    assert Play(cs[..1]).nonces == map["n" := TTL + SECOND];
  }

  /** A token is good for ten minutes, cut to a whole second. */
  lemma TokenLasts(t: Token)
    requires Issued(t)
    ensures t.issuedAt + 599 * 1000 < t.expires <= t.issuedAt + 600 * 1000
  {
  }

  // ------------------------------------------------------------ answers

  /** Which answer a callback gets: the first test that fails decides, and only an account of the user who
      began the flow connects. */
  lemma AnswerIff(s: Site, c: Callback)
    ensures Respond(s, c).BadToken? <==> c.token.None? || c.token.value.expires <= c.decodeAt
    ensures Respond(s, c).NonceUsed? <==> Decodes(c) && !GetsPast(s, c)
    ensures Respond(s, c).Reported? <==> GetsPast(s, c) && c.status != "success"
    ensures Respond(s, c).NoAccount? <==> GetsPast(s, c) && c.status == "success" && c.account.None?
    ensures Respond(s, c).Connected? <==>
              && GetsPast(s, c) && c.status == "success" && c.account.Some?
              && c.account.value.user == c.token.value.user
  {
  }

  /** What a callback leaves behind: a token that got past is used up; a reported failure marks the row,
      which keeps its account; a connection carries the new account and nothing of the old one. */
  lemma Leaves(s: Site, c: Callback)
    requires GetsPast(s, c)
    ensures AfterCallback(s, c).nonces == s.nonces[c.token.value.nonce := c.keptUntil]
    ensures var user := c.token.value.user;
            var before, after := s.connections, AfterCallback(s, c).connections;
            && (forall u :: u != user ==> (u in after <==> u in before) && (u in after ==> after[u] == before[u]))
            && (c.status != "success" ==> (user in after <==> user in before))
            && (c.status != "success" && user in before ==>
                  && after[user].status == Failed && after[user].lastError == "callback status=" + c.status
                  && after[user].accountId == before[user].accountId && after[user].email == before[user].email
                  && after[user].triggerId == before[user].triggerId)
            && (Respond(s, c).Connected? ==>
                  && user in after && after[user].status == Active && after[user].accountId == c.accountId
                  && after[user].email == c.account.value.email
                  && after[user].lastError == "" && after[user].triggerId == "")
            && (!Respond(s, c).Connected? && !Respond(s, c).Reported? ==> after == before)
  {
  }

  // ------------------------------------------------------------ connections

  /** A connection becomes or stays active with an account only if that account is its user's, and
      only by the user's own token. */
  lemma OnlyOwnersConnect(s: Site, c: Callback, user: int)
    requires user in AfterCallback(s, c).connections
    requires user !in s.connections || s.connections[user] != AfterCallback(s, c).connections[user]
    ensures Decodes(c) && c.token.value.user == user && GetsPast(s, c)
    ensures var row := AfterCallback(s, c).connections[user];
            && (row.status.Active? <==> Respond(s, c).Connected?)
            && (row.status.Active? ==> row.accountId == c.accountId && c.account == Some(Account(user, row.email)))
  {
  }
}
