/** `agents/duplicate_guard.py`: how often a text mentions an amount, and the cap on identical
    movements recorded in one turn. */
module DuplicateGuard {
  import opened Options
  import opened Texts
  import opened Powers
  import opened DecimalArithmetic
  import opened NumberText
  import opened CalculatorText
  import opened Thousands
  import opened ThousandsReadback

  // ------------------------------------------------------------ amount_mentions

  /** The length of the run of digits, points and commas at the start. */
  function NumberRun(t: string): (n: nat)
    ensures n <= |t| && (t != [] && IsDigit(t[0]) ==> n > 0)
    ensures forall i :: 0 <= i < n ==> IsNumChar(t[i])
    ensures n < |t| ==> !IsNumChar(t[n])
  {
    if t != [] && IsNumChar(t[0]) then 1 + NumberRun(t[1..]) else 0
  }

  /** An amount is also written short: in thousands or in millions. */
  predicate IsAmount(d: Option<Dec>, amount: real) {
    d.Some? && (Value(d.value) == amount || Value(d.value) * 1000.0 == amount || Value(d.value) * 1000000.0 == amount)
  }

  /** How many of the numbers written in `t` are the amount. A number begins with a digit. */
  function Mentions(t: string, amount: real): nat
    decreases |t|
  {
    if t == [] then 0
    else if IsDigit(t[0]) then
      var n := NumberRun(t);
      (if IsAmount(AsDecimal(t[..n]), amount) then 1 else 0) + Mentions(t[n..], amount)
    else Mentions(t[1..], amount)
  }

  method AmountMentions(message: string, amount: real) returns (count: nat)
    ensures count == Mentions(message, amount)
  {
    count := 0;
    var i := 0;
    while i < |message|
      invariant 0 <= i <= |message|
      invariant count + Mentions(message[i..], amount) == Mentions(message, amount)
    {
      var rest := message[i..];
      if IsDigit(message[i]) {
        var n := NumberRun(rest);
        if IsAmount(AsDecimal(rest[..n]), amount) { count := count + 1; }
        assert rest[n..] == message[i + n..];
        i := i + n;
      } else {
        assert rest[1..] == message[i + 1..];
        i := i + 1;
      }
    }
  }

  lemma {:induction false} RunBefore(a: string, sep: char, b: string)
    requires !IsNumChar(sep)
    ensures NumberRun(a + [sep] + b) == NumberRun(a)
  {
    var t := a + [sep] + b;
    if a != [] && IsNumChar(a[0]) {
      RunBefore(a[1..], sep, b);
      assert t[1..] == a[1..] + [sep] + b;
    }
  }

  /** Mentions add up over texts joined by anything that is not part of a number. */
  lemma {:induction false} MentionsJoined(a: string, sep: char, b: string, amount: real)
    requires !IsNumChar(sep)
    ensures Mentions(a + [sep] + b, amount) == Mentions(a, amount) + Mentions(b, amount)
    decreases |a|
  {
    var t := a + [sep] + b;
    if a == [] {
      assert t[1..] == b;
    } else if IsDigit(a[0]) {
      var n := NumberRun(a);
      RunBefore(a, sep, b);
      MentionsJoined(a[n..], sep, b, amount);
      assert t[n..] == a[n..] + [sep] + b && t[..n] == a[..n];
    } else {
      MentionsJoined(a[1..], sep, b, amount);
      assert t[1..] == a[1..] + [sep] + b;
    }
  }

  /** One number written alone. */
  lemma MentionsAlone(t: string, amount: real)
    requires t != [] && IsDigit(t[0]) && forall i :: 0 <= i < |t| ==> IsNumChar(t[i])
    ensures Mentions(t, amount) == if IsAmount(AsDecimal(t), amount) then 1 else 0
  {
    assert NumberRun(t) == |t|;
    assert t[..|t|] == t && t[|t|..] == [];
  }

  /** `k` words, separated. */
  function Repeated(words: seq<string>, sep: char): string {
    if words == [] then [] else words[0] + [sep] + Repeated(words[1..], sep)
  }

  predicate Writes(word: string, n: nat) {
    word == Digits(n) || word == Grouped(n, '.')
  }

  /** The integer stands for the amount: itself, in thousands, or in millions. */
  predicate StandsFor(n: nat, amount: real) {
    n as real == amount || (n * 1000) as real == amount || (n * 1000000) as real == amount
  }

  /** How many of the integers stand for the amount. */
  function Standing(ns: seq<nat>, amount: real): nat {
    if ns == [] then 0 else (if StandsFor(ns[0], amount) then 1 else 0) + Standing(ns[1..], amount)
  }

  /** The words write these integers, plain or with points. */
  predicate WriteAll(words: seq<string>, ns: seq<nat>) {
    |words| == |ns| && forall i :: 0 <= i < |ns| ==> Writes(words[i], ns[i])
  }

  lemma WordStands(word: string, n: nat, amount: real)
    requires Writes(word, n)
    ensures Mentions(word, amount) == if StandsFor(n, amount) then 1 else 0
  {
    IntegersAreRead(n);
    DigitsReadBack(n);
    GroupedEnds(n, '.');
    GroupedChars(n);
    MentionsAlone(word, amount);
    ScaledInteger(n, Value(AsDecimal(word).value), amount);
  }

  lemma ScaledInteger(n: nat, v: real, amount: real)
    requires v == n as real
    ensures v == amount || v * 1000.0 == amount || v * 1000000.0 == amount <==> StandsFor(n, amount)
  {
  }

  /** A message that writes integers mentions an amount as often as one of them stands for it. */
  lemma {:induction false} MentionsStanding(words: seq<string>, ns: seq<nat>, sep: char, amount: real)
    requires !IsNumChar(sep) && WriteAll(words, ns)
    ensures Mentions(Repeated(words, sep), amount) == Standing(ns, amount)
  {
    if words != [] {
      MentionsStanding(words[1..], ns[1..], sep, amount);
      MentionsJoined(words[0], sep, Repeated(words[1..], sep), amount);
      WordStands(words[0], ns[0], amount);
    }
  }

  lemma {:induction false} NoneStands(ns: seq<nat>, amount: real)
    ensures Standing(ns, amount) == 0 <==> forall n :: n in ns ==> !StandsFor(n, amount)
  {
    if ns != [] {
      NoneStands(ns[1..], amount);
      assert forall n :: n in ns <==> n == ns[0] || n in ns[1..];
    }
  }

  /** Writing an amount `k` times, plain or with points, is `k` mentions. */
  lemma {:induction false} MentionsCounted(words: seq<string>, sep: char, n: nat)
    requires !IsNumChar(sep) && forall i :: 0 <= i < |words| ==> Writes(words[i], n)
    ensures Mentions(Repeated(words, sep), n as real) == |words|
  {
    if words != [] {
      MentionsCounted(words[1..], sep, n);
      MentionsJoined(words[0], sep, Repeated(words[1..], sep), n as real);
      WordStands(words[0], n, n as real);
    }
  }

  // ------------------------------------------------------------ the cap of one turn

  /** What makes two movements identical in a turn. `words` is the note, or the category without one. */
  datatype Key = Key(kind: string, amount: real, currency: string, words: seq<string>, day: Option<string>)

  /** The key of a call, from what it is given. */
  function KeyOf(kind: string, amount: real, currency: string, words: seq<string>, day: Option<string>): Key {
    Key(kind, amount, Upper(currency), words, day)
  }

  /** Two calls are about the same movement exactly if all of that agrees, the currency but for capitals. */
  lemma SameKeyIff(
    kind: string, kind': string, amount: real, amount': real, currency: string, currency': string,
    words: seq<string>, words': seq<string>, day: Option<string>, day': Option<string>)
    ensures KeyOf(kind, amount, currency, words, day) == KeyOf(kind', amount', currency', words', day') <==>
              kind == kind' && amount == amount' && Lower(currency) == Lower(currency') && words == words' && day == day'
  {
    SameUpper(currency, currency');
  }

  datatype Limit = Unlimited | AtMost(n: nat)

  function Max2(a: nat, b: nat): nat { if a < b then b else a }

  /** As many as the amount is written, in the message or the one before, and at least one; no cap
      when the user asked to repeat. */
  function TurnLimit(message: string, previous: string, asksRepetition: bool, amount: real): Limit {
    if asksRepetition then Unlimited
    else AtMost(Max2(1, Max2(Mentions(message, amount), Mentions(previous, amount))))
  }

  predicate Full(limit: Limit, done: nat) { limit.AtMost? && done >= limit.n }

  predicate Failed(result: string) { "Error" <= result }

  function Done(created: map<Key, seq<string>>, key: Key): seq<string> {
    if key in created then created[key] else []
  }

  /** The amount as `Decimal(str(amount))` reads it: not always a number. */
  datatype Amount = NotANumber | Number(value: real)

  /** How `do_create` ends; when it raises, it may have recorded the movement before. */
  datatype Ending = Returns(result: string) | Raises(recorded: bool)

  datatype Answer = Ran(ending: Ending) | Refused(already: string)

  predicate Succeeds(e: Ending) { e.Returns? && !Failed(e.result) }

  /** What a turn remembers after a call for `key`: nothing new if it is full or `do_create` did not
      return a movement. */
  function AfterCreate(created: map<Key, seq<string>>, key: Key, limit: Limit, ending: Ending): map<Key, seq<string>> {
    var done := Done(created, key);
    if Full(limit, |done|) || !Succeeds(ending) then created else created[key := done + [ending.result]]
  }

  /** Exactly when a call adds to what the turn remembers: the cap is not reached, and `do_create` returned
      a text that does not begin with "Error". */
  lemma NotedIff(created: map<Key, seq<string>>, key: Key, limit: Limit, ending: Ending)
    ensures var after := AfterCreate(created, key, limit, ending);
            var done := if key in created then created[key] else [];
            && (after != created <==>
                  && (limit.Unlimited? || |done| < limit.n)
                  && ending.Returns? && !(|ending.result| >= 5 && ending.result[..5] == "Error"))
            && (after != created ==> after == created[key := done + [ending.result]])
  {
    if ending.Returns? { assert Failed(ending.result) <==> |ending.result| >= 5 && ending.result[..5] == "Error"; }
    var done := Done(created, key);
    if !Full(limit, |done|) && Succeeds(ending) { assert |Done(created[key := done + [ending.result]], key)| == |done| + 1; }
  }

  class TurnCreations {
    const message: string
    const previous: string
    const asksRepetition: bool
    var created: map<Key, seq<string>>

    constructor (message: string, previous: string, asksRepetition: bool)
      ensures this.message == message && this.previous == previous && this.asksRepetition == asksRepetition
      ensures created == map[]
    {
      this.message, this.previous, this.asksRepetition := message, previous, asksRepetition;
      this.created := map[];
    }

    ghost predicate Valid()
      reads this
    {
      forall k :: k in created ==> created[k] != []
    }

    method LimitFor(amount: real) returns (limit: Limit)
      ensures limit == TurnLimit(message, previous, asksRepetition, amount)
    {
      if asksRepetition { return Unlimited; }
      var here := AmountMentions(message, amount);
      var before := AmountMentions(previous, amount);
      limit := AtMost(Max2(1, Max2(here, before)));
    }

    /** One `create` call, the lock held; `ending` is how `do_create` would end. */
    method Create(kind: string, amount: Amount, currency: string, words: seq<string>, day: Option<string>,
                  ending: Ending)
      returns (answer: Answer)
      requires Valid()
      modifies this
      ensures Valid()
      ensures amount.NotANumber? ==> answer == Ran(ending) && created == old(created)
      ensures amount.Number? ==>
                var key := KeyOf(kind, amount.value, currency, words, day);
                var done := Done(old(created), key);
                var limit := TurnLimit(message, previous, asksRepetition, amount.value);
                && answer == (if Full(limit, |done|) then Refused(done[0]) else Ran(ending))
                && created == AfterCreate(old(created), key, limit, ending)
    {
      if amount.NotANumber? { return Ran(ending); }
      var key := KeyOf(kind, amount.value, currency, words, day);
      var done := Done(created, key);
      var limit := LimitFor(amount.value);
      if Full(limit, |done|) { return Refused(done[0]); }
      if ending.Returns? && !Failed(ending.result) { created := created[key := done + [ending.result]]; }
      answer := Ran(ending);
    }
  }

  // ------------------------------------------------------------ concurrent calls

  /** Where a call is: it waits for the lock, checks under it, creates, notes the result, leaves. */
  datatype Pc = Wanting | Checking | Creating | Noting(result: string) | Leaving(ran: bool) | Over(ran: bool)

  datatype Call = Call(key: Key, pc: Pc)

  /** `log` lists the movements created, in order; `lost` those of a `do_create` that raised after it had
      recorded one. */
  datatype Turn = Turn(
    created: map<Key, seq<string>>, holder: Option<nat>, calls: map<nat, Call>, log: seq<Key>, lost: seq<Key>)

  datatype Step =
    | Arrive(id: nat, key: Key)
    | Lock(id: nat)
    | Check(id: nat)
    | DoCreate(id: nat, ending: Ending)
    | Note(id: nat)
    | Unlock(id: nat)

  const Start: Turn := Turn(map[], None, map[], [], [])

  function Goto(t: Turn, id: nat, pc: Pc): Turn
    requires id in t.calls
  {
    t.(calls := t.calls[id := t.calls[id].(pc := pc)])
  }

  predicate Is(t: Turn, id: nat, pc: Pc) { id in t.calls && t.calls[id].pc == pc }

  /** One step of one thread; nothing happens when it is not that thread's turn to do it. */
  function Next(t: Turn, s: Step, limit: real -> Limit): Turn {
    match s
    case Arrive(id, key) => if id in t.calls then t else t.(calls := t.calls[id := Call(key, Wanting)])
    case Lock(id) => if Is(t, id, Wanting) && t.holder.None? then Goto(t, id, Checking).(holder := Some(id)) else t
    case Check(id) =>
      if !Is(t, id, Checking) then t
      else
        var key := t.calls[id].key;
        Goto(t, id, if Full(limit(key.amount), |Done(t.created, key)|) then Leaving(false) else Creating)
    case DoCreate(id, Returns(result)) =>
      if !Is(t, id, Creating) then t
      else
        Goto(t, id, Noting(result)).(log := if Failed(result) then t.log else t.log + [t.calls[id].key])
    case DoCreate(id, Raises(recorded)) =>
      // The exception leaves the `with` block: the lock is released and nothing is noted.
      if !Is(t, id, Creating) then t
      else
        Goto(t, id, Leaving(true)).(lost := if recorded then t.lost + [t.calls[id].key] else t.lost)
    case Note(id) =>
      if !(id in t.calls && t.calls[id].pc.Noting?) then t
      else
        var key, result := t.calls[id].key, t.calls[id].pc.result;
        Goto(t, id, Leaving(true)).(created :=
          if Failed(result) then t.created else t.created[key := Done(t.created, key) + [result]])
    case Unlock(id) =>
      if !(id in t.calls && t.calls[id].pc.Leaving?) then t
      else Goto(t, id, Over(t.calls[id].pc.ran)).(holder := None)
  }

  function Play(steps: seq<Step>, limit: real -> Limit): Turn {
    if steps == [] then Start else Next(Play(steps[..|steps| - 1], limit), steps[|steps| - 1], limit)
  }

  function Count(log: seq<Key>, key: Key): nat {
    if log == [] then 0 else Count(log[..|log| - 1], key) + if log[|log| - 1] == key then 1 else 0
  }

  predicate Inside(pc: Pc) { pc.Checking? || pc.Creating? || pc.Noting? || pc.Leaving? }

  /** Created but not yet noted. */
  function Pending(t: Turn, key: Key): nat {
    if t.holder.Some? && t.holder.value in t.calls
       && t.calls[t.holder.value].key == key && t.calls[t.holder.value].pc.Noting?
       && !Failed(t.calls[t.holder.value].pc.result)
    then 1 else 0
  }

  ghost predicate Safe(t: Turn, limit: real -> Limit) {
    && (forall id :: id in t.calls && Inside(t.calls[id].pc) ==> t.holder == Some(id))
    && (t.holder.Some? ==> t.holder.value in t.calls && Inside(t.calls[t.holder.value].pc))
    && (forall key: Key :: Count(t.log, key) == |Done(t.created, key)| + Pending(t, key))
    && (forall id :: id in t.calls && t.calls[id].pc.Creating? ==>
          !Full(limit(t.calls[id].key.amount), |Done(t.created, t.calls[id].key)|))
    && (forall key: Key :: limit(key.amount).AtMost? ==> Count(t.log, key) <= limit(key.amount).n)
  }

  lemma CountMore(log: seq<Key>, more: Key, key: Key)
    ensures Count(log + [more], key) == Count(log, key) + if more == key then 1 else 0
  {
    assert (log + [more])[..|log|] == log;
  }

  /** The key being created goes from below its cap to at most its cap; the others stay. */
  lemma CreateCounts(t: Turn, id: nat, ending: Ending, limit: real -> Limit, k: Key)
    requires Is(t, id, Creating) && t.holder == Some(id)
    requires Count(t.log, k) == |Done(t.created, k)| + Pending(t, k)
    requires !Full(limit(t.calls[id].key.amount), |Done(t.created, t.calls[id].key)|)
    requires limit(k.amount).AtMost? ==> Count(t.log, k) <= limit(k.amount).n
    ensures var t' := Next(t, DoCreate(id, ending), limit);
            && Count(t'.log, k) == |Done(t'.created, k)| + Pending(t', k)
            && (limit(k.amount).AtMost? ==> Count(t'.log, k) <= limit(k.amount).n)
  {
    CountMore(t.log, t.calls[id].key, k);
  }

  lemma CreateKeepsSafe(t: Turn, id: nat, ending: Ending, limit: real -> Limit)
    requires Safe(t, limit) && Is(t, id, Creating)
    ensures Safe(Next(t, DoCreate(id, ending), limit), limit)
  {
    var t' := Next(t, DoCreate(id, ending), limit);
    forall k: Key
      ensures Count(t'.log, k) == |Done(t'.created, k)| + Pending(t', k)
              && (limit(k.amount).AtMost? ==> Count(t'.log, k) <= limit(k.amount).n)
    {
      CreateCounts(t, id, ending, limit, k);
    }
  }

  lemma NoteKeepsSafe(t: Turn, id: nat, limit: real -> Limit)
    requires Safe(t, limit) && id in t.calls && t.calls[id].pc.Noting?
    ensures Safe(Next(t, Note(id), limit), limit)
  {
    var t' := Next(t, Note(id), limit);
    forall k: Key ensures Count(t'.log, k) == |Done(t'.created, k)| + Pending(t', k) {
      assert Count(t.log, k) == |Done(t.created, k)| + Pending(t, k);
    }
  }

  lemma LockKeepsSafe(t: Turn, s: Step, limit: real -> Limit)
    requires Safe(t, limit) && (s.Arrive? || s.Lock? || s.Check? || s.Unlock?)
    ensures Safe(Next(t, s, limit), limit)
  {
    var t' := Next(t, s, limit);
    assert t'.log == t.log && t'.created == t.created;
    forall k: Key ensures Pending(t', k) == Pending(t, k) {
    }
  }

  lemma SafeKept(t: Turn, s: Step, limit: real -> Limit)
    requires Safe(t, limit)
    ensures Safe(Next(t, s, limit), limit)
  {
    match s
    case DoCreate(id, ending) => if Is(t, id, Creating) { CreateKeepsSafe(t, id, ending, limit); }
    case Note(id) => if id in t.calls && t.calls[id].pc.Noting? { NoteKeepsSafe(t, id, limit); }
    case _ => LockKeepsSafe(t, s, limit);
  }

  lemma {:induction false} SafeAlways(steps: seq<Step>, limit: real -> Limit)
    ensures Safe(Play(steps, limit), limit)
  {
    if steps != [] {
      SafeAlways(steps[..|steps| - 1], limit);
      SafeKept(Play(steps[..|steps| - 1], limit), steps[|steps| - 1], limit);
    }
  }

  /** Whatever the interleaving, no key is created with success more often than the larger of one and
      the mentions of its amount. */
  lemma TurnCap(steps: seq<Step>, message: string, previous: string, key: Key)
    ensures var limit := (amount: real) => TurnLimit(message, previous, false, amount);
            Count(Play(steps, limit).log, key)
            <= Max2(1, Max2(Mentions(message, key.amount), Mentions(previous, key.amount)))
  {
    var limit := (amount: real) => TurnLimit(message, previous, false, amount);
    SafeAlways(steps, limit);
    assert limit(key.amount).AtMost?;
  }

  /** A turn whose messages write the amount at most once each creates one movement of the key at most;
      with `k` times, `k` at most. */
  lemma NamedOftenEnough(
    steps: seq<Step>, words: seq<string>, ns: seq<nat>, before: seq<string>, ms: seq<nat>, sep: char, key: Key, k: nat)
    requires !IsNumChar(sep) && WriteAll(words, ns) && WriteAll(before, ms)
    requires k >= 1 && Standing(ns, key.amount) <= k && Standing(ms, key.amount) <= k
    ensures var limit := (amount: real) =>
              TurnLimit(Repeated(words, sep), Repeated(before, sep), false, amount);
            Count(Play(steps, limit).log, key) <= k
  {
    TurnCap(steps, Repeated(words, sep), Repeated(before, sep), key);
    MentionsStanding(words, ns, sep, key.amount);
    MentionsStanding(before, ms, sep, key.amount);
  }

  /** Exactly when a call is refused: no repetition was asked for, and as many movements of the key were
      created as the larger of one and the mentions of its amount. */
  lemma RefusedIff(steps: seq<Step>, id: nat, message: string, previous: string, asks: bool)
    ensures var limit := (amount: real) => TurnLimit(message, previous, asks, amount);
            var t := Play(steps, limit);
            Is(t, id, Checking) ==>
              var key := t.calls[id].key;
              (Is(Next(t, Check(id), limit), id, Leaving(false)) <==>
                 !asks && Count(t.log, key) >= 1 && Count(t.log, key) >= Mentions(message, key.amount)
                 && Count(t.log, key) >= Mentions(previous, key.amount))
  {
    var limit := (amount: real) => TurnLimit(message, previous, asks, amount);
    SafeAlways(steps, limit);
    var t := Play(steps, limit);
    if Is(t, id, Checking) {
      var key := t.calls[id].key;
      assert Count(t.log, key) == |Done(t.created, key)| + Pending(t, key);
      assert Pending(t, key) == 0;
    }
  }

  /** A call is refused only when its key was created before; the first one never is. */
  lemma FirstIsNeverRefused(steps: seq<Step>, id: nat, message: string, previous: string, asks: bool)
    ensures var limit := (amount: real) => TurnLimit(message, previous, asks, amount);
            var t := Play(steps, limit);
            Is(t, id, Checking) && Is(Next(t, Check(id), limit), id, Leaving(false)) ==>
              !asks && Count(t.log, t.calls[id].key) >= 1
  {
    RefusedIff(steps, id, message, previous, asks);
  }

  // ------------------------------------------------------------ a creation that raises

  /** Movements of a key that exist, whether the turn knows of them or not. */
  function Recorded(t: Turn, key: Key): nat { Count(t.log, key) + Count(t.lost, key) }

  /** Exactly when a call goes on to create although the cap is already reached: some movement was
      recorded by a `do_create` that then raised, and without it the cap is not reached. */
  lemma AdmitsBeyondCapIff(t: Turn, id: nat, limit: real -> Limit)
    requires Safe(t, limit) && Is(t, id, Checking) && limit(t.calls[id].key.amount).AtMost?
    ensures var key := t.calls[id].key;
            var cap := limit(key.amount).n;
            Is(Next(t, Check(id), limit), id, Creating) && Recorded(t, key) >= cap <==>
              Count(t.log, key) < cap <= Recorded(t, key)
  {
    var key := t.calls[id].key;
    assert Count(t.log, key) == |Done(t.created, key)| + Pending(t, key);
  }

  /** Whatever the interleaving, the movements of a key that exist exceed the cap by no more than those
      whose creation raised. */
  lemma RecordedBound(steps: seq<Step>, message: string, previous: string, key: Key)
    ensures var limit := (amount: real) => TurnLimit(message, previous, false, amount);
            var t := Play(steps, limit);
            Recorded(t, key) <= Max2(1, Max2(Mentions(message, key.amount), Mentions(previous, key.amount)))
                                + Count(t.lost, key)
  {
    TurnCap(steps, message, previous, key);
  }

  /** The step records a movement of the key. */
  predicate Records(t: Turn, s: Step, key: Key) {
    s.DoCreate? && Is(t, s.id, Creating) && t.calls[s.id].key == key
    && (Succeeds(s.ending) || s.ending == Raises(true))
  }

  lemma RecordedStep(t: Turn, s: Step, limit: real -> Limit, key: Key)
    ensures Recorded(Next(t, s, limit), key) == Recorded(t, key) + if Records(t, s, key) then 1 else 0
  {
    if s.DoCreate? && Is(t, s.id, Creating) {
      CountMore(t.log, t.calls[s.id].key, key);
      CountMore(t.lost, t.calls[s.id].key, key);
    }
  }

  /** At the `k`-th step a movement is recorded although there are `cap` already. */
  predicate RecordsBeyond(steps: seq<Step>, k: nat, limit: real -> Limit, key: Key, cap: nat)
    requires k < |steps|
  {
    Records(Play(steps[..k], limit), steps[k], key) && Recorded(Play(steps[..k], limit), key) >= cap
  }

  /** Over whole runs: more than `cap` movements exist exactly when one was recorded with `cap` there. */
  lemma {:induction false} BeyondCapIff(steps: seq<Step>, limit: real -> Limit, key: Key, cap: nat)
    ensures Recorded(Play(steps, limit), key) > cap <==>
              exists k :: 0 <= k < |steps| && RecordsBeyond(steps, k, limit, key, cap)
  {
    if steps != [] {
      var n := |steps| - 1;
      BeyondCapIff(steps[..n], limit, key, cap);
      RecordedStep(Play(steps[..n], limit), steps[n], limit, key);
      forall k | 0 <= k < n
        ensures RecordsBeyond(steps, k, limit, key, cap) <==> RecordsBeyond(steps[..n], k, limit, key, cap)
      {
        assert steps[..n][..k] == steps[..k];
      }
      if Recorded(Play(steps, limit), key) > cap {
        if Recorded(Play(steps[..n], limit), key) > cap {
          var k :| 0 <= k < n && RecordsBeyond(steps[..n], k, limit, key, cap);
          assert RecordsBeyond(steps, k, limit, key, cap);
        } else {
          assert RecordsBeyond(steps, n, limit, key, cap);
        }
      }
    }
  }

  /** And the first such step comes after a creation that raised. */
  lemma BeyondCapWasLost(steps: seq<Step>, k: nat, message: string, previous: string, key: Key)
    requires k < |steps|
    requires RecordsBeyond(steps, k, (amount: real) => TurnLimit(message, previous, false, amount), key,
                           Max2(1, Max2(Mentions(message, key.amount), Mentions(previous, key.amount))))
    ensures Count(Play(steps[..k], (amount: real) => TurnLimit(message, previous, false, amount)).lost, key) > 0
  {
    var limit := (amount: real) => TurnLimit(message, previous, false, amount);
    var t := Play(steps[..k], limit);
    SafeAlways(steps[..k], limit);
    var id := steps[k].id;
    assert Is(t, id, Creating) && Count(t.log, key) == |Done(t.created, key)| + Pending(t, key);
    assert Pending(t, key) == 0;
  }

  const TaxiKey: Key := Key("expense", 20.0, "COP", ["taxi"], None)

  /** One call records and raises, the next one records again. */
  function RaisedSteps(): seq<Step> {
    [Arrive(0, TaxiKey), Lock(0), Check(0), DoCreate(0, Raises(true)), Unlock(0),
     Arrive(1, TaxiKey), Lock(1), Check(1), DoCreate(1, Returns("ok"))]
  }

  lemma PlayMore(steps: seq<Step>, s: Step, limit: real -> Limit)
    ensures Play(steps + [s], limit) == Next(Play(steps, limit), s, limit)
  {
    assert (steps + [s])[..|steps|] == steps;
  }

  lemma FirstCallRaises(limit: real -> Limit)
    requires limit(20.0) == AtMost(1)
    ensures Play(RaisedSteps()[..5], limit) ==
              Start.(calls := map[0 := Call(TaxiKey, Over(true))], lost := [TaxiKey])
  {
    var s := RaisedSteps();
    assert s[..1] == [] + [s[0]] && s[..2] == s[..1] + [s[1]] && s[..3] == s[..2] + [s[2]];
    assert s[..4] == s[..3] + [s[3]] && s[..5] == s[..4] + [s[4]];
    PlayMore([], s[0], limit);
    PlayMore(s[..1], s[1], limit);
    PlayMore(s[..2], s[2], limit);
    PlayMore(s[..3], s[3], limit);
    PlayMore(s[..4], s[4], limit);
  }

  lemma SecondCallCreates(limit: real -> Limit)
    requires limit(20.0) == AtMost(1)
    ensures Play(RaisedSteps(), limit).log == [TaxiKey] && Play(RaisedSteps(), limit).lost == [TaxiKey]
  {
    var s := RaisedSteps();
    FirstCallRaises(limit);
    assert s[..6] == s[..5] + [s[5]] && s[..7] == s[..6] + [s[6]] && s[..8] == s[..7] + [s[7]] && s == s[..8] + [s[8]];
    PlayMore(s[..5], s[5], limit);
    PlayMore(s[..6], s[6], limit);
    PlayMore(s[..7], s[7], limit);
    PlayMore(s[..8], s[8], limit);
  }

  /** The message names no amount, so the cap is one; two movements exist. */
  lemma RaisedIsForgotten()
    ensures var limit := (amount: real) => TurnLimit("", "", false, amount);
            limit(20.0) == AtMost(1) && Recorded(Play(RaisedSteps(), limit), TaxiKey) == 2
  {
    var limit := (amount: real) => TurnLimit("", "", false, amount);
    SecondCallCreates(limit);
    CountMore([], TaxiKey, TaxiKey);
    assert [] + [TaxiKey] == [TaxiKey];
  }

  /** The steps of a call under the lock are one `Create`. */
  lemma CallIsCreate(t: Turn, id: nat, ending: Ending, limit: real -> Limit)
    requires Is(t, id, Checking)
    ensures var key := t.calls[id].key;
            var checked := Next(t, Check(id), limit);
            var over := Next(Next(checked, DoCreate(id, ending), limit), Note(id), limit);
            && over.created == AfterCreate(t.created, key, limit(key.amount), ending)
            && Is(over, id, Leaving(!Full(limit(key.amount), |Done(t.created, key)|)))
  {
    var key := t.calls[id].key;
    var checked := Next(t, Check(id), limit);
    var made := Next(checked, DoCreate(id, ending), limit);
    assert made.created == t.created && made.calls[id].key == key;
    if Full(limit(key.amount), |Done(t.created, key)|) {
      assert Is(checked, id, Leaving(false)) && made == checked;
    } else {
      assert Is(checked, id, Creating);
    }
  }
}
