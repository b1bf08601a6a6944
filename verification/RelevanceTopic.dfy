/** `agents/relevance_guard.py`, the second half: the streak of off-topic messages of one sender. The
    classifier may answer anything. */
module RelevanceTopic {
  import opened Options
  import opened BurstCounter
  import opened RelevanceGuard

  /** What the local tests see in a message and its thread. */
  datatype Text = Text(blank: bool, command: bool, finance: bool, product: bool, courtesy: bool, continues: bool)

  /** `onTopic` and `automated` are the classifier's; the cache is read at `getAt`, written at `setAt`. */
  datatype Message = Message(text: Text, onTopic: bool, automated: bool, getAt: int, setAt: int)

  datatype Streak = Streak(n: nat, expires: int)

  datatype Answer = Allow | Notice | SilentAutomated | SilentRepeat

  function StrikeAt(s: Option<Streak>, now: int): nat {
    if s.Some? && now < s.value.expires then s.value.n else 0
  }

  /** `_local_allow`: courtesies and short answers count only while there is no streak. */
  predicate LocalAllow(t: Text, strike: nat) {
    t.blank || t.command || t.finance || t.product || (strike == 0 && (t.courtesy || t.continues))
  }

  function Decide(s: Option<Streak>, m: Message): Answer {
    var strike := StrikeAt(s, m.getAt);
    if LocalAllow(m.text, strike) || (m.onTopic && !m.automated) then Allow
    else if m.automated then SilentAutomated
    else if strike == 0 then Notice
    else SilentRepeat
  }

  function Next(s: Option<Streak>, m: Message): Option<Streak> {
    var strike := StrikeAt(s, m.getAt);
    if Decide(s, m).Allow? then (if strike > 0 then None else s)
    else Some(Streak(strike + 1, m.setAt + STRIKE_TTL))
  }

  class TopicGuard {
    const enabled: bool
    var streak: Option<Streak>

    constructor (enabled: bool)
      ensures streak == None && this.enabled == enabled
    {
      this.enabled := enabled;
      streak := None;
    }

    /** `check_relevance`; switched off, it allows everything and remembers nothing. */
    method CheckRelevance(m: Message) returns (answer: Answer)
      modifies this
      ensures answer == if enabled then Decide(old(streak), m) else Allow
      ensures streak == if enabled then Next(old(streak), m) else old(streak)
    {
      if !enabled { return Allow; }
      var strike: nat := 0;
      if streak.Some? && m.getAt < streak.value.expires { strike := streak.value.n; }
      if LocalAllow(m.text, strike) {
        if strike > 0 { streak := None; }
        return Allow;
      }
      if m.onTopic && !m.automated {
        if strike > 0 { streak := None; }
        return Allow;
      }
      if m.automated {
        streak := Some(Streak(strike + 1, m.setAt + STRIKE_TTL));
        return SilentAutomated;
      }
      strike := strike + 1;
      streak := Some(Streak(strike, m.setAt + STRIKE_TTL));
      if strike == 1 { return Notice; }
      answer := SilentRepeat;
    }
  }

  // ------------------------------------------------------------ whole conversations

  function Conversation(ms: seq<Message>): Option<Streak> {
    if ms == [] then None else Next(Conversation(ms[..|ms| - 1]), ms[|ms| - 1])
  }

  function AnswerTo(ms: seq<Message>, i: nat): Answer
    requires i < |ms|
  {
    Decide(Conversation(ms[..i]), ms[i])
  }

  /** Messages i + 1 .. j - 1 are not allowed, and each comes within a day of the one before. */
  predicate StreakHolds(ms: seq<Message>, i: nat, j: nat)
    requires i < j < |ms|
  {
    && (forall k :: i < k < j ==> !AnswerTo(ms, k).Allow?)
    && (forall k :: i < k <= j ==> ms[k].getAt < ms[k - 1].setAt + STRIKE_TTL)
  }

  lemma {:induction false} StreakLasts(ms: seq<Message>, i: nat, j: nat)
    requires i < j < |ms| && !AnswerTo(ms, i).Allow? && StreakHolds(ms, i, j)
    ensures StrikeAt(Conversation(ms[..j]), ms[j].getAt) > 0
  {
    assert ms[..j][..j - 1] == ms[..j - 1];
    assert !AnswerTo(ms, j - 1).Allow?;
    if j > i + 1 { StreakLasts(ms, i, j - 1); }
  }

  /** Messages of a sender are handled one after the other. */
  predicate InOrder(ms: seq<Message>) {
    (forall i :: 0 <= i < |ms| ==> ms[i].getAt <= ms[i].setAt)
    && forall i, j :: 0 <= i < j < |ms| ==> ms[i].setAt <= ms[j].getAt
  }

  /** The message before was not allowed, and came within a day. */
  predicate InStreak(ms: seq<Message>, j: nat)
    requires j < |ms|
  {
    j > 0 && !AnswerTo(ms, j - 1).Allow? && ms[j].getAt < ms[j - 1].setAt + 24 * 60 * 60 * 1000
  }

  /** A streak that was there has run out, or goes on. */
  lemma {:induction false} StreakExpires(ms: seq<Message>, j: nat)
    requires InOrder(ms) && j < |ms|
    ensures Conversation(ms[..j]).Some? ==>
              Conversation(ms[..j]).value.n > 0 && (InStreak(ms, j) || Conversation(ms[..j]).value.expires <= ms[j].getAt)
    ensures InStreak(ms, j) <==> StrikeAt(Conversation(ms[..j]), ms[j].getAt) > 0
  {
    if j > 0 {
      StreakExpires(ms, j - 1);
      assert ms[..j][..j - 1] == ms[..j - 1];
      assert ms[j - 1].getAt <= ms[j - 1].setAt <= ms[j].getAt;
    }
  }

  /** Every answer of a conversation, exactly. */
  lemma AnswerIff(ms: seq<Message>, j: nat)
    requires InOrder(ms) && j < |ms|
    ensures var m, t := ms[j], ms[j].text;
            var content := t.blank || t.command || t.finance || t.product
                           || (!InStreak(ms, j) && (t.courtesy || t.continues));
            && (AnswerTo(ms, j).Allow? <==> content || (m.onTopic && !m.automated))
            && (AnswerTo(ms, j).SilentAutomated? <==> !content && m.automated)
            && (AnswerTo(ms, j).Notice? <==> !content && !m.automated && !m.onTopic && !InStreak(ms, j))
            && (AnswerTo(ms, j).SilentRepeat? <==> !content && !m.automated && !m.onTopic && InStreak(ms, j))
  {
    StreakExpires(ms, j);
  }

  /** The fixed notice is sent once per streak: a second one needs an allowed message in between, or
      a day without any. */
  lemma NoticeOncePerStreak(ms: seq<Message>, i: nat, j: nat)
    requires i < j < |ms| && AnswerTo(ms, i).Notice? && AnswerTo(ms, j).Notice?
    ensures !StreakHolds(ms, i, j)
  {
    if StreakHolds(ms, i, j) { StreakLasts(ms, i, j); }
  }

  /** Inside a streak a message passes only on its own content: courtesies and short answers need the
      classifier. */
  lemma OnlyContentEndsStreak(ms: seq<Message>, i: nat, j: nat)
    requires i < j < |ms| && !AnswerTo(ms, i).Allow? && StreakHolds(ms, i, j)
    ensures AnswerTo(ms, j).Allow? <==>
              var t := ms[j].text;
              t.blank || t.command || t.finance || t.product || (ms[j].onTopic && !ms[j].automated)
  {
    StreakLasts(ms, i, j);
  }
}
