/** Whole runs of the Gmail flow: deliveries, redeliveries, retries and failed runs in any order. A
    queued task may run any number of times, so queueing, the sweep and the retries need no step. */
module GmailRecording {
  import opened Options
  import opened GmailPipeline

  datatype Action =
    | Arrive(user: nat, connection: nat, message: string, now: int)
    | Save(row: nat, email: string)
    | Run(row: nat, o: Answers)

  ghost predicate Possible(s: State, a: Action) {
    a.Run? ==> Answered(s, a.row, a.o)
  }

  function Step(s: State, a: Action): State
    requires Possible(s, a)
  {
    match a
    case Arrive(user, connection, message, now) => AfterArrive(s, user, connection, message, now)
    case Save(row, email) => AfterSave(s, row, email)
    case Run(row, o) => AfterRun(s, row, o)
  }

  const Empty: State := State([], [], multiset{})

  // ------------------------------------------------------------ when a finished row stays finished

  /** The failure mark of `process_gmail_message_async` does not look at the status: it un-finishes a
      finished row when the run fails before reading it. */
  predicate Unfinishes(s: State, a: Action) {
    a.Run? && a.o.early && !a.o.unmarked && a.row < |s.rows| && Terminal(s.rows[a.row].status)
  }

  predicate KeepsFinished(s: State, t: State) {
    |s.rows| <= |t.rows|
    && forall i :: 0 <= i < |s.rows| && Terminal(s.rows[i].status) ==> t.rows[i].status == s.rows[i].status
  }

  /** Exactly when a step leaves every processed, skipped or duplicate row as it is. */
  lemma FinishedStays(s: State, a: Action)
    requires Possible(s, a)
    ensures KeepsFinished(s, Step(s, a)) <==> !Unfinishes(s, a)
  {
    if Unfinishes(s, a) { assert Step(s, a).rows[a.row].status == Error; }
  }

  // ------------------------------------------------------------ runs

  /** The `i`-th action takes the state before it to the one after it. */
  ghost predicate Follows(states: seq<State>, actions: seq<Action>, i: nat) {
    && i < |actions| && i + 1 < |states|
    && Possible(states[i], actions[i]) && states[i + 1] == Step(states[i], actions[i])
  }

  /** A run from the empty database: the state before each action and after the last. */
  ghost predicate IsRun(states: seq<State>, actions: seq<Action>) {
    && |states| == |actions| + 1 && states[0] == Empty
    && forall i :: 0 <= i < |actions| ==> Follows(states, actions, i)
  }

  /** No failure un-finishes a row along the run. */
  predicate Tame(states: seq<State>, actions: seq<Action>) {
    |states| == |actions| + 1 && forall i :: 0 <= i < |actions| ==> !Unfinishes(states[i], actions[i])
  }

  lemma RunKeepsFinished(states: seq<State>, actions: seq<Action>, k: nat)
    requires IsRun(states, actions) && Tame(states, actions) && k < |actions|
    ensures KeepsFinished(states[k], states[k + 1])
  {
    assert Follows(states, actions, k);
    FinishedStays(states[k], actions[k]);
  }

  /** Each state keeps what the one before has finished. */
  predicate KeepsAlong(states: seq<State>) {
    forall k :: 0 <= k < |states| - 1 ==> KeepsFinished(states[k], states[k + 1])
  }

  lemma {:induction false} KeptFrom(states: seq<State>, m: nat, n: nat, row: nat)
    requires KeepsAlong(states) && m <= n < |states|
    requires row < |states[m].rows| && Terminal(states[m].rows[row].status)
    ensures row < |states[n].rows| && states[n].rows[row].status == states[m].rows[row].status
  {
    if m < n {
      KeptFrom(states, m, n - 1, row);
      assert KeepsFinished(states[n - 1], states[n - 1 + 1]);
    }
  }

  /** Processed, skipped and duplicate are for good. */
  lemma FinishedForGood(states: seq<State>, actions: seq<Action>, m: nat, n: nat, row: nat)
    requires IsRun(states, actions) && Tame(states, actions) && m <= n < |states|
    requires row < |states[m].rows| && Terminal(states[m].rows[row].status)
    ensures row < |states[n].rows| && states[n].rows[row].status == states[m].rows[row].status
  {
    forall k | 0 <= k < |states| - 1 ensures KeepsFinished(states[k], states[k + 1]) {
      RunKeepsFinished(states, actions, k);
    }
    KeptFrom(states, m, n, row);
  }

  // ------------------------------------------------------------ rows and records

  predicate DistinctRows(rows: seq<Row>) {
    forall i, j :: 0 <= i < j < |rows| ==> !HasKey(rows[j], rows[i].user, rows[i].connection, rows[i].message)
  }

  /** The row's foreign key for that kind, if set, names a record of the kind that comes from the row. */
  predicate LinkHolds(s: State, r: nat, kind: Kind)
    requires r < |s.rows|
  {
    var link := LinkOf(s.rows[r], kind);
    link.Some? ==> link.value < |s.records| && s.records[link.value].source == r && s.records[link.value].kind == kind
  }

  /** Every record comes from a row whose foreign key for its kind is set. */
  predicate HasRow(s: State, k: nat)
    requires k < |s.records|
  {
    s.records[k].source < |s.rows| && LinkOf(s.rows[s.records[k].source], s.records[k].kind).Some?
  }

  /** Rows with records and those records name each other. */
  predicate Linked(s: State) {
    && (forall r, kind :: 0 <= r < |s.rows| ==> LinkHolds(s, r, kind))
    && (forall k :: 0 <= k < |s.records| ==> HasRow(s, k))
  }

  /** The row has made a record before. */
  predicate HasRecorded(r: Row) { r.expense.Some? || r.income.Some? }

  /** What a delivery does, exactly: one without a message identifier does nothing, a new email gets a
      pending row, and the call goes on to save unless the row is finished. */
  lemma ArrivesExactly(s: State, user: nat, connection: nat, message: string, now: int)
    requires DistinctRows(s.rows)
    ensures var t := AfterArrive(s, user, connection, message, now);
            var known := exists i :: 0 <= i < |s.rows| && HasKey(s.rows[i], user, connection, message);
            && t.records == s.records
            && (message == "" ==> t == s)
            && (message != "" && !known ==>
                  && t.rows == s.rows + [Row(user, connection, message, now, Pending, Blank, None, None)]
                  && t.writers == s.writers + multiset{|s.rows|})
            && (message != "" && known ==> t.rows == s.rows)
            && forall i: nat :: message != "" && i < |s.rows| && HasKey(s.rows[i], user, connection, message) ==>
                 t.writers == if Terminal(s.rows[i].status) then s.writers else s.writers + multiset{i}
  {
    var i := FindRow(s.rows, user, connection, message);
    forall j | 0 <= j < |s.rows| && HasKey(s.rows[j], user, connection, message) ensures j == i {
    }
  }

  /** Nobody changes whose a row is. */
  predicate SameEmails(rows: seq<Row>, later: seq<Row>) {
    |later| == |rows|
    && forall i :: 0 <= i < |rows| ==> HasKey(later[i], rows[i].user, rows[i].connection, rows[i].message)
  }

  lemma RunKeepsEmails(s: State, id: nat, o: Answers)
    requires Answered(s, id, o)
    ensures SameEmails(s.rows, AfterRun(s, id, o).rows)
  {
  }

  lemma RowsStayDistinct(s: State, a: Action)
    requires Possible(s, a) && DistinctRows(s.rows)
    ensures DistinctRows(Step(s, a).rows)
  {
    match a
    case Arrive(user, connection, message, now) =>
    case Save(row, email) => assert SameEmails(s.rows, AfterSave(s, row, email).rows);
    case Run(row, o) => RunKeepsEmails(s, row, o);
  }

  /** No key and no record has changed, and new rows have no key. */
  predicate SameLinks(s: State, t: State) {
    && t.records == s.records && |s.rows| <= |t.rows|
    && (forall r :: 0 <= r < |s.rows| ==> t.rows[r].expense == s.rows[r].expense && t.rows[r].income == s.rows[r].income)
    && (forall r :: |s.rows| <= r < |t.rows| ==> t.rows[r].expense == None && t.rows[r].income == None)
  }

  lemma LinkedSame(s: State, t: State)
    requires Linked(s) && SameLinks(s, t)
    ensures Linked(t)
  {
    forall r, kind | 0 <= r < |t.rows| ensures LinkHolds(t, r, kind) {
      if r < |s.rows| { assert LinkHolds(s, r, kind); }
    }
    forall k | 0 <= k < |t.records| ensures HasRow(t, k) { assert HasRow(s, k); }
  }

  lemma LinkedSetRow(s: State, id: nat, status: Status, note: Note)
    requires Linked(s) && id < |s.rows|
    ensures Linked(SetRow(s, id, status, note))
  {
    LinkedSame(s, SetRow(s, id, status, note));
  }

  lemma LinkedCreate(s: State, id: nat, p: Parse)
    requires Linked(s) && id < |s.rows| && IsTransaction(p)
    ensures Linked(AfterCreate(s, id, p))
  {
    var t := AfterCreate(s, id, p);
    forall r, kind | 0 <= r < |t.rows| ensures LinkHolds(t, r, kind) { assert LinkHolds(s, r, kind); }
    forall k | 0 <= k < |t.records| ensures HasRow(t, k) {
      if k < |s.records| { assert HasRow(s, k); }
    }
  }

  lemma LinkedArrive(s: State, user: nat, connection: nat, message: string, now: int)
    requires Linked(s)
    ensures Linked(AfterArrive(s, user, connection, message, now))
  {
    LinkedSame(s, AfterArrive(s, user, connection, message, now));
  }

  lemma LinkedRun(s: State, id: nat, o: Answers)
    requires Linked(s) && Answered(s, id, o)
    ensures Linked(AfterRun(s, id, o))
  {
    if id < |s.rows| {
      LinkedSetRow(s, id, Error, s.rows[id].note);
      if !o.early && !Terminal(s.rows[id].status) {
        match Ends(s, id, o)
        case Raises =>
        case Settles(status, note) => LinkedSetRow(s, id, status, note);
        case Creates(p) => LinkedCreate(s, id, p);
      }
    }
  }

  lemma LinkedStays(s: State, a: Action)
    requires Possible(s, a) && Linked(s)
    ensures Linked(Step(s, a))
  {
    match a
    case Arrive(user, connection, message, now) => LinkedArrive(s, user, connection, message, now);
    case Save(row, email) => LinkedSame(s, AfterSave(s, row, email));
    case Run(row, o) => LinkedRun(s, row, o);
  }

  /** On every reachable state, failures included. */
  lemma {:induction false} LinkedAlways(states: seq<State>, actions: seq<Action>, n: nat)
    requires IsRun(states, actions) && n < |states|
    ensures DistinctRows(states[n].rows) && Linked(states[n])
  {
    if n > 0 {
      assert Follows(states, actions, n - 1);
      LinkedAlways(states, actions, n - 1);
      RowsStayDistinct(states[n - 1], actions[n - 1]);
      LinkedStays(states[n - 1], actions[n - 1]);
    }
  }

  // ------------------------------------------------------------ at most one record of an email

  /** Both records come from one (user, connection, message). */
  predicate SameEmail(s: State, i: nat, j: nat) {
    && i < |s.records| && j < |s.records|
    && s.records[i].source < |s.rows| && s.records[j].source < |s.rows|
    && var a, b := s.rows[s.records[i].source], s.rows[s.records[j].source];
       HasKey(b, a.user, a.connection, a.message)
  }

  predicate OncePerEmail(s: State) {
    forall i, j :: 0 <= i < j < |s.records| ==> !SameEmail(s, i, j)
  }

  /** The run creates a record from a row that has made one before. */
  ghost predicate RecordsAgain(s: State, a: Action) {
    && Possible(s, a) && a.Run? && a.row < |s.rows| && !a.o.early
    && HasRecorded(s.rows[a.row]) && !Terminal(s.rows[a.row].status)
    && Ends(s, a.row, a.o).Creates?
  }

  lemma SameEmailIsSameRow(s: State, i: nat, j: nat)
    requires DistinctRows(s.rows) && Linked(s) && i < |s.records| && j < |s.records|
    ensures SameEmail(s, i, j) <==> s.records[i].source == s.records[j].source
  {
    assert HasRow(s, i) && HasRow(s, j);
  }

  /** What a step does to the records: nothing, or one more from the row it runs on. */
  lemma RecordsGrow(s: State, a: Action)
    requires Possible(s, a)
    ensures var t := Step(s, a);
            || t.records == s.records
            || (a.Run? && a.row < |s.rows| && !a.o.early && !Terminal(s.rows[a.row].status)
                && Ends(s, a.row, a.o).Creates?
                && t.records == s.records + [RecordOf(s.rows[a.row], Ends(s, a.row, a.o).p, a.row)])
    ensures RecordsAgain(s, a) ==> Step(s, a).records != s.records
  {
  }

  /** The rows the records come from, all different. */
  predicate DistinctSources(s: State) {
    forall i, j :: 0 <= i < j < |s.records| ==> s.records[i].source != s.records[j].source
  }

  lemma OnceIsDistinct(s: State)
    requires DistinctRows(s.rows) && Linked(s)
    ensures OncePerEmail(s) <==> DistinctSources(s)
  {
    forall i, j | 0 <= i < j < |s.records| ensures SameEmail(s, i, j) <==> s.records[i].source == s.records[j].source {
      SameEmailIsSameRow(s, i, j);
    }
  }

  lemma HasRecordedIff(s: State, r: nat)
    requires Linked(s) && r < |s.rows|
    ensures HasRecorded(s.rows[r]) <==> exists k :: 0 <= k < |s.records| && s.records[k].source == r
  {
    if HasRecorded(s.rows[r]) {
      var kind := if s.rows[r].expense.Some? then Expense else Income;
      assert LinkHolds(s, r, kind);
      assert s.records[LinkOf(s.rows[r], kind).value].source == r;
    }
    if k :| 0 <= k < |s.records| && s.records[k].source == r { assert HasRow(s, k); }
  }

  lemma SourcesAppend(rs: seq<Record>, r: Record, s: State, t: State)
    requires s.records == rs && t.records == rs + [r] && DistinctSources(s)
    ensures DistinctSources(t) <==> forall k :: 0 <= k < |rs| ==> rs[k].source != r.source
  {
    if DistinctSources(t) {
      forall k | 0 <= k < |rs| ensures rs[k].source != r.source {
        assert t.records[k] == rs[k] && t.records[|rs|] == r;
      }
    }
  }

  /** Exactly when a step makes a second record of an email. */
  lemma OnceStaysIff(s: State, a: Action)
    requires Possible(s, a) && DistinctRows(s.rows) && Linked(s) && OncePerEmail(s)
    ensures OncePerEmail(Step(s, a)) <==> !RecordsAgain(s, a)
  {
    var t := Step(s, a);
    RecordsGrow(s, a);
    RowsStayDistinct(s, a);
    LinkedStays(s, a);
    OnceIsDistinct(s);
    OnceIsDistinct(t);
    if t.records != s.records {
      HasRecordedIff(s, a.row);
      SourcesAppend(s.records, t.records[|s.records|], s, t);
    }
  }

  /** A second record stays. */
  lemma TwiceStays(s: State, a: Action)
    requires Possible(s, a) && DistinctRows(s.rows) && Linked(s) && !OncePerEmail(s)
    ensures !OncePerEmail(Step(s, a))
  {
    var i: nat, j: nat :| i < j < |s.records| && SameEmail(s, i, j);
    var t := Step(s, a);
    RecordsGrow(s, a);
    RowsStayDistinct(s, a);
    LinkedStays(s, a);
    SameEmailIsSameRow(s, i, j);
    SameEmailIsSameRow(t, i, j);
  }

  lemma OnceStep(s: State, a: Action, t: State)
    requires DistinctRows(s.rows) && Linked(s) && Possible(s, a) && t == Step(s, a)
    ensures OncePerEmail(t) <==> OncePerEmail(s) && !RecordsAgain(s, a)
  {
    if OncePerEmail(s) { OnceStaysIff(s, a); } else { TwiceStays(s, a); }
  }

  /** What some steps end for good, and no other step ends, lasts exactly while there is none of them. */
  lemma {:induction false} OnceAlong(once: nat -> bool, again: nat -> bool, n: nat)
    requires once(0) && forall k: nat :: k < n ==> (once(k + 1) <==> once(k) && !again(k))
    ensures once(n) <==> forall k: nat :: k < n ==> !again(k)
  {
    if n > 0 { OnceAlong(once, again, n - 1); }
  }

  lemma OnceFollows(states: seq<State>, actions: seq<Action>, k: nat)
    requires IsRun(states, actions) && k < |actions|
    ensures OncePerEmail(states[k + 1]) <==> OncePerEmail(states[k]) && !RecordsAgain(states[k], actions[k])
  {
    assert Follows(states, actions, k);
    LinkedAlways(states, actions, k);
    OnceStep(states[k], actions[k], states[k + 1]);
  }

  /** Over whole runs, failures included: an email has at most one record exactly when no run has
      created one from a row that had made one before. */
  lemma OnceIff(states: seq<State>, actions: seq<Action>, n: nat)
    requires IsRun(states, actions) && n < |states|
    ensures OncePerEmail(states[n]) <==> forall k :: 0 <= k < n ==> !RecordsAgain(states[k], actions[k])
  {
    var once := (k: nat) => k < |states| && OncePerEmail(states[k]);
    var again := (k: nat) => k < |actions| && RecordsAgain(states[k], actions[k]);
    forall k: nat | k < n ensures once(k + 1) <==> once(k) && !again(k) { OnceFollows(states, actions, k); }
    OnceAlong(once, again, n);
    forall k | 0 <= k < n ensures again(k) <==> RecordsAgain(states[k], actions[k]) {}
  }

  // ------------------------------------------------------------ which rows can be recorded again

  /** More than any record holds. */
  function Beyond(records: seq<Record>): (x: real)
    ensures x > 0.0 && forall k :: 0 <= k < |records| ==> records[k].amount < x
  {
    if records == [] then 1.0
    else
      var x, r := Beyond(records[..|records| - 1]), records[|records| - 1].amount;
      if r < x then x else r + 1.0
  }

  /** The parser reads a purchase no candidate can match, and nothing fails. */
  function FreshAnswers(s: State): Answers {
    var p := Parse(Some(Expense), true, false, Number(Beyond(s.records)), 1.0, "COP", "");
    Answers(false, false, false, Some(p), true, [], (c: nat) => Silent)
  }

  /** A row can make a second record exactly when it has made one, is not finished and stores an email. */
  lemma CanRecordAgainIff(s: State, id: nat)
    requires id < |s.rows|
    ensures (exists o :: RecordsAgain(s, Run(id, o))) <==>
              HasRecorded(s.rows[id]) && !Terminal(s.rows[id].status) && s.rows[id].note.Raw?
  {
    if HasRecorded(s.rows[id]) && !Terminal(s.rows[id].status) && s.rows[id].note.Raw? {
      var o := FreshAnswers(s);
      assert forall c: nat :: !Matches(s, id, o.parse.value, c);
      assert Possible(s, Run(id, o));
      assert RecordsAgain(s, Run(id, o));
    }
  }

  // ------------------------------------------------------------ runs without early failures

  /** The record belongs to a processed row that points back to it, and stores what it was made from, or
      the email that a late delivery saved over it. */
  predicate IsOwned(s: State, k: nat)
    requires k < |s.records|
  {
    && s.records[k].source < |s.rows|
    && var r := s.rows[s.records[k].source];
       r.status.Processed? && LinkOf(r, s.records[k].kind) == Some(k) && (r.note == Result(s.records[k].p) || r.note.Raw?)
  }

  predicate Owned(s: State) {
    forall k :: 0 <= k < |s.records| ==> IsOwned(s, k)
  }

  lemma OwnedSetRow(s: State, id: nat, status: Status, note: Note)
    requires Owned(s) && id < |s.rows|
    requires s.rows[id].status.Processed? ==> status.Processed? && (note == s.rows[id].note || note.Raw?)
    ensures Owned(SetRow(s, id, status, note))
  {
    var t := SetRow(s, id, status, note);
    forall k | 0 <= k < |t.records| ensures IsOwned(t, k) { assert IsOwned(s, k); }
  }

  lemma OwnedCreate(s: State, id: nat, p: Parse)
    requires Owned(s) && id < |s.rows| && IsTransaction(p) && !s.rows[id].status.Processed?
    ensures Owned(AfterCreate(s, id, p))
  {
    var t := AfterCreate(s, id, p);
    forall k | 0 <= k < |t.records| ensures IsOwned(t, k) {
      if k < |s.records| { assert IsOwned(s, k); }
    }
  }

  lemma OwnedRun(s: State, id: nat, o: Answers)
    requires Answered(s, id, o) && Owned(s) && id < |s.rows| && !Terminal(s.rows[id].status)
    ensures Owned(AfterRun(s, id, o))
  {
    OwnedSetRow(s, id, Error, s.rows[id].note);
    if !o.early {
      match Ends(s, id, o)
      case Raises =>
      case Settles(status, note) => OwnedSetRow(s, id, status, note);
      case Creates(p) => OwnedCreate(s, id, p);
    }
  }

  lemma OwnedOther(s: State, a: Action)
    requires Owned(s) && !a.Run? && Possible(s, a)
    ensures Owned(Step(s, a))
  {
    var t := Step(s, a);
    forall k | 0 <= k < |t.records| ensures IsOwned(t, k) { assert IsOwned(s, k); }
  }

  lemma OwnedStays(s: State, a: Action)
    requires Possible(s, a) && !Unfinishes(s, a) && Owned(s)
    ensures Owned(Step(s, a))
  {
    if a.Run? {
      if a.row < |s.rows| && !Terminal(s.rows[a.row].status) { OwnedRun(s, a.row, a.o); }
    } else {
      OwnedOther(s, a);
    }
  }

  lemma {:induction false} OwnedAlways(states: seq<State>, actions: seq<Action>, n: nat)
    requires IsRun(states, actions) && Tame(states, actions) && n < |states|
    ensures Owned(states[n])
  {
    if n > 0 {
      assert Follows(states, actions, n - 1);
      OwnedAlways(states, actions, n - 1);
      OwnedStays(states[n - 1], actions[n - 1]);
    }
  }

  lemma OwnedIsFinished(s: State, a: Action)
    requires Linked(s) && Owned(s)
    ensures !RecordsAgain(s, a)
  {
    forall r | 0 <= r < |s.rows| && HasRecorded(s.rows[r]) ensures s.rows[r].status.Processed? {
      var kind := if s.rows[r].expense.Some? then Expense else Income;
      assert LinkHolds(s, r, kind);
      assert IsOwned(s, LinkOf(s.rows[r], kind).value);
    }
  }

  /** However often an email is delivered and its task runs, it makes at most one record. */
  lemma AtMostOneRecord(states: seq<State>, actions: seq<Action>, n: nat)
    requires IsRun(states, actions) && Tame(states, actions) && n < |states|
    ensures OncePerEmail(states[n]) && Owned(states[n])
  {
    OwnedAlways(states, actions, n);
    forall k | 0 <= k < n ensures !RecordsAgain(states[k], actions[k]) {
      LinkedAlways(states, actions, k);
      OwnedAlways(states, actions, k);
      OwnedIsFinished(states[k], actions[k]);
    }
    OnceIff(states, actions, n);
  }
}
