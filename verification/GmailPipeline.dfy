/** `gmailbot`: the webhook that stores an email, and the task that turns it into a record. Both the
    email parser and the judge of duplicates are language models: here they may answer anything. */
module GmailPipeline {
  import opened Options
  import opened Texts

  const WINDOW: int := 15 * 60
  const JUDGE_MIN_CONFIDENCE: real := 0.8
  const MIN_CONFIDENCE: real := 0.6

  datatype Status = Pending | Processed | Skipped | Duplicate | Error

  datatype Kind = Expense | Income

  /** What the parser put in `amount`: a number, something only `float` accepts (`true`), or neither. */
  datatype Amount = Number(value: real) | FloatOnly(value: real) | Unreadable

  datatype Parse = Parse(
    kind: Option<Kind>, purchase: bool, failed: bool, amount: Amount, confidence: real,
    currency: string, reference: string)

  /** The contents of `ai_response`. */
  datatype Note = Blank | Raw(email: string) | Unparsed | Result(p: Parse) | DuplicateOf(p: Parse, original: nat)

  /** `ProcessedEmail`, with a foreign key for each kind of record; a row is named by its position. */
  datatype Row = Row(
    user: nat, connection: nat, message: string, createdAt: int, status: Status, note: Note,
    expense: Option<nat>, income: Option<nat>)

  function LinkOf(r: Row, kind: Kind): Option<nat> { if kind.Expense? then r.expense else r.income }

  /** Setting one key never clears the other. */
  function WithLink(r: Row, kind: Kind, record: nat): Row {
    if kind.Expense? then r.(expense := Some(record)) else r.(income := Some(record))
  }

  /** An `Expense` or an `Income`; with it what the tables do not keep: the row it came from, what the
      parser read and when the email came. */
  datatype Record = Record(
    user: nat, kind: Kind, amount: real, currency: string, source: nat, p: Parse, receivedAt: int)

  /** `writers` are the webhook calls that read the row but did not save the email yet. */
  datatype State = State(rows: seq<Row>, records: seq<Record>, writers: multiset<nat>)

  datatype Judge = Silent | Verdict(isDuplicate: bool, confidence: real) | Broken

  /** What the world answers a task run: `early` fails before the status is read, `late` anywhere
      after, `unmarked` also fails to mark the row. */
  datatype Answers = Answers(
    early: bool, late: bool, unmarked: bool, parse: Option<Parse>, canAdd: bool, candidates: seq<nat>,
    judge: nat -> Judge)

  predicate Terminal(s: Status) { s.Processed? || s.Skipped? || s.Duplicate? }

  // ------------------------------------------------------------ references

  predicate IsAlnum(c: char) { 'a' <= c <= 'z' || 'A' <= c <= 'Z' || '0' <= c <= '9' }

  /** `_normalize_reference`. */
  function Normalize(ref: string): (r: string)
    ensures forall i :: 0 <= i < |r| ==> IsAlnum(r[i]) && LowerChar(r[i]) == r[i]
  {
    if ref == "" then ""
    else
      var c := LowerChar(ref[0]);
      (if IsAlnum(c) then [c] else []) + Normalize(ref[1..])
  }

  lemma {:induction false} NormalizeJoins(a: string, b: string)
    ensures Normalize(a + b) == Normalize(a) + Normalize(b)
  {
    if a == "" {
      assert a + b == b;
    } else {
      NormalizeJoins(a[1..], b);
      assert (a + b)[0] == a[0] && (a + b)[1..] == a[1..] + b;
    }
  }

  /** Character by character: letters and digits stay, in lower case, and nothing else; so what is
      normalised already does not change. */
  lemma {:induction false} NormalizeIsStable(a: string)
    ensures forall c :: Normalize([c]) == if IsAlnum(c) then [LowerChar(c)] else ""
    ensures Normalize(Normalize(a)) == Normalize(a)
  {
    forall c ensures Normalize([c]) == if IsAlnum(c) then [LowerChar(c)] else "" {
      assert [c][1..] == "";
    }
    if a != "" {
      NormalizeIsStable(a[1..]);
      NormalizeJoins([a[0]], a[1..]);
      assert [a[0]] + a[1..] == a;
      NormalizeJoins(Normalize([a[0]]), Normalize(a[1..]));
      if IsAlnum(a[0]) { assert Normalize([LowerChar(a[0])]) == [LowerChar(a[0])]; }
    }
  }

  function ReferenceOf(note: Note): string {
    if note.Result? || note.DuplicateOf? then Normalize(note.p.reference) else ""
  }

  // ------------------------------------------------------------ candidates

  /** The column holds cents. */
  function Cents(amount: real): real { (amount * 100.0 + 0.5).Floor as real / 100.0 }

  predicate Near(a: int, b: int) { b - WINDOW <= a <= b + WINDOW }

  /** The rows the query of `_find_duplicate_candidates` selects. */
  predicate Matches(s: State, id: nat, p: Parse, c: nat) {
    && id < |s.rows| && c < |s.rows| && c != id
    && s.rows[c].user == s.rows[id].user && s.rows[c].status.Processed?
    && Near(s.rows[c].createdAt, s.rows[id].createdAt)
    && p.kind.Some?
    && var link := LinkOf(s.rows[c], p.kind.value);
       link.Some? && link.value < |s.records| && SameMoney(s.records[link.value], p)
  }

  predicate SameMoney(r: Record, p: Parse) {
    p.kind == Some(r.kind) && p.amount == Number(r.amount) && p.currency == r.currency
  }

  /** An answer of the query: the newest three, in that order. */
  ghost predicate IsAnswer(s: State, id: nat, p: Parse, cs: seq<nat>) {
    && |cs| <= 3
    && (forall i :: 0 <= i < |cs| ==> Matches(s, id, p, cs[i]))
    && (forall i, j :: 0 <= i < j < |cs| ==>
          cs[i] != cs[j] && s.rows[cs[i]].createdAt >= s.rows[cs[j]].createdAt)
    && (forall c: nat :: Matches(s, id, p, c) && c !in cs ==>
          |cs| == 3 && forall i :: 0 <= i < 3 ==> s.rows[cs[i]].createdAt >= s.rows[c].createdAt)
  }

  // ------------------------------------------------------------ duplicates

  datatype Found = NotFound | ByReference(original: nat) | ByJudge(original: nat) | JudgeBroke

  predicate Accepts(j: Judge) { j.Verdict? && j.isDuplicate && j.confidence >= JUDGE_MIN_CONFIDENCE }

  /** The verdict on one candidate; none means look at the next. */
  function Compare(newRef: string, oldRef: string, c: nat, j: Judge): Found {
    if newRef != "" && oldRef != "" then (if newRef == oldRef then ByReference(c) else NotFound)
    else if j.Broken? then JudgeBroke
    else if Accepts(j) then ByJudge(c)
    else NotFound
  }

  function Detect(rows: seq<Row>, newRef: string, cs: seq<nat>, judge: nat -> Judge): Found
    requires forall i :: 0 <= i < |cs| ==> cs[i] < |rows|
  {
    if cs == [] then NotFound
    else
      var found := Compare(newRef, ReferenceOf(rows[cs[0]].note), cs[0], judge(cs[0]));
      if found.NotFound? then Detect(rows, newRef, cs[1..], judge) else found
  }

  /** The loop of `_detect_cross_email_duplicate`. */
  method DetectDuplicate(rows: seq<Row>, p: Parse, cs: seq<nat>, judge: nat -> Judge) returns (found: Found)
    requires forall i :: 0 <= i < |cs| ==> cs[i] < |rows|
    ensures found == Detect(rows, Normalize(p.reference), cs, judge)
  {
    var newRef := Normalize(p.reference);
    for i := 0 to |cs|
      invariant Detect(rows, newRef, cs, judge) == Detect(rows, newRef, cs[i..], judge)
    {
      assert cs[i..][1..] == cs[i + 1..];
      var oldRef := ReferenceOf(rows[cs[i]].note);
      if newRef != "" && oldRef != "" {
        if newRef == oldRef { return ByReference(cs[i]); }
        continue;
      }
      var answer := judge(cs[i]);
      if answer.Broken? { return JudgeBroke; }
      if answer.Verdict? && answer.isDuplicate && answer.confidence >= JUDGE_MIN_CONFIDENCE {
        return ByJudge(cs[i]);
      }
    }
    found := NotFound;
  }

  // ------------------------------------------------------------ one run of the task

  predicate HasAmount(a: Amount) { !a.Unreadable? && a.value > 0.0 }

  predicate IsTransaction(p: Parse) {
    !p.failed && p.kind.Some? && p.purchase && HasAmount(p.amount) && p.confidence >= MIN_CONFIDENCE
  }

  /** How `process_composio_email` ends: it raises, settles the row, or creates a record. */
  datatype Ending = Raises | Settles(status: Status, note: Note) | Creates(p: Parse)

  ghost predicate Answered(s: State, id: nat, o: Answers) {
    o.parse.Some? && IsTransaction(o.parse.value) ==> IsAnswer(s, id, o.parse.value, o.candidates)
  }

  function Ends(s: State, id: nat, o: Answers): Ending
    requires id < |s.rows| && Answered(s, id, o)
  {
    if !s.rows[id].note.Raw? then Settles(Error, s.rows[id].note)
    else if o.late then Raises
    else if o.parse.None? then Settles(Error, Unparsed)
    else if !IsTransaction(o.parse.value) || !o.canAdd then Settles(Skipped, Result(o.parse.value))
    else if o.parse.value.amount.FloatOnly? then Raises
    else
      match Detect(s.rows, Normalize(o.parse.value.reference), o.candidates, o.judge)
      case JudgeBroke => Raises
      case ByReference(c) => Settles(Duplicate, DuplicateOf(o.parse.value, c))
      case ByJudge(c) => Settles(Duplicate, DuplicateOf(o.parse.value, c))
      case NotFound => Creates(o.parse.value)
  }

  function SetRow(s: State, id: nat, status: Status, note: Note): State
    requires id < |s.rows|
  {
    s.(rows := s.rows[id := s.rows[id].(status := status, note := note)])
  }

  /** The record of an email read as `p`. */
  function RecordOf(row: Row, p: Parse, source: nat): Record
    requires IsTransaction(p)
  {
    Record(row.user, p.kind.value, Cents(p.amount.value), p.currency, source, p, row.createdAt)
  }

  function AfterCreate(s: State, id: nat, p: Parse): State
    requires id < |s.rows| && IsTransaction(p)
  {
    var settled := SetRow(s, id, Processed, Result(p));
    settled.(
      rows := settled.rows[id := WithLink(settled.rows[id], p.kind.value, |s.records|)],
      records := s.records + [RecordOf(s.rows[id], p, id)])
  }

  function AfterFailure(s: State, id: nat, o: Answers): State
    requires id < |s.rows|
  {
    if o.unmarked then s else SetRow(s, id, Error, s.rows[id].note)
  }

  function AfterRun(s: State, id: nat, o: Answers): State
    requires Answered(s, id, o)
  {
    if id >= |s.rows| then s
    else if o.early then AfterFailure(s, id, o)
    else if Terminal(s.rows[id].status) then s
    else
      match Ends(s, id, o)
      case Raises => AfterFailure(s, id, o)
      case Settles(status, note) => SetRow(s, id, status, note)
      case Creates(p) => AfterCreate(s, id, p)
  }

  // ------------------------------------------------------------ one delivery of the webhook

  predicate HasKey(r: Row, user: nat, connection: nat, message: string) {
    r.user == user && r.connection == connection && r.message == message
  }

  function FindRow(rows: seq<Row>, user: nat, connection: nat, message: string): (i: nat)
    ensures i <= |rows|
    ensures i < |rows| ==> HasKey(rows[i], user, connection, message)
    ensures forall j :: 0 <= j < i ==> !HasKey(rows[j], user, connection, message)
  {
    if rows == [] || HasKey(rows[0], user, connection, message) then 0
    else 1 + FindRow(rows[1..], user, connection, message)
  }

  /** `get_or_create` and the status check. */
  function AfterArrive(s: State, user: nat, connection: nat, message: string, now: int): State {
    var i := FindRow(s.rows, user, connection, message);
    if message == "" then s
    else if i == |s.rows| then
      s.(rows := s.rows + [Row(user, connection, message, now, Pending, Blank, None, None)],
         writers := s.writers + multiset{i})
    else if Terminal(s.rows[i].status) then s
    else s.(writers := s.writers + multiset{i})
  }

  /** The save that follows, whatever happened to the row in between. */
  function AfterSave(s: State, id: nat, email: string): State {
    if id in s.writers && id < |s.rows| then
      SetRow(s, id, s.rows[id].status, Raw(email)).(writers := s.writers - multiset{id})
    else s
  }

  // ------------------------------------------------------------ the code

  class Mailbox {
    var rows: seq<Row>
    var records: seq<Record>
    ghost var writers: multiset<nat>

    ghost function Now(): State
      reads this
    {
      State(rows, records, writers)
    }

    constructor ()
      ensures Now() == State([], [], multiset{})
    {
      rows, records, writers := [], [], multiset{};
    }

    /** `handle_webhook`, down to the status check. The caller goes on to `Save` if there is a row. */
    method Arrive(user: nat, connection: nat, message: string, now: int) returns (row: Option<nat>)
      modifies this
      ensures Now() == AfterArrive(old(Now()), user, connection, message, now)
      ensures row.Some? ==> row.value < |rows| && HasKey(rows[row.value], user, connection, message)
                            && !Terminal(rows[row.value].status) && row.value in writers
      ensures row.None? ==> Now() == old(Now())
    {
      if message == "" { return None; }
      var i := FindRow(rows, user, connection, message);
      var created := i == |rows|;
      if created {
        rows := rows + [Row(user, connection, message, now, Pending, Blank, None, None)];
      }
      if !created && Terminal(rows[i].status) { return None; }
      writers := writers + multiset{i};
      row := Some(i);
    }

    /** The rest of `handle_webhook`: the email goes into `ai_response`, and the task is queued. */
    method Save(id: nat, email: string)
      requires id in writers && id < |rows|
      modifies this
      ensures Now() == AfterSave(old(Now()), id, email)
    {
      rows := rows[id := rows[id].(note := Raw(email))];
      writers := writers - multiset{id};
    }

    /** `process_composio_email`, inside the transaction of the task. */
    method Process(id: nat, o: Answers) returns (raised: bool)
      requires id < |rows| && Answered(Now(), id, o)
      modifies this
      ensures var e := old(Ends(Now(), id, o));
              && (raised <==> e.Raises?)
              && (e.Settles? ==> Now() == SetRow(old(Now()), id, e.status, e.note))
              && (e.Creates? ==> Now() == AfterCreate(old(Now()), id, e.p))
    {
      if !rows[id].note.Raw? {
        rows := rows[id := rows[id].(status := Error)];
        return false;
      }
      if o.late { return true; }
      if o.parse.None? {
        rows := rows[id := rows[id].(status := Error, note := Unparsed)];
        return false;
      }
      var p := o.parse.value;
      if p.failed || !(p.kind.Some? && p.purchase) || !HasAmount(p.amount) || p.confidence < MIN_CONFIDENCE {
        rows := rows[id := rows[id].(status := Skipped, note := Result(p))];
        return false;
      }
      if !o.canAdd {
        rows := rows[id := rows[id].(status := Skipped, note := Result(p))];
        return false;
      }
      var candidates := if p.amount.FloatOnly? then [] else o.candidates;
      var found := DetectDuplicate(rows, p, candidates, o.judge);
      if found.JudgeBroke? { return true; }
      if !found.NotFound? {
        rows := rows[id := rows[id].(status := Duplicate, note := DuplicateOf(p, found.original))];
        return false;
      }
      if p.amount.FloatOnly? { return true; }
      Create(id, p);
      raised := false;
    }

    /** The end of it: the record, the row's key for its kind, and the row processed. */
    method Create(id: nat, p: Parse)
      requires id < |rows| && IsTransaction(p)
      modifies this
      ensures Now() == AfterCreate(old(Now()), id, p)
    {
      var record := Record(
        rows[id].user, p.kind.value, Cents(p.amount.value), p.currency, id, p, rows[id].createdAt);
      records := records + [record];
      var link := Some(|records| - 1);
      if p.kind.value.Income? {
        rows := rows[id := rows[id].(income := link)];
      } else {
        rows := rows[id := rows[id].(expense := link)];
      }
      rows := rows[id := rows[id].(status := Processed, note := Result(p))];
    }

    /** `process_gmail_message_async`: the row lock, the status check, the transaction, and the mark
        left by a failure. */
    method Run(id: nat, o: Answers)
      requires Answered(Now(), id, o)
      modifies this
      ensures Now() == AfterRun(old(Now()), id, o)
    {
      if id >= |rows| { return; }
      var savedRows, savedRecords := rows, records;
      ghost var savedWriters := writers;
      var raised := o.early;
      if !raised {
        if Terminal(rows[id].status) { return; }
        raised := Process(id, o);
      }
      if raised {
        rows, records, writers := savedRows, savedRecords, savedWriters;
        if !o.unmarked { rows := rows[id := rows[id].(status := Error)]; }
      }
    }
  }
}
