/** Runs in which an email, or a purchase, is recorded twice: what the theorems about whole runs assume
    cannot be dropped. */
module GmailSurprises {
  import opened Options
  import opened Sets
  import opened Texts
  import opened GmailPipeline
  import opened GmailRecording
  import opened GmailDuplicates

  // ------------------------------------------------------------ answers and states

  function Purchase(amount: real): Parse {
    Parse(Some(Expense), true, false, Number(amount), 0.9, "COP", "A1")
  }

  /** The parser reads the purchase, the judge is silent and nothing fails. */
  function Succeeds(p: Parse, candidates: seq<nat>): Answers {
    Answers(false, false, false, Some(p), true, candidates, (c: nat) => Silent)
  }

  /** The database fails before the status is read. */
  function FailsEarly(p: Parse): Answers { Succeeds(p, []).(early := true) }

  const Receipt: Action := Arrive(1, 1, "m", 0)
  const CardNotice: Action := Arrive(1, 1, "n", 60)

  function ReceiptRow(status: Status, note: Note, record: Option<nat>): Row {
    Row(1, 1, "m", 0, status, note, record, None)
  }

  function CardRow(status: Status, note: Note, record: Option<nat>): Row {
    Row(1, 1, "n", 60, status, note, record, None)
  }

  function ReceiptRecord(p: Parse): Record
    requires IsTransaction(p)
  {
    RecordOf(ReceiptRow(Processed, Result(p), None), p, 0)
  }

  function CardRecord(p: Parse): Record
    requires IsTransaction(p)
  {
    RecordOf(CardRow(Processed, Result(p), None), p, 1)
  }

  lemma Creates(s: State, id: nat, p: Parse, cs: seq<nat>)
    requires id < |s.rows| && s.rows[id].note.Raw?
    requires IsTransaction(p) && p.amount.Number? && IsAnswer(s, id, p, cs)
    requires Detect(s.rows, Normalize(p.reference), cs, Succeeds(p, cs).judge) == NotFound
    ensures Answered(s, id, Succeeds(p, cs)) && Ends(s, id, Succeeds(p, cs)) == Ending.Creates(p)
  {
  }

  lemma RunCreates(s: State, id: nat, o: Answers, p: Parse)
    requires id < |s.rows| && !Terminal(s.rows[id].status) && !o.early && Answered(s, id, o)
    requires Ends(s, id, o) == Ending.Creates(p)
    ensures IsTransaction(p) && Step(s, Run(id, o)) == AfterCreate(s, id, p)
  {
  }

  lemma IsRecorded(s: State, id: nat, p: Parse, cs: seq<nat>)
    requires id < |s.rows| && !Terminal(s.rows[id].status) && s.rows[id].note.Raw?
    requires IsTransaction(p) && p.amount.Number? && IsAnswer(s, id, p, cs)
    requires Detect(s.rows, Normalize(p.reference), cs, Succeeds(p, cs).judge) == NotFound
    ensures Possible(s, Run(id, Succeeds(p, cs))) && Step(s, Run(id, Succeeds(p, cs))) == AfterCreate(s, id, p)
  {
    Creates(s, id, p, cs);
    RunCreates(s, id, Succeeds(p, cs), p);
  }

  /** Alone in its table, a row has no candidate. */
  lemma NoCandidate(s: State, p: Parse)
    requires |s.rows| == 1
    ensures IsAnswer(s, 0, p, [])
  {
  }

  lemma FewRows(s: State, a: Action)
    requires |s.rows| <= 2
    ensures FewCandidates(s, a)
  {
    if a.Run? && a.o.parse.Some? {
      Fewer(Candidates(s, a.row, a.o.parse.value), {0 as nat, 1});
    }
  }

  // ------------------------------------------------------------ a failure un-finishes a row

  const P: Parse := Purchase(5.0)

  /** One email, recorded; a queued run fails early; the email is delivered and recorded again. */
  function FailedActions(): seq<Action> {
    [Receipt, Save(0, "e"), Run(0, Succeeds(P, [])), Run(0, FailsEarly(P)),
     Receipt, Save(0, "e"), Run(0, Succeeds(P, []))]
  }

  function FailedStates(): seq<State> {
    var one, first := multiset{0}, ReceiptRecord(P);
    [Empty,
     State([ReceiptRow(Pending, Blank, None)], [], one),
     State([ReceiptRow(Pending, Raw("e"), None)], [], multiset{}),
     State([ReceiptRow(Processed, Result(P), Some(0))], [first], multiset{}),
     State([ReceiptRow(Error, Result(P), Some(0))], [first], multiset{}),
     State([ReceiptRow(Error, Result(P), Some(0))], [first], one),
     State([ReceiptRow(Error, Raw("e"), Some(0))], [first], multiset{}),
     State([ReceiptRow(Processed, Result(P), Some(1))], [first, first], multiset{})]
  }

  lemma FailedDeliveries()
    ensures var ss, aa := FailedStates(), FailedActions();
            Follows(ss, aa, 0) && Follows(ss, aa, 1) && Follows(ss, aa, 4) && Follows(ss, aa, 5)
  {
    assert FindRow(Empty.rows, 1, 1, "m") == 0;
    assert FindRow(FailedStates()[4].rows, 1, 1, "m") == 0;
  }

  lemma FailedFirst()
    ensures Follows(FailedStates(), FailedActions(), 2)
  {
    NoCandidate(FailedStates()[2], P);
    IsRecorded(FailedStates()[2], 0, P, []);
  }

  lemma FailedFailure()
    ensures Follows(FailedStates(), FailedActions(), 3) && Unfinishes(FailedStates()[3], FailedActions()[3])
  {
    NoCandidate(FailedStates()[3], P);
  }

  lemma FailedSecond()
    ensures Follows(FailedStates(), FailedActions(), 6)
  {
    NoCandidate(FailedStates()[6], P);
    IsRecorded(FailedStates()[6], 0, P, []);
  }

  lemma FailedEnd()
    ensures !OncePerEmail(FailedStates()[7]) && !OncePerPurchase(FailedStates()[7])
  {
    var s := FailedStates()[7];
    ReferenceIsRead();
    assert SameEmail(s, 0, 1);
    assert SamePurchase(s.records[0], s.records[1]);
  }

  lemma FailedErasesNothing()
    ensures NothingErased(FailedStates(), FailedActions())
  {
  }

  lemma FailedIsPlain(i: nat)
    requires i < 7
    ensures FewCandidates(FailedStates()[i], FailedActions()[i]) && InCents(FailedActions()[i])
  {
    FewRows(FailedStates()[i], FailedActions()[i]);
    assert Cents(5.0) == 5.0;
  }

  /** One email, and one purchase, two records, although nothing is erased, candidates are few and
      amounts are in cents. */
  lemma SecondRecord()
    ensures IsRun(FailedStates(), FailedActions()) && Unfinishes(FailedStates()[3], FailedActions()[3])
    ensures !OncePerEmail(FailedStates()[7]) && !OncePerPurchase(FailedStates()[7])
    ensures NothingErased(FailedStates(), FailedActions())
    ensures forall i :: 0 <= i < 7 ==> FewCandidates(FailedStates()[i], FailedActions()[i]) && InCents(FailedActions()[i])
  {
    FailedErasesNothing();
    forall i | 0 <= i < 7 ensures FewCandidates(FailedStates()[i], FailedActions()[i]) && InCents(FailedActions()[i]) {
      FailedIsPlain(i);
    }
    FailedIsRun();
    FailedFailure();
    FailedEnd();
  }

  lemma FailedIsRun()
    ensures IsRun(FailedStates(), FailedActions())
  {
    FailedDeliveries();
    FailedFirst();
    FailedFailure();
    FailedSecond();
    forall i | 0 <= i < 7 ensures Follows(FailedStates(), FailedActions(), i) {
      assert i == 0 || i == 1 || i == 2 || i == 3 || i == 4 || i == 5 || i == 6;
    }
  }

  // ------------------------------------------------------------ a late delivery erases a reference

  /** The receipt is delivered twice; the second delivery saves after the task is done. Then the
      card's notice of the same purchase arrives, and the judge is silent. */
  function LateActions(): seq<Action> {
    [Receipt, Receipt, Save(0, "e"), Run(0, Succeeds(P, [])), Save(0, "e"),
     CardNotice, Save(1, "f"), Run(1, Succeeds(P, [0]))]
  }

  function LateStates(): seq<State> {
    var reread, first := ReceiptRow(Processed, Raw("e"), Some(0)), ReceiptRecord(P);
    [Empty,
     State([ReceiptRow(Pending, Blank, None)], [], multiset{0}),
     State([ReceiptRow(Pending, Blank, None)], [], multiset{0, 0}),
     State([ReceiptRow(Pending, Raw("e"), None)], [], multiset{0}),
     State([ReceiptRow(Processed, Result(P), Some(0))], [first], multiset{0}),
     State([reread], [first], multiset{}),
     State([reread, CardRow(Pending, Blank, None)], [first], multiset{1}),
     State([reread, CardRow(Pending, Raw("f"), None)], [first], multiset{}),
     State([reread, CardRow(Processed, Result(P), Some(1))], [first, CardRecord(P)], multiset{})]
  }

  lemma LateDeliveries()
    ensures var ss, aa := LateStates(), LateActions();
            Follows(ss, aa, 0) && Follows(ss, aa, 1) && Follows(ss, aa, 2)
  {
    assert FindRow(Empty.rows, 1, 1, "m") == 0;
    assert FindRow(LateStates()[1].rows, 1, 1, "m") == 0;
  }

  lemma LateFirst()
    ensures Follows(LateStates(), LateActions(), 3)
  {
    NoCandidate(LateStates()[3], P);
    IsRecorded(LateStates()[3], 0, P, []);
  }

  lemma LateSave()
    ensures Follows(LateStates(), LateActions(), 4) && Erases(LateStates()[4], LateActions()[4])
  {
  }

  lemma LateCard()
    ensures Follows(LateStates(), LateActions(), 5) && Follows(LateStates(), LateActions(), 6)
  {
    assert FindRow(LateStates()[5].rows[1..], 1, 1, "n") == 0;
    assert FindRow(LateStates()[5].rows, 1, 1, "n") == 1;
  }

  lemma CardMatches(s: State)
    requires s == LateStates()[7]
    ensures IsAnswer(s, 1, P, [0])
    ensures Detect(s.rows, Normalize(P.reference), [0], Succeeds(P, [0]).judge) == NotFound
  {
    assert Cents(5.0) == 5.0;
    assert Matches(s, 1, P, 0);
    var judge := Succeeds(P, [0]).judge;
    assert Detect(s.rows, Normalize(P.reference), [0][1..], judge) == NotFound;
  }

  lemma LateSecond()
    ensures Follows(LateStates(), LateActions(), 7)
  {
    CardMatches(LateStates()[7]);
    IsRecorded(LateStates()[7], 1, P, [0]);
  }

  lemma BothAreOnePurchase(p: Parse, s: State)
    requires IsTransaction(p) && Normalize(p.reference) != ""
    requires |s.records| == 2 && s.records[0] == ReceiptRecord(p) && s.records[1] == CardRecord(p)
    ensures !OncePerPurchase(s)
  {
    assert SamePurchase(s.records[0], s.records[1]);
  }

  lemma ReferenceIsRead()
    ensures Normalize("A1") == "a1"
  {
    assert "A1"[1..] == "1" && "1"[1..] == "";
  }

  lemma LateIsRun()
    ensures IsRun(LateStates(), LateActions())
  {
    LateDeliveries();
    LateFirst();
    LateSave();
    LateCard();
    LateSecond();
    forall i | 0 <= i < 8 ensures Follows(LateStates(), LateActions(), i) {
      assert i == 0 || i == 1 || i == 2 || i == 3 || i == 4 || i == 5 || i == 6 || i == 7;
    }
  }

  lemma LateIsTame()
    ensures Tame(LateStates(), LateActions())
  {
  }

  lemma LateIsPlain(i: nat)
    requires i < 8
    ensures FewCandidates(LateStates()[i], LateActions()[i]) && InCents(LateActions()[i])
  {
    FewRows(LateStates()[i], LateActions()[i]);
    assert Cents(5.0) == 5.0;
  }

  /** One purchase, two records, although no failure un-finishes a row, candidates are few and amounts
      are in cents. */
  lemma LateSaveMakesTwo()
    ensures IsRun(LateStates(), LateActions()) && Tame(LateStates(), LateActions())
    ensures forall i :: 0 <= i < 8 ==> FewCandidates(LateStates()[i], LateActions()[i]) && InCents(LateActions()[i])
    ensures Erases(LateStates()[4], LateActions()[4]) && !OncePerPurchase(LateStates()[8])
  {
    LateIsRun();
    LateIsTame();
    LateSave();
    ReferenceIsRead();
    BothAreOnePurchase(P, LateStates()[8]);
    forall i | 0 <= i < 8 ensures FewCandidates(LateStates()[i], LateActions()[i]) && InCents(LateActions()[i]) {
      LateIsPlain(i);
    }
  }

  // ------------------------------------------------------------ a fraction of a cent finds no twin

  const Q: Parse := Purchase(5.005)

  /** The receipt and the card's notice, one after the other, nothing else. */
  function FractionActions(): seq<Action> {
    [Receipt, Save(0, "e"), Run(0, Succeeds(Q, [])), CardNotice, Save(1, "f"), Run(1, Succeeds(Q, []))]
  }

  function FractionStates(): seq<State> {
    var done, first := ReceiptRow(Processed, Result(Q), Some(0)), ReceiptRecord(Q);
    [Empty,
     State([ReceiptRow(Pending, Blank, None)], [], multiset{0}),
     State([ReceiptRow(Pending, Raw("e"), None)], [], multiset{}),
     State([done], [first], multiset{}),
     State([done, CardRow(Pending, Blank, None)], [first], multiset{1}),
     State([done, CardRow(Pending, Raw("f"), None)], [first], multiset{}),
     State([done, CardRow(Processed, Result(Q), Some(1))], [first, CardRecord(Q)], multiset{})]
  }

  lemma FractionDeliveries()
    ensures var ss, aa := FractionStates(), FractionActions();
            Follows(ss, aa, 0) && Follows(ss, aa, 1) && Follows(ss, aa, 3) && Follows(ss, aa, 4)
  {
    assert FindRow(Empty.rows, 1, 1, "m") == 0;
    assert FindRow(FractionStates()[3].rows[1..], 1, 1, "n") == 0;
    assert FindRow(FractionStates()[3].rows, 1, 1, "n") == 1;
  }

  lemma FractionFirst()
    ensures Follows(FractionStates(), FractionActions(), 2)
  {
    NoCandidate(FractionStates()[2], Q);
    IsRecorded(FractionStates()[2], 0, Q, []);
  }

  lemma FractionSecond()
    ensures Follows(FractionStates(), FractionActions(), 5)
  {
    var s := FractionStates()[5];
    assert Cents(5.005) == 5.01;
    assert forall c: nat :: !Matches(s, 1, Q, c);
    assert IsAnswer(s, 1, Q, []);
    IsRecorded(s, 1, Q, []);
  }

  lemma FractionIsRun()
    ensures IsRun(FractionStates(), FractionActions())
  {
    FractionDeliveries();
    FractionFirst();
    FractionSecond();
    forall i | 0 <= i < 6 ensures Follows(FractionStates(), FractionActions(), i) {
      assert i == 0 || i == 1 || i == 2 || i == 3 || i == 4 || i == 5;
    }
  }

  lemma FractionIsPlain()
    ensures Tame(FractionStates(), FractionActions()) && NothingErased(FractionStates(), FractionActions())
  {
  }

  /** One purchase, two records, although nothing fails, nothing is erased and candidates are few. */
  lemma FractionMakesTwo()
    ensures IsRun(FractionStates(), FractionActions())
    ensures Tame(FractionStates(), FractionActions()) && NothingErased(FractionStates(), FractionActions())
    ensures forall i :: 0 <= i < 6 ==> FewCandidates(FractionStates()[i], FractionActions()[i])
    ensures !OncePerPurchase(FractionStates()[6])
  {
    FractionIsRun();
    FractionIsPlain();
    ReferenceIsRead();
    BothAreOnePurchase(Q, FractionStates()[6]);
    forall i | 0 <= i < 6 ensures FewCandidates(FractionStates()[i], FractionActions()[i]) {
      FewRows(FractionStates()[i], FractionActions()[i]);
    }
  }

  // ------------------------------------------------------------ a late delivery erases what a duplicate names

  /** The card's notice is delivered twice, and found a duplicate of the receipt; then the second delivery
      saves. */
  function ForgottenActions(): seq<Action> {
    [Receipt, Save(0, "e"), Run(0, Succeeds(P, [])), CardNotice, CardNotice, Save(1, "f"),
     Run(1, Succeeds(P, [0])), Save(1, "f")]
  }

  function ForgottenStates(): seq<State> {
    var done, rs := ReceiptRow(Processed, Result(P), Some(0)), [ReceiptRecord(P)];
    [Empty,
     State([ReceiptRow(Pending, Blank, None)], [], multiset{0}),
     State([ReceiptRow(Pending, Raw("e"), None)], [], multiset{}),
     State([done], rs, multiset{}),
     State([done, CardRow(Pending, Blank, None)], rs, multiset{1}),
     State([done, CardRow(Pending, Blank, None)], rs, multiset{1, 1}),
     State([done, CardRow(Pending, Raw("f"), None)], rs, multiset{1}),
     State([done, CardRow(Duplicate, DuplicateOf(P, 0), None)], rs, multiset{1}),
     State([done, CardRow(Duplicate, Raw("f"), None)], rs, multiset{})]
  }

  lemma ForgottenReceipt()
    ensures Follows(ForgottenStates(), ForgottenActions(), 0) && Follows(ForgottenStates(), ForgottenActions(), 1)
  {
    assert FindRow(Empty.rows, 1, 1, "m") == 0;
  }

  lemma ForgottenFirst()
    ensures Follows(ForgottenStates(), ForgottenActions(), 2)
  {
    NoCandidate(ForgottenStates()[2], P);
    IsRecorded(ForgottenStates()[2], 0, P, []);
  }

  lemma ForgottenCard()
    ensures Follows(ForgottenStates(), ForgottenActions(), 3) && Follows(ForgottenStates(), ForgottenActions(), 4)
    ensures Follows(ForgottenStates(), ForgottenActions(), 5)
  {
    assert FindRow(ForgottenStates()[3].rows[1..], 1, 1, "n") == 0;
    assert FindRow(ForgottenStates()[3].rows, 1, 1, "n") == 1;
    assert FindRow(ForgottenStates()[4].rows[1..], 1, 1, "n") == 0;
    assert FindRow(ForgottenStates()[4].rows, 1, 1, "n") == 1;
  }

  lemma ForgottenMatch(s: State)
    requires s == ForgottenStates()[6]
    ensures IsTransaction(P) && IsAnswer(s, 1, P, [0])
    ensures Detect(s.rows, Normalize(P.reference), [0], Succeeds(P, [0]).judge) == ByReference(0)
  {
    assert Cents(5.0) == 5.0;
    assert Matches(s, 1, P, 0);
    ReferenceIsRead();
  }

  lemma ForgottenDuplicate()
    ensures Follows(ForgottenStates(), ForgottenActions(), 6)
  {
    ForgottenMatch(ForgottenStates()[6]);
  }

  lemma ForgottenSave()
    ensures Follows(ForgottenStates(), ForgottenActions(), 7)
    ensures Forgets(ForgottenStates()[7], ForgottenActions()[7]) && !Pointed(ForgottenStates()[8])
  {
    assert ForgottenStates()[8].rows[1].status.Duplicate?;
  }

  lemma ForgottenIsTame()
    ensures Tame(ForgottenStates(), ForgottenActions())
  {
  }

  /** A duplicate that names nothing, although no failure un-finishes a row. */
  lemma LateSaveForgets()
    ensures IsRun(ForgottenStates(), ForgottenActions()) && Tame(ForgottenStates(), ForgottenActions())
    ensures Forgets(ForgottenStates()[7], ForgottenActions()[7]) && !Pointed(ForgottenStates()[8])
  {
    ForgottenReceipt();
    ForgottenFirst();
    ForgottenCard();
    ForgottenDuplicate();
    ForgottenSave();
    ForgottenIsTame();
    forall i | 0 <= i < 8 ensures Follows(ForgottenStates(), ForgottenActions(), i) {
      assert i == 0 || i == 1 || i == 2 || i == 3 || i == 4 || i == 5 || i == 6 || i == 7;
    }
  }

  // ------------------------------------------------------------ a fourth candidate is not looked at

  /** Five emails of the same money, a second apart; only the first and the last carry one reference. */
  function LetterOf(n: nat): char { if n == 1 then 'b' else if n == 2 then 'c' else if n == 3 then 'd' else 'a' }

  function Bill(n: nat): Parse { P.(reference := [LetterOf(n)]) }

  function MessageOf(n: nat): string {
    if n == 0 then "m0" else if n == 1 then "m1" else if n == 2 then "m2" else if n == 3 then "m3" else "m4"
  }

  function BillRow(n: nat, status: Status, note: Note, record: Option<nat>): Row {
    Row(1, 1, MessageOf(n), n, status, note, record, None)
  }

  lemma BillsAreTransactions(n: nat)
    ensures IsTransaction(Bill(n)) && InCents(Run(n, Succeeds(Bill(n), [])))
    ensures Normalize(Bill(n).reference) == [LetterOf(n)]
  {
    assert Cents(5.0) == 5.0;
    NormalizeIsStable("");
    assert LowerChar(LetterOf(n)) == LetterOf(n) && IsAlnum(LetterOf(n));
  }

  function BillRecord(n: nat): Record {
    Record(1, Expense, Cents(5.0), "COP", n, Bill(n), n)
  }

  /** The first `n` emails are recorded. */
  function Billed(n: nat): State
    requires n <= 5
  {
    State(seq(n, i requires 0 <= i < n => BillRow(i, Processed, Result(Bill(i)), Some(i))),
          seq(n, i requires 0 <= i < n => BillRecord(i)), multiset{})
  }

  /** The newest three of them. */
  function Newest(n: nat): (cs: seq<nat>)
    requires n <= 4
    ensures forall i :: 0 <= i < |cs| ==> cs[i] < n && (LetterOf(cs[i]) != LetterOf(n))
  {
    if n == 0 then [] else if n == 1 then [0] else if n == 2 then [1, 0] else if n == 3 then [2, 1, 0] else [3, 2, 1]
  }

  /** Every third action begins with the next email. */
  function BillAction(n: nat, k: nat): Action
    requires n <= 4
  {
    if k == 0 then Arrive(1, 1, MessageOf(n), n)
    else if k == 1 then Save(n, "e")
    else Run(n, Succeeds(Bill(n), Newest(n)))
  }

  function BillState(n: nat, k: nat): State
    requires n <= 5 && (k > 0 ==> n <= 4)
  {
    var s := Billed(n);
    if k == 0 then s
    else if k == 1 then s.(rows := s.rows + [BillRow(n, Pending, Blank, None)], writers := multiset{n})
    else s.(rows := s.rows + [BillRow(n, Pending, Raw("e"), None)])
  }

  function BillActions(): seq<Action> { seq(15, i requires 0 <= i < 15 => BillAction(i / 3, i % 3)) }

  function BillStates(): seq<State> { seq(16, i requires 0 <= i < 16 => BillState(i / 3, i % 3)) }

  lemma MessagesDiffer(i: nat, n: nat)
    requires i < n <= 4
    ensures MessageOf(i) != MessageOf(n)
  {
    assert MessageOf(i)[1] != MessageOf(n)[1];
  }

  lemma BillArrives(n: nat)
    requires n <= 4
    ensures Step(BillState(n, 0), BillAction(n, 0)) == BillState(n, 1)
  {
    var s := Billed(n);
    forall j | 0 <= j < n ensures !HasKey(s.rows[j], 1, 1, MessageOf(n)) { MessagesDiffer(j, n); }
    assert FindRow(s.rows, 1, 1, MessageOf(n)) == n;
    assert multiset{} + multiset{n} == multiset{n};
  }

  lemma BillIsSaved(n: nat)
    requires n <= 4
    ensures Step(BillState(n, 1), BillAction(n, 1)) == BillState(n, 2)
  {
    var s := BillState(n, 1);
    assert s.rows[n := BillRow(n, Pending, Raw("e"), None)] == Billed(n).rows + [BillRow(n, Pending, Raw("e"), None)];
    assert multiset{n} - multiset{n} == multiset{};
  }

  lemma BillMatches(n: nat, c: nat)
    requires n <= 4
    ensures Matches(BillState(n, 2), n, Bill(n), c) <==> c < n
  {
    assert Cents(5.0) == 5.0;
  }

  lemma {:induction false} AllDiffer(rows: seq<Row>, ref: string, cs: seq<nat>, judge: nat -> Judge)
    requires forall i :: 0 <= i < |cs| ==> cs[i] < |rows|
    requires ref != "" && forall c :: c in cs ==> ReferenceOf(rows[c].note) != "" && ReferenceOf(rows[c].note) != ref
    ensures Detect(rows, ref, cs, judge) == NotFound
  {
    if cs != [] { AllDiffer(rows, ref, cs[1..], judge); }
  }

  lemma NewestAnswer(s: State, id: nat, p: Parse, n: nat)
    requires n <= 4 && n <= |s.rows|
    requires forall c: nat :: Matches(s, id, p, c) <==> c < n
    requires forall c :: 0 <= c < n ==> s.rows[c].createdAt == c
    ensures IsAnswer(s, id, p, Newest(n))
  {
    var cs := Newest(n);
    forall i | 0 <= i < |cs| ensures Matches(s, id, p, cs[i]) && s.rows[cs[i]].createdAt == cs[i] {
    }
  }

  lemma BillIsAnswered(n: nat)
    requires n <= 4
    ensures IsAnswer(BillState(n, 2), n, Bill(n), Newest(n))
  {
    forall c: nat ensures Matches(BillState(n, 2), n, Bill(n), c) <==> c < n { BillMatches(n, c); }
    NewestAnswer(BillState(n, 2), n, Bill(n), n);
  }

  lemma BillFindsNone(n: nat)
    requires n <= 4
    ensures Detect(BillState(n, 2).rows, Normalize(Bill(n).reference), Newest(n), Succeeds(Bill(n), Newest(n)).judge)
            == NotFound
  {
    BillsAreTransactions(n);
    forall c | c in Newest(n)
      ensures ReferenceOf(BillState(n, 2).rows[c].note) == [LetterOf(c)] != Normalize(Bill(n).reference)
    {
      BillsAreTransactions(c);
    }
    AllDiffer(BillState(n, 2).rows, Normalize(Bill(n).reference), Newest(n), Succeeds(Bill(n), Newest(n)).judge);
  }

  lemma BillIsRecorded(n: nat)
    requires n <= 4
    ensures Possible(BillState(n, 2), BillAction(n, 2))
    ensures Step(BillState(n, 2), BillAction(n, 2)) == BillState(n + 1, 0)
  {
    BillIsAnswered(n);
    BillFindsNone(n);
    BillsAreTransactions(n);
    IsRecorded(BillState(n, 2), n, Bill(n), Newest(n));
    BillIsCreated(n);
  }

  lemma BillIsCreated(n: nat)
    requires n <= 4
    ensures IsTransaction(Bill(n)) && AfterCreate(BillState(n, 2), n, Bill(n)) == BillState(n + 1, 0)
  {
    var s := BillState(n, 2);
    CreatedAt(s, n, Billed(n).rows, BillRow(n, Pending, Raw("e"), None), Bill(n));
    assert Billed(n + 1).rows == Billed(n).rows + [BillRow(n, Processed, Result(Bill(n)), Some(n))];
    assert Billed(n + 1).records == Billed(n).records + [BillRecord(n)];
  }

  lemma CreatedAt(s: State, id: nat, rows: seq<Row>, r: Row, p: Parse)
    requires s.rows == rows + [r] && id == |rows| && IsTransaction(p)
    ensures AfterCreate(s, id, p).rows
            == rows + [WithLink(r.(status := Processed, note := Result(p)), p.kind.value, |s.records|)]
    ensures AfterCreate(s, id, p).records == s.records + [RecordOf(r, p, id)]
    ensures AfterCreate(s, id, p).writers == s.writers
  {
  }

  lemma BillFollows(i: nat)
    requires i < 15
    ensures Follows(BillStates(), BillActions(), i)
  {
    var n := i / 3;
    if i % 3 == 0 {
      BillArrives(n);
      assert (i + 1) / 3 == n && (i + 1) % 3 == 1;
    } else if i % 3 == 1 {
      BillIsSaved(n);
      assert (i + 1) / 3 == n && (i + 1) % 3 == 2;
    } else {
      BillIsRecorded(n);
      assert (i + 1) / 3 == n + 1 && (i + 1) % 3 == 0;
    }
  }

  lemma BillsAreTame()
    ensures Tame(BillStates(), BillActions()) && NothingErased(BillStates(), BillActions())
  {
    forall i | 0 <= i < 15
      ensures !Unfinishes(BillStates()[i], BillActions()[i]) && !Erases(BillStates()[i], BillActions()[i])
    {
      var n := i / 3;
      assert BillActions()[i] == BillAction(n, i % 3) && BillStates()[i] == BillState(n, i % 3);
    }
  }

  /** One purchase, two records, although nothing fails, nothing is erased and amounts are in cents: the
      row with the reference is the fourth newest. */
  lemma FourCandidatesMakeTwo()
    ensures IsRun(BillStates(), BillActions())
    ensures Tame(BillStates(), BillActions()) && NothingErased(BillStates(), BillActions())
    ensures forall i :: 0 <= i < 15 ==> InCents(BillActions()[i])
    ensures !OncePerPurchase(BillStates()[15])
  {
    forall i | 0 <= i < 15 ensures Follows(BillStates(), BillActions(), i) { BillFollows(i); }
    assert BillStates()[0] == Empty;
    BillsAreTame();
    forall i | 0 <= i < 15 ensures InCents(BillActions()[i]) {
      assert BillActions()[i] == BillAction(i / 3, i % 3);
      BillsAreTransactions(i / 3);
    }
    FirstAndLastBill();
  }

  lemma FirstAndLastBill()
    ensures !OncePerPurchase(BillStates()[15])
  {
    assert BillStates()[15] == Billed(5);
    BillsAreTransactions(0);
    BillsAreTransactions(4);
    assert SamePurchase(Billed(5).records[0], Billed(5).records[4]);
  }
}
