/** Two emails of one purchase: what a duplicate points to, and when the second makes no record. */
module GmailDuplicates {
  import opened Options
  import opened Sets
  import opened GmailPipeline
  import opened GmailRecording
  import opened GmailSearch

  // ------------------------------------------------------------ what a duplicate points to

  /** Each duplicate names a row, and that row holds a record of the same user, kind, amount and
      currency, from minutes around. */
  predicate Pointed(s: State) {
    forall r: nat :: r < |s.rows| && s.rows[r].status.Duplicate? ==>
      s.rows[r].note.DuplicateOf? && Matches(s, r, s.rows[r].note.p, s.rows[r].note.original)
  }

  /** The email of a duplicate has its record: made from another email of the user, within a quarter of an
      hour, of the kind, the amount and the currency that were read. */
  predicate Covered(s: State, r: nat)
    requires r < |s.rows|
  {
    var row := s.rows[r];
    && row.note.DuplicateOf? && row.note.original < |s.rows| && row.note.original != r && row.note.p.kind.Some?
    && var other := s.rows[row.note.original];
       var link := if row.note.p.kind == Some(Expense) then other.expense else other.income;
       && other.status == Processed && other.user == row.user
       && -900 <= other.createdAt - row.createdAt <= 900
       && link.Some? && link.value < |s.records|
       && var k := s.records[link.value];
          row.note.p.kind == Some(k.kind) && row.note.p.amount == Number(k.amount) && row.note.p.currency == k.currency
  }

  /** A webhook call that read the row earlier saves the email over what the task stored. */
  predicate Erases(s: State, a: Action) {
    a.Save? && a.row in s.writers && a.row < |s.rows| && Terminal(s.rows[a.row].status)
    && s.rows[a.row].note != Raw(a.email)
  }

  /** The save falls on a duplicate, which then names nothing. */
  predicate Forgets(s: State, a: Action) {
    Erases(s, a) && s.rows[a.row].status.Duplicate?
  }

  /** A match lasts unless its row is un-finished. */
  lemma MatchStays(s: State, a: Action, r: nat, p: Parse, c: nat)
    requires Possible(s, a) && Matches(s, r, p, c) && !(Unfinishes(s, a) && a.row == c)
    ensures Matches(Step(s, a), r, p, c)
  {
    RowsStay(s, a, r);
    RecordsGrow(s, a);
    ProcessedStays(s, a, c);
  }

  /** A processed row changes in its note at most. */
  lemma ProcessedStays(s: State, a: Action, c: nat)
    requires Possible(s, a) && c < |s.rows| && s.rows[c].status.Processed? && !(Unfinishes(s, a) && a.row == c)
    ensures c < |Step(s, a).rows| && Step(s, a).rows[c] == s.rows[c].(note := Step(s, a).rows[c].note)
  {
  }

  /** Nobody changes whose a row is, or when it came. */
  lemma RowsStay(s: State, a: Action, r: nat)
    requires Possible(s, a) && r < |s.rows|
    ensures r < |Step(s, a).rows|
    ensures Step(s, a).rows[r].user == s.rows[r].user && Step(s, a).rows[r].createdAt == s.rows[r].createdAt
  {
  }

  lemma DuplicateIsMatch(s: State, id: nat, o: Answers)
    requires id < |s.rows| && Answered(s, id, o)
    ensures var e := Ends(s, id, o);
            e.Settles? && e.status.Duplicate? ==> e.note.DuplicateOf? && Matches(s, id, e.note.p, e.note.original)
  {
    if o.parse.Some? && IsTransaction(o.parse.value) {
      FoundIsCandidate(s.rows, Normalize(o.parse.value.reference), o.candidates, o.judge);
    }
  }

  /** A row that is a duplicate after a step was one before, or the step made it one. */
  lemma BecomesDuplicate(s: State, a: Action, r: nat)
    requires Possible(s, a) && r < |Step(s, a).rows| && Step(s, a).rows[r].status.Duplicate?
    ensures r < |s.rows|
    ensures || (s.rows[r].status.Duplicate?
                && (Step(s, a).rows[r].note == s.rows[r].note || (Erases(s, a) && a.row == r)))
            || (a.Run? && a.row == r && !Terminal(s.rows[r].status) && Ends(s, r, a.o).Settles?
                && Ends(s, r, a.o).status.Duplicate? && Step(s, a).rows[r].note == Ends(s, r, a.o).note)
  {
  }

  /** The failure mark falls on a row that a duplicate names. */
  predicate Strands(s: State, a: Action) {
    Unfinishes(s, a) && exists r: nat :: r < |s.rows| && Names(s, r, a.row)
  }

  predicate Names(s: State, r: nat, c: nat)
    requires r < |s.rows|
  {
    s.rows[r].status.Duplicate? && s.rows[r].note.DuplicateOf? && s.rows[r].note.original == c
  }

  /** Exactly when a step leaves every duplicate with the record it names. */
  lemma PointedStaysIff(s: State, a: Action)
    requires Possible(s, a) && Pointed(s)
    ensures Pointed(Step(s, a)) <==> !Strands(s, a) && !Forgets(s, a)
  {
    if Strands(s, a) {
      var r: nat :| r < |s.rows| && Names(s, r, a.row);
      StrandedBy(s, a, r);
    } else if Forgets(s, a) {
      assert Step(s, a).rows[a.row].note == Raw(a.email);
      assert Step(s, a).rows[a.row].status.Duplicate?;
    } else {
      PointedKept(s, a);
    }
  }

  lemma StrandedBy(s: State, a: Action, r: nat)
    requires Possible(s, a) && Pointed(s) && Unfinishes(s, a) && r < |s.rows| && Names(s, r, a.row)
    ensures !Pointed(Step(s, a))
  {
    assert Matches(s, r, s.rows[r].note.p, a.row);
    assert Step(s, a).rows[r] == s.rows[r];
  }

  lemma PointedKept(s: State, a: Action)
    requires Possible(s, a) && Pointed(s) && !Strands(s, a) && !Forgets(s, a)
    ensures Pointed(Step(s, a))
  {
    var t := Step(s, a);
    forall r: nat | r < |t.rows| && t.rows[r].status.Duplicate?
      ensures t.rows[r].note.DuplicateOf? && Matches(t, r, t.rows[r].note.p, t.rows[r].note.original)
    {
      BecomesDuplicate(s, a, r);
      if s.rows[r].status.Duplicate? {
        assert Names(s, r, s.rows[r].note.original);
        MatchStays(s, a, r, s.rows[r].note.p, s.rows[r].note.original);
      } else {
        DuplicateIsMatch(s, r, a.o);
        MatchStays(s, a, r, t.rows[r].note.p, t.rows[r].note.original);
      }
    }
  }

  /** Along a run that strands and forgets none, every duplicate names a processed row, never another
      duplicate, with a record of the same user, kind, amount and currency, received within a quarter
      of an hour. */
  lemma {:induction false} DuplicatesPointToRecords(states: seq<State>, actions: seq<Action>, n: nat)
    requires IsRun(states, actions) && n < |states|
    requires forall k :: 0 <= k < |actions| ==> !Strands(states[k], actions[k]) && !Forgets(states[k], actions[k])
    ensures Pointed(states[n])
    ensures forall r: nat :: r < |states[n].rows| && states[n].rows[r].status.Duplicate? ==> Covered(states[n], r)
  {
    if n > 0 {
      assert Follows(states, actions, n - 1);
      DuplicatesPointToRecords(states, actions, n - 1);
      PointedKept(states[n - 1], actions[n - 1]);
    }
  }

  // ------------------------------------------------------------ late deliveries

  predicate KeepsNotes(s: State, t: State) {
    |s.rows| <= |t.rows|
    && forall i :: 0 <= i < |s.rows| && Terminal(s.rows[i].status) ==> t.rows[i].note == s.rows[i].note
  }

  /** Exactly when a step leaves the stored result of every finished row. */
  lemma NotesStay(s: State, a: Action)
    requires Possible(s, a)
    ensures KeepsNotes(s, Step(s, a)) <==> !Erases(s, a)
  {
    if Erases(s, a) { assert Step(s, a).rows[a.row].note == Raw(a.email); }
  }

  // ------------------------------------------------------------ one record for one purchase

  /** Two records of one purchase: the same money, from minutes around, read with the same reference. */
  predicate SamePurchase(a: Record, b: Record) {
    && a.user == b.user && a.kind == b.kind && a.amount == b.amount && a.currency == b.currency
    && Near(a.receivedAt, b.receivedAt)
    && Normalize(a.p.reference) == Normalize(b.p.reference) != ""
  }

  predicate OncePerPurchase(s: State) {
    forall i, j :: 0 <= i < j < |s.records| ==> !SamePurchase(s.records[i], s.records[j])
  }

  /** The row's key for the kind names a record made from what the row stores, unless a late delivery
      saved an email over it. */
  predicate MadeFrom(s: State, r: nat, kind: Kind)
    requires r < |s.rows|
  {
    var link := LinkOf(s.rows[r], kind);
    link.Some? && link.value < |s.records|
    && var k := s.records[link.value];
       IsTransaction(k.p) && k == RecordOf(s.rows[r], k.p, r) && (s.rows[r].note == Result(k.p) || s.rows[r].note.Raw?)
  }

  /** A processed row names a record made from it, of one kind or the other. */
  predicate Reflects(s: State, r: nat)
    requires r < |s.rows|
  {
    MadeFrom(s, r, Expense) || MadeFrom(s, r, Income)
  }

  predicate AllReflect(s: State) {
    forall r: nat :: r < |s.rows| && s.rows[r].status.Processed? ==> Reflects(s, r)
  }

  /** The record is what its row's email was read as. */
  predicate IsMade(s: State, k: nat)
    requires k < |s.records|
  {
    var r := s.records[k];
    && r.source < |s.rows| && IsTransaction(r.p)
    && r.user == s.rows[r.source].user && r.receivedAt == s.rows[r.source].createdAt
    && r.p.kind == Some(r.kind) && r.amount == Cents(r.p.amount.value) && r.currency == r.p.currency
  }

  predicate AllMade(s: State) {
    forall k :: 0 <= k < |s.records| ==> IsMade(s, k)
  }

  lemma BecomesProcessed(s: State, a: Action, r: nat)
    requires Possible(s, a) && r < |Step(s, a).rows| && Step(s, a).rows[r].status.Processed?
    ensures r < |s.rows|
    ensures || (s.rows[r].status.Processed? && Step(s, a).rows[r] == s.rows[r].(note := Step(s, a).rows[r].note)
                && (Step(s, a).rows[r].note == s.rows[r].note || (Erases(s, a) && Step(s, a).rows[r].note.Raw?)))
            || (a.Run? && a.row == r && !a.o.early && !Terminal(s.rows[r].status) && Ends(s, r, a.o).Creates?
                && Step(s, a) == AfterCreate(s, r, Ends(s, r, a.o).p))
  {
  }

  lemma CreatesTransaction(s: State, id: nat, o: Answers)
    requires id < |s.rows| && Answered(s, id, o) && Ends(s, id, o).Creates?
    ensures o.parse == Some(Ends(s, id, o).p) && Searches(s, id, o)
    ensures Detect(s.rows, Normalize(Ends(s, id, o).p.reference), o.candidates, o.judge).NotFound?
  {
  }

  lemma ReflectsStays(s: State, a: Action, r: nat)
    requires Possible(s, a) && AllReflect(s) && r < |Step(s, a).rows| && Step(s, a).rows[r].status.Processed?
    ensures Reflects(Step(s, a), r)
  {
    BecomesProcessed(s, a, r);
    RecordsGrow(s, a);
    if s.rows[r].status.Processed? {
      assert Reflects(s, r);
    } else {
      CreatesTransaction(s, r, a.o);
      assert MadeFrom(Step(s, a), r, Ends(s, r, a.o).p.kind.value);
    }
  }

  lemma MadeStays(s: State, a: Action)
    requires Possible(s, a) && AllMade(s)
    ensures AllMade(Step(s, a))
  {
    var t := Step(s, a);
    RecordsGrow(s, a);
    forall k | 0 <= k < |t.records| ensures IsMade(t, k) {
      if k < |s.records| {
        assert IsMade(s, k);
        RowsStay(s, a, s.records[k].source);
      } else {
        CreatesTransaction(s, a.row, a.o);
        RowsStay(s, a, a.row);
      }
    }
  }

  lemma {:induction false} MadeAlways(states: seq<State>, actions: seq<Action>, n: nat)
    requires IsRun(states, actions) && n < |states|
    ensures AllMade(states[n])
  {
    if n > 0 {
      assert Follows(states, actions, n - 1);
      MadeAlways(states, actions, n - 1);
      MadeStays(states[n - 1], actions[n - 1]);
    }
  }

  lemma {:induction false} ReflectsAlways(states: seq<State>, actions: seq<Action>, n: nat)
    requires IsRun(states, actions) && n < |states|
    ensures AllReflect(states[n])
  {
    if n > 0 {
      assert Follows(states, actions, n - 1);
      ReflectsAlways(states, actions, n - 1);
      forall r: nat | r < |states[n].rows| && states[n].rows[r].status.Processed? ensures Reflects(states[n], r) {
        ReflectsStays(states[n - 1], actions[n - 1], r);
      }
    }
  }

  // ------------------------------------------------------------ what stands in the way of a second record

  /** The run reads a transaction and comes to the search for duplicates. */
  predicate Searches(s: State, id: nat, o: Answers) {
    && id < |s.rows| && s.rows[id].note.Raw? && !o.late && o.canAdd
    && o.parse.Some? && IsTransaction(o.parse.value) && o.parse.value.amount.Number?
  }

  /** A processed row with a record of the same money, from minutes around, that stores the reference. */
  predicate Guards(s: State, id: nat, p: Parse, c: nat) {
    Matches(s, id, p, c) && Normalize(p.reference) != "" && ReferenceOf(s.rows[c].note) == Normalize(p.reference)
  }

  /** The query has a guard among its answers. */
  ghost predicate Guarded(s: State, id: nat, p: Parse, cs: seq<nat>) {
    exists c :: c in cs && Guards(s, id, p, c)
  }

  lemma GuardedIsShared(s: State, id: nat, o: Answers)
    requires Answered(s, id, o) && Searches(s, id, o)
    ensures SharesReference(s.rows, Normalize(o.parse.value.reference), o.candidates)
            <==> Guarded(s, id, o.parse.value, o.candidates)
  {
    var p, cs := o.parse.value, o.candidates;
    if SharesReference(s.rows, Normalize(p.reference), cs) {
      var i :| 0 <= i < |cs| && ReferenceOf(s.rows[cs[i]].note) == Normalize(p.reference) != "";
      assert cs[i] in cs && Guards(s, id, p, cs[i]);
    }
    if c :| c in cs && Guards(s, id, p, c) {
      var i :| 0 <= i < |cs| && cs[i] == c;
    }
  }

  /** With the rest of the answers given, the search alone decides. */
  lemma CreatesIff(s: State, id: nat, o: Answers, judge: nat -> Judge)
    requires Answered(s, id, o) && Searches(s, id, o)
    ensures Ends(s, id, o.(judge := judge)).Creates? <==>
              Detect(s.rows, Normalize(o.parse.value.reference), o.candidates, judge).NotFound?
  {
  }

  /** A run that comes to the search creates no record, whatever the judge says, exactly when the query
      answers with a guard. */
  lemma GuardedIff(s: State, id: nat, o: Answers)
    requires Answered(s, id, o) && Searches(s, id, o)
    ensures (forall judge: nat -> Judge :: !Ends(s, id, o.(judge := judge)).Creates?)
            <==> Guarded(s, id, o.parse.value, o.candidates)
  {
    var ref := Normalize(o.parse.value.reference);
    GuardedIsShared(s, id, o);
    if SharesReference(s.rows, ref, o.candidates) {
      forall judge: nat -> Judge ensures !Ends(s, id, o.(judge := judge)).Creates? {
        CreatesIff(s, id, o, judge);
        SharedIsFound(s.rows, ref, o.candidates, judge);
      }
    } else {
      CreatesIff(s, id, o, NeverSame);
      OthersAreLeft(s.rows, ref, o.candidates);
      assert Ends(s, id, o.(judge := NeverSame)).Creates?;
    }
  }

  // ------------------------------------------------------------ few candidates

  function Candidates(s: State, id: nat, p: Parse): set<nat> {
    set c: nat | c < |s.rows| && Matches(s, id, p, c)
  }

  /** The query would find three rows at most. */
  predicate FewCandidates(s: State, a: Action) {
    a.Run? && a.o.parse.Some? ==> |Candidates(s, a.row, a.o.parse.value)| <= 3
  }

  lemma FourMatch(s: State, id: nat, p: Parse, cs: seq<nat>, c: nat)
    requires IsAnswer(s, id, p, cs) && Matches(s, id, p, c) && c !in cs
    ensures |Candidates(s, id, p)| >= 4
  {
    var four := {cs[0], cs[1], cs[2], c};
    assert four <= Candidates(s, id, p);
    assert |four| == 4;
    Fewer(four, Candidates(s, id, p));
  }

  /** With three candidates at most, the query answers with every guard there is. */
  lemma FewAreAllAnswered(s: State, id: nat, o: Answers)
    requires Answered(s, id, o) && Searches(s, id, o) && FewCandidates(s, Run(id, o))
    ensures Guarded(s, id, o.parse.value, o.candidates) <==> exists c: nat :: Guards(s, id, o.parse.value, c)
  {
    if c: nat :| Guards(s, id, o.parse.value, c) {
      if c !in o.candidates { FourMatch(s, id, o.parse.value, o.candidates, c); }
    }
  }

  // ------------------------------------------------------------ a second record of a purchase

  /** The run creates a record of a purchase that has one. */
  ghost predicate RecordsPurchaseAgain(s: State, a: Action) {
    && Possible(s, a) && a.Run? && a.row < |s.rows| && !a.o.early && !Terminal(s.rows[a.row].status)
    && Ends(s, a.row, a.o).Creates? && IsTransaction(Ends(s, a.row, a.o).p)
    && HasRecord(s, RecordOf(s.rows[a.row], Ends(s, a.row, a.o).p, a.row))
  }

  predicate HasRecord(s: State, r: Record) {
    exists k :: 0 <= k < |s.records| && SamePurchase(s.records[k], r)
  }

  /** Exactly when a step makes a second record of a purchase. */
  lemma PurchaseStep(s: State, a: Action, t: State)
    requires Possible(s, a) && t == Step(s, a)
    ensures OncePerPurchase(t) <==> OncePerPurchase(s) && !RecordsPurchaseAgain(s, a)
  {
    RecordsGrow(s, a);
    if t.records != s.records {
      CreatesTransaction(s, a.row, a.o);
      PurchaseAppend(s.records, t.records[|s.records|], s, t);
    } else {
      SameRecords(s, t);
      assert !RecordsPurchaseAgain(s, a) by { CreatesGrow(s, a); }
    }
  }

  lemma SameRecords(s: State, t: State)
    requires t.records == s.records
    ensures OncePerPurchase(t) <==> OncePerPurchase(s)
  {
  }

  lemma CreatesGrow(s: State, a: Action)
    ensures RecordsPurchaseAgain(s, a) ==> Step(s, a).records != s.records
  {
  }

  lemma PurchaseAppend(rs: seq<Record>, r: Record, s: State, t: State)
    requires s.records == rs && t.records == rs + [r]
    ensures OncePerPurchase(t) <==> OncePerPurchase(s) && !HasRecord(s, r)
  {
    if OncePerPurchase(t) {
      forall i, j | 0 <= i < j < |rs| ensures !SamePurchase(rs[i], rs[j]) {
        assert t.records[i] == rs[i] && t.records[j] == rs[j];
      }
      forall k | 0 <= k < |rs| ensures !SamePurchase(rs[k], r) {
        assert t.records[k] == rs[k] && t.records[|rs|] == r;
      }
    }
  }

  lemma PurchaseFollows(states: seq<State>, actions: seq<Action>, k: nat)
    requires IsRun(states, actions) && k < |actions|
    ensures OncePerPurchase(states[k + 1]) <==>
              OncePerPurchase(states[k]) && !RecordsPurchaseAgain(states[k], actions[k])
  {
    assert Follows(states, actions, k);
    PurchaseStep(states[k], actions[k], states[k + 1]);
  }

  /** Over whole runs: a purchase has at most one record exactly when no run has created one of a
      purchase that had one. */
  lemma OncePerPurchaseIff(states: seq<State>, actions: seq<Action>, n: nat)
    requires IsRun(states, actions) && n < |states|
    ensures OncePerPurchase(states[n]) <==>
              forall k :: 0 <= k < n ==> !RecordsPurchaseAgain(states[k], actions[k])
  {
    var once := (k: nat) => k < |states| && OncePerPurchase(states[k]);
    var again := (k: nat) => k < |actions| && RecordsPurchaseAgain(states[k], actions[k]);
    forall k: nat | k < n ensures once(k + 1) <==> once(k) && !again(k) { PurchaseFollows(states, actions, k); }
    OnceAlong(once, again, n);
    forall k | 0 <= k < n ensures again(k) <==> RecordsPurchaseAgain(states[k], actions[k]) {}
  }

  /** A purchase that has a record can get a second one, for some answer of the judge, exactly when the
      query answers with no guard. */
  lemma SecondRecordIff(s: State, id: nat, o: Answers)
    requires Answered(s, id, o) && Searches(s, id, o) && !o.early && !Terminal(s.rows[id].status)
    requires HasRecord(s, RecordOf(s.rows[id], o.parse.value, id))
    ensures (exists judge: nat -> Judge :: RecordsPurchaseAgain(s, Run(id, o.(judge := judge))))
            <==> !Guarded(s, id, o.parse.value, o.candidates)
  {
    GuardedIff(s, id, o);
    forall judge: nat -> Judge
      ensures RecordsPurchaseAgain(s, Run(id, o.(judge := judge))) <==> Ends(s, id, o.(judge := judge)).Creates?
    {
      if Ends(s, id, o.(judge := judge)).Creates? { CreatesTransaction(s, id, o.(judge := judge)); }
    }
  }

  /** The record's row is processed with it, stores the reference, and is another row; and the amount
      is a number of cents. */
  predicate Intact(s: State, id: nat, p: Parse, k: nat)
    requires k < |s.records| && s.records[k].source < |s.rows| && p.amount.Number?
  {
    var c := s.rows[s.records[k].source];
    && s.records[k].source != id && c.status.Processed? && LinkOf(c, s.records[k].kind) == Some(k)
    && ReferenceOf(c.note) == Normalize(p.reference) && Cents(p.amount.value) == p.amount.value
  }

  /** A guard whose record of that kind was made before it was read with the reference it stores. */
  ghost predicate GuardedByOther(s: State, id: nat, p: Parse, k: nat) {
    p.kind.Some? && exists c: nat :: Guards(s, id, p, c) && LinkOf(s.rows[c], p.kind.value) != Some(k)
  }

  /** What the column holds is a number of cents, and the nearest one. */
  lemma CentsIsNearest(v: real)
    ensures (Cents(v) * 100.0).Floor as real == Cents(v) * 100.0
    ensures -0.005 <= Cents(v) - v <= 0.005
  {
    assert Cents(v) == (v * 100.0 + 0.5).Floor as real / 100.0;
  }

  lemma CentsTwice(v: real)
    ensures Cents(Cents(v)) == Cents(v)
  {
    var k := (v * 100.0 + 0.5).Floor;
    assert Cents(v) * 100.0 == k as real;
    assert (k as real + 0.5).Floor == k;
  }

  /** A row guards with the record `k` of the purchase exactly when that record is intact. */
  lemma GuardsWithIff(s: State, id: nat, p: Parse, k: nat)
    requires Linked(s) && AllMade(s) && id < |s.rows| && k < |s.records|
    requires IsTransaction(p) && p.amount.Number? && SamePurchase(s.records[k], RecordOf(s.rows[id], p, id))
    ensures IsMade(s, k)
    ensures Intact(s, id, p, k) <==> exists c: nat :: Guards(s, id, p, c) && LinkOf(s.rows[c], p.kind.value) == Some(k)
  {
    assert IsMade(s, k);
    CentsTwice(s.records[k].p.amount.value);
    var c := s.records[k].source;
    if Intact(s, id, p, k) { assert Guards(s, id, p, c); }
    if d: nat :| Guards(s, id, p, d) && LinkOf(s.rows[d], p.kind.value) == Some(k) {
      assert LinkHolds(s, d, p.kind.value);
    }
  }

  /** On every reachable state, when the purchase has one record and candidates are few: it can get a
      second one exactly when that record is not intact and no other row guards. */
  lemma SecondRecordOfOneIff(s: State, id: nat, o: Answers, k: nat)
    requires Linked(s) && AllMade(s) && Answered(s, id, o) && Searches(s, id, o) && FewCandidates(s, Run(id, o))
    requires !o.early && !Terminal(s.rows[id].status) && k < |s.records|
    requires forall j :: 0 <= j < |s.records| ==>
               (SamePurchase(s.records[j], RecordOf(s.rows[id], o.parse.value, id)) <==> j == k)
    ensures IsMade(s, k)
    ensures (exists judge: nat -> Judge :: RecordsPurchaseAgain(s, Run(id, o.(judge := judge))))
            <==> !Intact(s, id, o.parse.value, k) && !GuardedByOther(s, id, o.parse.value, k)
  {
    assert SamePurchase(s.records[k], RecordOf(s.rows[id], o.parse.value, id));
    SecondRecordIff(s, id, o);
    FewAreAllAnswered(s, id, o);
    GuardsWithIff(s, id, o.parse.value, k);
  }

  /** No row has made records of both kinds. */
  predicate OneKindEach(s: State) {
    forall r :: 0 <= r < |s.rows| ==> s.rows[r].expense.None? || s.rows[r].income.None?
  }

  /** Then no other row guards: what a processed row stores is what its record was made from. */
  lemma NoOtherGuards(s: State, id: nat, p: Parse, k: nat)
    requires AllReflect(s) && OneKindEach(s) && id < |s.rows| && IsTransaction(p) && p.amount.Number?
    requires forall j :: 0 <= j < |s.records| ==>
               (SamePurchase(s.records[j], RecordOf(s.rows[id], p, id)) <==> j == k)
    ensures !GuardedByOther(s, id, p, k)
  {
    forall c: nat | Guards(s, id, p, c) ensures LinkOf(s.rows[c], p.kind.value) == Some(k) {
      assert Reflects(s, c);
      assert MadeFrom(s, c, p.kind.value);
      var j := LinkOf(s.rows[c], p.kind.value).value;
      CentsTwice(s.records[j].p.amount.value);
      assert SamePurchase(s.records[j], RecordOf(s.rows[id], p, id));
    }
  }

  // ------------------------------------------------------------ runs in which nothing stands a guard down

  /** Amounts are numbers of cents. */
  predicate InCents(a: Action) {
    a.Run? && a.o.parse.Some? && a.o.parse.value.amount.Number? ==>
      Cents(a.o.parse.value.amount.value) == a.o.parse.value.amount.value
  }

  predicate NothingErased(states: seq<State>, actions: seq<Action>) {
    |states| == |actions| + 1 && forall i :: 0 <= i < |actions| ==> !Erases(states[i], actions[i])
  }

  predicate NoProcessedRaw(s: State) {
    forall r: nat :: r < |s.rows| && s.rows[r].status.Processed? ==> !s.rows[r].note.Raw?
  }

  lemma {:induction false} NotesKept(states: seq<State>, actions: seq<Action>, n: nat)
    requires IsRun(states, actions) && NothingErased(states, actions) && n < |states|
    ensures NoProcessedRaw(states[n])
  {
    if n > 0 {
      NotesKept(states, actions, n - 1);
      assert Follows(states, actions, n - 1);
      forall r: nat | r < |states[n].rows| && states[n].rows[r].status.Processed? ensures !states[n].rows[r].note.Raw? {
        BecomesProcessed(states[n - 1], actions[n - 1], r);
      }
    }
  }

  lemma OwnedIsIntact(s: State, id: nat, p: Parse, k: nat)
    requires Owned(s) && NoProcessedRaw(s) && id < |s.rows| && !Terminal(s.rows[id].status) && k < |s.records|
    requires IsTransaction(p) && p.amount.Number? && Cents(p.amount.value) == p.amount.value
    requires SamePurchase(s.records[k], RecordOf(s.rows[id], p, id))
    ensures IsOwned(s, k) && Intact(s, id, p, k)
  {
    assert IsOwned(s, k);
  }

  lemma RecordIsGuarded(s: State, a: Action)
    requires Possible(s, a) && Linked(s) && AllMade(s) && Owned(s) && NoProcessedRaw(s)
    requires FewCandidates(s, a) && InCents(a)
    ensures !RecordsPurchaseAgain(s, a)
  {
    if RecordsPurchaseAgain(s, a) {
      CreatesTransaction(s, a.row, a.o);
      var p := a.o.parse.value;
      var k :| 0 <= k < |s.records| && SamePurchase(s.records[k], RecordOf(s.rows[a.row], p, a.row));
      assert a.o.(judge := a.o.judge) == a.o;
      OwnedIsIntact(s, a.row, p, k);
      GuardsWithIff(s, a.row, p, k);
      FewAreAllAnswered(s, a.row, a.o);
      GuardedIff(s, a.row, a.o);
    }
  }

  /** Emails with the same reference, from minutes around and with the same money, make one record at
      most, whatever the judge says, while three candidates or fewer exist at each run. */
  lemma OneRecordPerPurchase(states: seq<State>, actions: seq<Action>, n: nat)
    requires IsRun(states, actions) && Tame(states, actions) && NothingErased(states, actions) && n < |states|
    requires forall i :: 0 <= i < |actions| ==> FewCandidates(states[i], actions[i]) && InCents(actions[i])
    ensures OncePerPurchase(states[n])
  {
    forall k | 0 <= k < n ensures !RecordsPurchaseAgain(states[k], actions[k]) {
      assert Follows(states, actions, k);
      LinkedAlways(states, actions, k);
      MadeAlways(states, actions, k);
      OwnedAlways(states, actions, k);
      NotesKept(states, actions, k);
      RecordIsGuarded(states[k], actions[k]);
    }
    OncePerPurchaseIff(states, actions, n);
  }

  /** The search compares the amount as read with the amount as stored: a fraction of a cent never
      finds its twin. */
  lemma FractionsAreNotFound(s: State, id: nat, p: Parse, c: nat)
    requires AllMade(s) && p.amount.Number? && Cents(p.amount.value) != p.amount.value
    ensures !Matches(s, id, p, c)
  {
    if Matches(s, id, p, c) {
      var k := LinkOf(s.rows[c], p.kind.value).value;
      assert IsMade(s, k);
      CentsTwice(s.records[k].p.amount.value);
    }
  }
}
