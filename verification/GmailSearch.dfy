/** How the search for duplicates ends, and with it a run of the task: each ending and exactly when. */
module GmailSearch {
  import opened Options
  import opened GmailPipeline

  // ------------------------------------------------------------ the search

  lemma {:induction false} FoundIsCandidate(rows: seq<Row>, ref: string, cs: seq<nat>, judge: nat -> Judge)
    requires forall i :: 0 <= i < |cs| ==> cs[i] < |rows|
    ensures var f := Detect(rows, ref, cs, judge); f.ByReference? || f.ByJudge? ==> f.original in cs
  {
    if cs != [] { FoundIsCandidate(rows, ref, cs[1..], judge); }
  }

  ghost predicate SharesReference(rows: seq<Row>, ref: string, cs: seq<nat>)
    requires forall i :: 0 <= i < |cs| ==> cs[i] < |rows|
  {
    exists i :: 0 <= i < |cs| && ref != "" && ReferenceOf(rows[cs[i]].note) == ref
  }

  lemma {:induction false} FoundAt(rows: seq<Row>, ref: string, cs: seq<nat>, judge: nat -> Judge, i: nat)
    requires forall i :: 0 <= i < |cs| ==> cs[i] < |rows|
    requires i < |cs| && ref != "" && ReferenceOf(rows[cs[i]].note) == ref
    ensures !Detect(rows, ref, cs, judge).NotFound?
  {
    if i > 0 { FoundAt(rows, ref, cs[1..], judge, i - 1); }
  }

  lemma SharedIsFound(rows: seq<Row>, ref: string, cs: seq<nat>, judge: nat -> Judge)
    requires forall i :: 0 <= i < |cs| ==> cs[i] < |rows|
    requires SharesReference(rows, ref, cs)
    ensures !Detect(rows, ref, cs, judge).NotFound?
  {
    var i :| 0 <= i < |cs| && ref != "" && ReferenceOf(rows[cs[i]].note) == ref;
    FoundAt(rows, ref, cs, judge, i);
  }

  function NeverSame(c: nat): Judge { Verdict(false, 1.0) }

  lemma {:induction false} OthersAreLeft(rows: seq<Row>, ref: string, cs: seq<nat>)
    requires forall i :: 0 <= i < |cs| ==> cs[i] < |rows|
    requires !SharesReference(rows, ref, cs)
    ensures Detect(rows, ref, cs, NeverSame).NotFound?
  {
    if cs != [] {
      assert !(ref != "" && ReferenceOf(rows[cs[0]].note) == ref);
      forall i | 0 <= i < |cs[1..]| ensures !(ref != "" && ReferenceOf(rows[cs[1..][i]].note) == ref) {
        assert cs[1..][i] == cs[i + 1];
      }
      OthersAreLeft(rows, ref, cs[1..]);
    }
  }

  /** The judge has no say exactly when some candidate carries the same reference. */
  lemma ReferenceDecides(rows: seq<Row>, ref: string, cs: seq<nat>)
    requires forall i :: 0 <= i < |cs| ==> cs[i] < |rows|
    ensures (forall judge: nat -> Judge :: !Detect(rows, ref, cs, judge).NotFound?) <==> SharesReference(rows, ref, cs)
  {
    if SharesReference(rows, ref, cs) {
      forall judge: nat -> Judge ensures !Detect(rows, ref, cs, judge).NotFound? { SharedIsFound(rows, ref, cs, judge); }
    } else {
      OthersAreLeft(rows, ref, cs);
    }
  }

  /** Both emails carry a reference; then the judge is not asked. */
  predicate BothRefer(rows: seq<Row>, ref: string, c: nat)
    requires c < |rows|
  {
    ref != "" && ReferenceOf(rows[c].note) != ""
  }

  /** The search goes on to the next candidate: other references, or the judge is silent, says no, or is
      less than 0.8 sure. */
  predicate PassedOver(rows: seq<Row>, ref: string, c: nat, j: Judge)
    requires c < |rows|
  {
    if BothRefer(rows, ref, c) then ref != ReferenceOf(rows[c].note)
    else j.Silent? || (j.Verdict? && (!j.isDuplicate || j.confidence < 0.8))
  }

  /** The search comes to the candidate in place `i`. */
  ghost predicate ComesTo(rows: seq<Row>, ref: string, cs: seq<nat>, judge: nat -> Judge, i: nat)
    requires forall i :: 0 <= i < |cs| ==> cs[i] < |rows|
  {
    i <= |cs| && forall k :: 0 <= k < i ==> PassedOver(rows, ref, cs[k], judge(cs[k]))
  }

  /** And it ends there with `f`. */
  ghost predicate EndsAt(rows: seq<Row>, ref: string, c: nat, j: Judge, f: Found)
    requires c < |rows|
  {
    match f
    case ByReference(original) => original == c && BothRefer(rows, ref, c) && ReferenceOf(rows[c].note) == ref
    case ByJudge(original) =>
      original == c && !BothRefer(rows, ref, c) && j.Verdict? && j.isDuplicate && j.confidence >= 0.8
    case JudgeBroke => !BothRefer(rows, ref, c) && j.Broken?
    case NotFound => false
  }

  lemma {:induction false} FirstNotPassed(rows: seq<Row>, ref: string, cs: seq<nat>, judge: nat -> Judge)
    returns (n: nat)
    requires forall i :: 0 <= i < |cs| ==> cs[i] < |rows|
    ensures ComesTo(rows, ref, cs, judge, n)
    ensures n == |cs| ==> Detect(rows, ref, cs, judge).NotFound?
    ensures n < |cs| ==> !PassedOver(rows, ref, cs[n], judge(cs[n]))
                         && EndsAt(rows, ref, cs[n], judge(cs[n]), Detect(rows, ref, cs, judge))
  {
    n := 0;
    if cs != [] && PassedOver(rows, ref, cs[0], judge(cs[0])) {
      n := FirstNotPassed(rows, ref, cs[1..], judge);
      n := n + 1;
      forall k | 0 <= k < n ensures PassedOver(rows, ref, cs[k], judge(cs[k])) {
        if k > 0 { assert cs[k] == cs[1..][k - 1]; }
      }
    }
  }

  /** How the search ends, exactly: with nothing if every candidate is passed over; else at the first one
      that is not, by its reference, by the judge, or because asking the judge failed. */
  lemma DetectIff(rows: seq<Row>, ref: string, cs: seq<nat>, judge: nat -> Judge)
    requires forall i :: 0 <= i < |cs| ==> cs[i] < |rows|
    ensures Detect(rows, ref, cs, judge).NotFound? <==> ComesTo(rows, ref, cs, judge, |cs|)
    ensures forall f: Found :: !f.NotFound? ==>
              (Detect(rows, ref, cs, judge) == f <==>
               exists i :: 0 <= i < |cs| && ComesTo(rows, ref, cs, judge, i) && EndsAt(rows, ref, cs[i], judge(cs[i]), f))
  {
    var n := FirstNotPassed(rows, ref, cs, judge);
    forall f: Found, i | 0 <= i < |cs| && ComesTo(rows, ref, cs, judge, i) && !f.NotFound?
                         && EndsAt(rows, ref, cs[i], judge(cs[i]), f)
      ensures i == n && Detect(rows, ref, cs, judge) == f
    {
      EndIsNotPassed(rows, ref, cs[i], judge(cs[i]), f);
    }
  }

  lemma EndIsNotPassed(rows: seq<Row>, ref: string, c: nat, j: Judge, f: Found)
    requires c < |rows| && EndsAt(rows, ref, c, j, f)
    ensures !PassedOver(rows, ref, c, j)
    ensures forall g :: EndsAt(rows, ref, c, j, g) ==> g == f
  {
  }

  // ------------------------------------------------------------ how a run ends

  /** The email was read as a transaction: an expense or an income, a purchase, with a positive amount,
      by a parser that is at least 0.6 sure. */
  predicate ReadAsTransaction(o: Answers) {
    && o.parse.Some?
    && var p := o.parse.value;
       && !p.failed && p.kind.Some? && p.purchase && p.confidence >= 0.6
       && (p.amount.Number? || p.amount.FloatOnly?) && p.amount.value > 0.0
  }

  predicate ComesToSearch(s: State, id: nat, o: Answers)
    requires id < |s.rows|
  {
    s.rows[id].note.Raw? && !o.late && ReadAsTransaction(o) && o.canAdd && o.parse.value.amount.Number?
  }

  /** The search goes through all candidates. */
  ghost predicate FindsNone(rows: seq<Row>, ref: string, cs: seq<nat>, judge: nat -> Judge)
    requires forall i :: 0 <= i < |cs| ==> cs[i] < |rows|
  {
    ComesTo(rows, ref, cs, judge, |cs|)
  }

  /** The search ends at `cs[i]`, by its reference or by the judge. */
  ghost predicate FindsAt(rows: seq<Row>, ref: string, cs: seq<nat>, judge: nat -> Judge, i: nat)
    requires forall i :: 0 <= i < |cs| ==> cs[i] < |rows|
  {
    && i < |cs| && ComesTo(rows, ref, cs, judge, i)
    && (EndsAt(rows, ref, cs[i], judge(cs[i]), ByReference(cs[i]))
        || EndsAt(rows, ref, cs[i], judge(cs[i]), ByJudge(cs[i])))
  }

  ghost predicate FindsOne(rows: seq<Row>, ref: string, cs: seq<nat>, judge: nat -> Judge, c: nat)
    requires forall i :: 0 <= i < |cs| ==> cs[i] < |rows|
  {
    exists i :: 0 <= i < |cs| && cs[i] == c && FindsAt(rows, ref, cs, judge, i)
  }

  lemma FoundIff(rows: seq<Row>, ref: string, cs: seq<nat>, judge: nat -> Judge)
    requires forall i :: 0 <= i < |cs| ==> cs[i] < |rows|
    ensures var f := Detect(rows, ref, cs, judge);
            && (f.NotFound? <==> FindsNone(rows, ref, cs, judge))
            && forall c :: (f == ByReference(c) || f == ByJudge(c) <==> FindsOne(rows, ref, cs, judge, c))
  {
    var f := Detect(rows, ref, cs, judge);
    var n := FirstNotPassed(rows, ref, cs, judge);
    if n < |cs| { assert !FindsNone(rows, ref, cs, judge) && !f.NotFound?; }
    forall c ensures f == ByReference(c) || f == ByJudge(c) <==> FindsOne(rows, ref, cs, judge, c) {
      FoundAtFirst(rows, ref, cs, judge, n, f, c);
    }
  }

  /** The search finds `c` exactly if it stops at it, at place `n`. */
  lemma FoundAtFirst(rows: seq<Row>, ref: string, cs: seq<nat>, judge: nat -> Judge, n: nat, f: Found, c: nat)
    requires forall i :: 0 <= i < |cs| ==> cs[i] < |rows|
    requires ComesTo(rows, ref, cs, judge, n) && (n == |cs| ==> f.NotFound?)
    requires n < |cs| ==> !PassedOver(rows, ref, cs[n], judge(cs[n])) && EndsAt(rows, ref, cs[n], judge(cs[n]), f)
    ensures f == ByReference(c) || f == ByJudge(c) <==> FindsOne(rows, ref, cs, judge, c)
  {
    if f == ByReference(c) || f == ByJudge(c) { assert cs[n] == c && FindsAt(rows, ref, cs, judge, n); }
    if FindsOne(rows, ref, cs, judge, c) {
      var i :| 0 <= i < |cs| && cs[i] == c && FindsAt(rows, ref, cs, judge, i);
      StopsOnce(rows, ref, cs, judge, n, i, f);
    }
  }

  lemma StopsOnce(rows: seq<Row>, ref: string, cs: seq<nat>, judge: nat -> Judge, n: nat, i: nat, f: Found)
    requires forall i :: 0 <= i < |cs| ==> cs[i] < |rows|
    requires ComesTo(rows, ref, cs, judge, n) && i < |cs| && FindsAt(rows, ref, cs, judge, i)
    requires n < |cs| ==> !PassedOver(rows, ref, cs[n], judge(cs[n])) && EndsAt(rows, ref, cs[n], judge(cs[n]), f)
    ensures n == i && (f == ByReference(cs[i]) || f == ByJudge(cs[i]))
  {
    if EndsAt(rows, ref, cs[i], judge(cs[i]), ByReference(cs[i])) {
      EndIsNotPassed(rows, ref, cs[i], judge(cs[i]), ByReference(cs[i]));
    } else {
      EndIsNotPassed(rows, ref, cs[i], judge(cs[i]), ByJudge(cs[i]));
    }
  }

  /** Every ending of a run, exactly. A record is created only if the row stores an email, nothing fails,
      the email is a transaction, the user may add one, and every candidate is passed over. */
  lemma CreatesExactly(s: State, id: nat, o: Answers)
    requires id < |s.rows| && Answered(s, id, o)
    ensures Ends(s, id, o).Creates? <==>
              && ComesToSearch(s, id, o)
              && FindsNone(s.rows, Normalize(o.parse.value.reference), o.candidates, o.judge)
    ensures Ends(s, id, o).Creates? ==> Some(Ends(s, id, o).p) == o.parse
  {
    if ReadAsTransaction(o) { FoundIff(s.rows, Normalize(o.parse.value.reference), o.candidates, o.judge); }
  }

  /** The row is settled as a duplicate of `c`. */
  lemma DuplicateExactly(s: State, id: nat, o: Answers, c: nat)
    requires id < |s.rows| && Answered(s, id, o)
    ensures o.parse.Some? ==>
              (Ends(s, id, o) == Settles(Duplicate, DuplicateOf(o.parse.value, c)) <==>
                 && ComesToSearch(s, id, o)
                 && FindsOne(s.rows, Normalize(o.parse.value.reference), o.candidates, o.judge, c))
    ensures Ends(s, id, o).Settles? && Ends(s, id, o).status.Duplicate? ==>
              ComesToSearch(s, id, o) && exists d: nat :: Ends(s, id, o).note == DuplicateOf(o.parse.value, d)
  {
    if ReadAsTransaction(o) { FoundIff(s.rows, Normalize(o.parse.value.reference), o.candidates, o.judge); }
  }

  /** The other endings: what is no transaction is skipped, what cannot be read is an error. */
  lemma SettlesExactly(s: State, id: nat, o: Answers)
    requires id < |s.rows| && Answered(s, id, o)
    ensures var e, row := Ends(s, id, o), s.rows[id];
            && (e.Settles? && e.status.Skipped? <==>
                  row.note.Raw? && !o.late && o.parse.Some? && !(ReadAsTransaction(o) && o.canAdd))
            && (e.Settles? && e.status.Skipped? ==> e.note == Result(o.parse.value))
            && (e.Settles? && e.status.Error? <==> !row.note.Raw? || (!o.late && o.parse.None?))
            && (e.Settles? ==> e.status.Duplicate? || e.status.Skipped? || e.status.Error?)
  {
  }
}
