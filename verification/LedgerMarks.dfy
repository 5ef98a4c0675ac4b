/** The observed and committed marks of a lease against the numbers of its Run. */
module LedgerMarks {
  import opened Prelude
  import opened LedgerState
  import opened LedgerSequences
  import opened LedgerLeases

  ghost predicate MarksWithin(ledger: Ledger, run: RunId, bound: nat) {
    run in ledger.leases ==> ledger.leases[run].observed <= bound && ledger.leases[run].committed <= bound
  }

  /** Both marks are at or below the Run's last number. */
  ghost predicate MarkedAt(ledger: Ledger, run: RunId) {
    MarksWithin(ledger, run, LastSequence(ledger, run))
  }

  function CommittedOf(ledger: Ledger, run: RunId): nat {
    if run in ledger.leases then ledger.leases[run].committed else 0
  }

  predicate AdmitsUnder(op: Operation, run: RunId) {
    op.OpFencedAdmit? && op.token.run == run
  }

  /** A mark comes from the old lease, from the Run's last number before or after the
      step, or from the token of a fenced admission. */
  lemma StepMarks(ledger: Ledger, op: Operation, run: RunId, bound: nat)
    requires MarksWithin(ledger, run, bound) && (AdmitsUnder(op, run) ==> op.token.observed <= bound)
    requires LastSequence(ledger, run) <= bound && LastSequence(Step(ledger, op).0, run) <= bound
    ensures MarksWithin(Step(ledger, op).0, run, bound)
  {
    match op {
      case OpAdmit(target, admission, now) => AdmitLeases(ledger, target, admission, now);
      case OpFencedAdmit(token, now, admission) => AdmitLeases(ledger, token.run, admission, now);
      case _ =>
    }
  }

  lemma GrantMarks(ledger: Ledger, op: Operation, run: RunId, bound: nat)
    requires MarksWithin(ledger, run, bound) && LastSequence(ledger, run) <= bound
    ensures var token := Grants(ledger, op); token.Some? && token.value.run == run ==> token.value.observed <= bound
  {
  }

  // ----- tokens come from the ledger -----------------------------------------------------------

  /** Some acquisition or renewal of the run handed this token out. */
  ghost predicate Issued(ops: seq<Operation>, token: Token) {
    ops != [] && (Issued(Init(ops), token) || Grants(Run(NewLedger, Init(ops)), Last(ops)) == Some(token))
  }

  /** Fenced admissions to the Run use tokens that were handed out before. */
  ghost predicate UsesIssued(ops: seq<Operation>, run: RunId) {
    ops != [] ==> UsesIssued(Init(ops), run) && (AdmitsUnder(Last(ops), run) ==> Issued(Init(ops), Last(ops).token))
  }

  ghost predicate IssuedWithin(ops: seq<Operation>, run: RunId, bound: nat) {
    forall token :: Issued(ops, token) && token.run == run ==> token.observed <= bound
  }

  lemma NextIssued(ops: seq<Operation>, run: RunId, bound: nat)
    requires ops != [] && IssuedWithin(Init(ops), run, bound)
    requires MarksWithin(Run(NewLedger, Init(ops)), run, bound) && LastSequence(Run(NewLedger, Init(ops)), run) <= bound
    ensures IssuedWithin(ops, run, bound)
  {
    GrantMarks(Run(NewLedger, Init(ops)), Last(ops), run, bound);
  }

  // ----- without deletion --------------------------------------------------------------------------

  predicate Deletes(op: Operation, run: RunId) {
    op.OpDelete? && op.run == run
  }

  lemma LastNeverFalls(ledger: Ledger, op: Operation, run: RunId)
    requires Sequenced(ledger) && BelowLimit(ledger, op) && !Deletes(op, run)
    ensures LastSequence(ledger, run) <= LastSequence(Step(ledger, op).0, run)
  {
    StepRecords(ledger, op, run);
    var b, a := RecordsFor(ledger, run), RecordsFor(Step(ledger, op).0, run);
    assert b != [] ==> Has(ledger, run, Last(b));
    assert |a| == |b| ==> a == b;
  }

  lemma CommittedNeverFalls(ledger: Ledger, op: Operation, run: RunId)
    requires MarkedAt(ledger, run)
    ensures CommittedOf(ledger, run) <= CommittedOf(Step(ledger, op).0, run)
  {
    match op {
      case OpAdmit(target, admission, now) => AdmitLeases(ledger, target, admission, now);
      case OpFencedAdmit(token, now, admission) => AdmitLeases(ledger, token.run, admission, now);
      case _ =>
    }
  }

  ghost predicate NeverDeleted(ops: seq<Operation>, run: RunId) {
    forall op :: op in ops ==> !Deletes(op, run)
  }

  lemma {:induction false} MarksAndTokens(ops: seq<Operation>, run: RunId)
    requires RunBelowLimit(NewLedger, ops) && UsesIssued(ops, run) && NeverDeleted(ops, run)
    ensures MarkedAt(Run(NewLedger, ops), run)
    ensures IssuedWithin(ops, run, LastSequence(Run(NewLedger, ops), run))
  {
    if ops != [] {
      InitLast(ops);
      assert forall op :: op in Init(ops) ==> op in ops;
      BelowLimitInit(NewLedger, ops);
      MarksAndTokens(Init(ops), run);
      RunsKeepSequences(NewLedger, Init(ops));
      var before, after := Run(NewLedger, Init(ops)), Run(NewLedger, ops);
      LastNeverFalls(before, Last(ops), run);
      NextIssued(ops, run, LastSequence(after, run));
      StepMarks(before, Last(ops), run, LastSequence(after, run));
    }
  }

  /** Marks grow: the committed mark and the last number of an earlier point. */
  lemma {:induction false} MarksGrow(ops: seq<Operation>, run: RunId, k: nat)
    requires RunBelowLimit(NewLedger, ops) && UsesIssued(ops, run) && NeverDeleted(ops, run) && k <= |ops|
    ensures CommittedOf(Run(NewLedger, ops[..k]), run) <= CommittedOf(Run(NewLedger, ops), run)
    ensures LastSequence(Run(NewLedger, ops[..k]), run) <= LastSequence(Run(NewLedger, ops), run)
  {
    if k == |ops| {
      assert ops[..k] == ops;
    } else {
      InitLast(ops);
      assert Init(ops)[..k] == ops[..k];
      assert forall op :: op in Init(ops) ==> op in ops;
      BelowLimitInit(NewLedger, ops);
      MarksGrow(Init(ops), run, k);
      MarksAndTokens(Init(ops), run);
      RunsKeepSequences(NewLedger, Init(ops));
      LastNeverFalls(Run(NewLedger, Init(ops)), Last(ops), run);
      CommittedNeverFalls(Run(NewLedger, Init(ops)), Last(ops), run);
    }
  }

  /** Along any run that does not delete the Run and admits only under tokens it was
      given, both marks stay at or below the last number, and the committed mark never
      decreases. */
  lemma MarksNeverOvertake(ops: seq<Operation>, run: RunId)
    requires RunBelowLimit(NewLedger, ops) && UsesIssued(ops, run) && NeverDeleted(ops, run)
    ensures MarkedAt(Run(NewLedger, ops), run)
    ensures forall k :: 0 <= k <= |ops| ==>
                          && CommittedOf(Run(NewLedger, ops[..k]), run) <= CommittedOf(Run(NewLedger, ops), run)
                          && LastSequence(Run(NewLedger, ops[..k]), run) <= LastSequence(Run(NewLedger, ops), run)
  {
    MarksAndTokens(ops, run);
    forall k | 0 <= k <= |ops|
      ensures CommittedOf(Run(NewLedger, ops[..k]), run) <= CommittedOf(Run(NewLedger, ops), run)
      ensures LastSequence(Run(NewLedger, ops[..k]), run) <= LastSequence(Run(NewLedger, ops), run)
    {
      MarksGrow(ops, run, k);
    }
  }

  // ----- with deletion -------------------------------------------------------------------------------

  /** The last number while the Run has records, and the ledger's counter while not. */
  function Ceiling(ledger: Ledger, run: RunId): nat {
    if RecordsFor(ledger, run) == [] then ledger.next else LastSequence(ledger, run)
  }

  lemma CeilingNeverFalls(ledger: Ledger, op: Operation, run: RunId)
    requires Sequenced(ledger) && BelowLimit(ledger, op)
    ensures Ceiling(ledger, run) <= Ceiling(Step(ledger, op).0, run)
    ensures LastSequence(ledger, run) <= Ceiling(ledger, run)
  {
    StepRecords(ledger, op, run);
    var b, a := RecordsFor(ledger, run), RecordsFor(Step(ledger, op).0, run);
    assert b != [] ==> Has(ledger, run, Last(b));
    assert !Deletes(op, run) && |a| == |b| ==> a == b;
  }

  lemma {:induction false} MarksBelowCeiling(ops: seq<Operation>, run: RunId)
    requires RunBelowLimit(NewLedger, ops) && UsesIssued(ops, run)
    ensures MarksWithin(Run(NewLedger, ops), run, Ceiling(Run(NewLedger, ops), run))
    ensures IssuedWithin(ops, run, Ceiling(Run(NewLedger, ops), run))
  {
    if ops != [] {
      BelowLimitInit(NewLedger, ops);
      MarksBelowCeiling(Init(ops), run);
      RunsKeepSequences(NewLedger, Init(ops));
      RunsKeepSequences(NewLedger, ops);
      var before, after := Run(NewLedger, Init(ops)), Run(NewLedger, ops);
      CeilingNeverFalls(before, Last(ops), run);
      LastBelowCeiling(after, run);
      NextIssued(ops, run, Ceiling(after, run));
      StepMarks(before, Last(ops), run, Ceiling(after, run));
    }
  }

  lemma LastBelowCeiling(ledger: Ledger, run: RunId)
    ensures LastSequence(ledger, run) <= Ceiling(ledger, run)
  {
  }

  /** Along any run, deletions included, a mark is above the last number exactly while
      the Run has no records and the mark is not zero: deletion keeps the lease, and the
      next record of the Run covers its marks again. */
  lemma MarksOvertakeExactly(ops: seq<Operation>, run: RunId)
    requires RunBelowLimit(NewLedger, ops) && UsesIssued(ops, run)
    ensures var ledger := Run(NewLedger, ops);
            MarkedAt(ledger, run) <==> RecordsFor(ledger, run) != [] || MarksWithin(ledger, run, 0)
  {
    MarksBelowCeiling(ops, run);
  }
}
