/** Workflow mutation leases over whole runs: epochs fence old holders out, an
    unexpired lease excludes other owners, a restore commit detects every race, and
    the high-water marks never overtake the Run. */
module LedgerLeases {
  import opened Prelude
  import opened LedgerState
  import opened LedgerSequences

  function EpochOf(ledger: Ledger, run: RunId): nat {
    if run in ledger.leases then ledger.leases[run].epoch else 0
  }

  function OwnerOf(ledger: Ledger, run: RunId): Option<string> {
    if run in ledger.leases then ledger.leases[run].owner else None
  }

  predicate UsesToken(op: Operation) {
    op.OpFencedAppend? || op.OpFencedCompare? || op.OpFencedAdmit? || op.OpRenew? || op.OpCommitRestore? || op.OpRelease?
  }

  lemma AdmitLeases(ledger: Ledger, run: RunId, a: Admission, now: int)
    ensures Admit(ledger, run, a, now).0.leases == ledger.leases
  {
    if Plan(ledger, run, a).Ok? {
      StoreAllLeases(ledger, run, Plan(ledger, run, a).value, now);
    }
  }

  /** Only a successful acquisition moves a Run's epoch, by exactly one; otherwise the
      owner stays, or becomes nobody. */
  lemma StepEpoch(ledger: Ledger, op: Operation, run: RunId)
    ensures var after := Step(ledger, op).0;
            if op.OpAcquire? && op.run == run && Step(ledger, op).1.None? then
              EpochOf(after, run) == EpochOf(ledger, run) + 1 && OwnerOf(after, run) == Some(op.owner)
            else
              && EpochOf(after, run) == EpochOf(ledger, run)
              && (OwnerOf(after, run) == OwnerOf(ledger, run) || OwnerOf(after, run).None?)
  {
    match op {
      case OpAdmit(target, admission, now) => AdmitLeases(ledger, target, admission, now);
      case OpFencedAdmit(token, now, admission) => AdmitLeases(ledger, token.run, admission, now);
      case _ =>
    }
  }

  /** A token that can no longer become current. */
  predicate Dead(ledger: Ledger, token: Token) {
    || EpochOf(ledger, token.run) > token.epoch
    || (EpochOf(ledger, token.run) == token.epoch && OwnerOf(ledger, token.run) != Some(token.owner))
  }

  lemma DeadAfterStep(ledger: Ledger, op: Operation, token: Token)
    requires Dead(ledger, token)
    ensures Dead(Step(ledger, op).0, token)
  {
    StepEpoch(ledger, op, token.run);
  }

  lemma {:induction false} DeadForever(ledger: Ledger, ops: seq<Operation>, token: Token)
    requires Dead(ledger, token)
    ensures Dead(Run(ledger, ops), token)
  {
    if ops != [] {
      DeadForever(ledger, Init(ops), token);
      DeadAfterStep(Run(ledger, Init(ops)), Last(ops), token);
    }
  }

  lemma DeadTokenFails(ledger: Ledger, op: Operation)
    requires UsesToken(op) && Dead(ledger, op.token)
    ensures Step(ledger, op).0 == ledger && Step(ledger, op).1.Some?
  {
  }

  lemma {:induction false} EpochsNeverFall(ledger: Ledger, ops: seq<Operation>, run: RunId)
    ensures EpochOf(Run(ledger, ops), run) >= EpochOf(ledger, run)
  {
    if ops != [] {
      EpochsNeverFall(ledger, Init(ops), run);
      StepEpoch(Run(ledger, Init(ops)), Last(ops), run);
    }
  }

  /** The token an operation hands out. */
  function Grants(ledger: Ledger, op: Operation): Option<Token> {
    match op
    case OpAcquire(run, owner, now) =>
      var answer := Acquire(ledger, run, owner, now).1;
      if answer.Ok? then Some(answer.value) else None
    case OpRenew(token, now) =>
      var answer := Renew(ledger, token, now).1;
      if answer.Ok? then Some(answer.value) else None
    case _ => None
  }

  /** The j-th operation acquired a lease and was given this token. */
  ghost predicate AcquiredAt(ledger: Ledger, ops: seq<Operation>, j: nat, token: Token) {
    j < |ops| && ops[j].OpAcquire? && Grants(Run(ledger, ops[..j]), ops[j]) == Some(token)
  }

  lemma RunSplits(ledger: Ledger, ops: seq<Operation>, k: nat)
    requires k <= |ops|
    ensures Run(ledger, ops) == Run(Run(ledger, ops[..k]), ops[k..])
  {
    if k == |ops| {
      assert ops[..k] == ops && ops[k..] == [];
    } else {
      RunSplits(ledger, Init(ops), k);
      assert Init(ops)[..k] == ops[..k] && Init(ops)[k..] == Init(ops[k..]);
    }
  }

  /** Epochs strictly increase: of two acquisitions of a Run the later one has the larger
      epoch, whatever was renewed, released, expired or deleted in between. */
  lemma EpochsIncrease(ledger: Ledger, ops: seq<Operation>, j: nat, k: nat, a: Token, b: Token)
    requires j < k && AcquiredAt(ledger, ops, j, a) && AcquiredAt(ledger, ops, k, b) && a.run == b.run
    ensures a.epoch < b.epoch
  {
    AcquiredEpoch(ledger, ops, j, a);
    AcquiredEpoch(ledger, ops, k, b);
    RunSplits(ledger, ops[..k], j + 1);
    assert ops[..k][..j + 1] == ops[..j + 1];
    EpochsNeverFall(Run(ledger, ops[..j + 1]), ops[..k][j + 1..], a.run);
  }

  lemma AcquiredEpoch(ledger: Ledger, ops: seq<Operation>, j: nat, token: Token)
    requires AcquiredAt(ledger, ops, j, token)
    ensures EpochOf(Run(ledger, ops[..j]), token.run) + 1 == token.epoch == EpochOf(Run(ledger, ops[..j + 1]), token.run)
  {
    RunNext(ledger, ops, j);
    GrantEpoch(Run(ledger, ops[..j]), ops[j], token);
  }

  lemma RunNext(ledger: Ledger, ops: seq<Operation>, j: nat)
    requires j < |ops|
    ensures Run(ledger, ops[..j + 1]) == Step(Run(ledger, ops[..j]), ops[j]).0
  {
    assert ops[..j + 1] == ops[..j] + [ops[j]];
    InitOfAppend(ops[..j], ops[j]);
  }

  lemma GrantEpoch(ledger: Ledger, op: Operation, token: Token)
    requires op.OpAcquire? && Grants(ledger, op) == Some(token)
    ensures EpochOf(ledger, token.run) + 1 == token.epoch == EpochOf(Step(ledger, op).0, token.run)
  {
  }

  /** So no epoch of a Run is ever handed out twice. */
  lemma NoEpochTwice(ledger: Ledger, ops: seq<Operation>, j: nat, k: nat, a: Token, b: Token)
    requires AcquiredAt(ledger, ops, j, a) && AcquiredAt(ledger, ops, k, b) && a.run == b.run && a.epoch == b.epoch
    ensures j == k && a == b
  {
    if j < k {
      EpochsIncrease(ledger, ops, j, k, a, b);
    } else if k < j {
      EpochsIncrease(ledger, ops, k, j, b, a);
    }
  }

  /** Once anyone has acquired the lease again, a token issued before can do nothing,
      at any later time: every operation with it fails and changes nothing. */
  lemma NewerEpochFencesOut(ledger: Ledger, owner: string, now: int, between: seq<Operation>, other: string, later: int,
                            after: seq<Operation>, op: Operation, token: Token)
    requires Acquire(ledger, token.run, owner, now).1 == Ok(token)
    requires UsesToken(op) && op.token.run == token.run && op.token.epoch == token.epoch
    requires var second := Run(Acquire(ledger, token.run, owner, now).0, between);
             Acquire(second, token.run, other, later).1.Ok?
    ensures var second := Run(Acquire(ledger, token.run, owner, now).0, between);
            var final := Run(Acquire(second, token.run, other, later).0, after);
            Step(final, op).0 == final && Step(final, op).1.Some?
  {
    var first := Acquire(ledger, token.run, owner, now).0;
    EpochsNeverFall(first, between, token.run);
    var third := Acquire(Run(first, between), token.run, other, later).0;
    DeadForever(third, after, op.token);
    DeadTokenFails(Run(third, after), op);
  }

  /** Once released, a token can do nothing at any later time. */
  lemma ReleaseFencesOut(ledger: Ledger, token: Token, after: seq<Operation>, op: Operation)
    requires Release(ledger, token).1.None?
    requires UsesToken(op) && op.token.run == token.run && op.token.epoch == token.epoch
    ensures var final := Run(Release(ledger, token).0, after);
            Step(final, op).0 == final && Step(final, op).1.Some?
  {
    var released := Release(ledger, token).0;
    DeadForever(released, after, op.token);
    DeadTokenFails(Run(released, after), op);
  }

  /** The token of the last successful acquisition of a Run. */
  function LastGrant(ops: seq<Operation>, run: RunId): Option<Token> {
    if ops == [] then None
    else
      var granted := Grants(Run(NewLedger, Init(ops)), Last(ops));
      if Last(ops).OpAcquire? && Last(ops).run == run && granted.Some? then granted else LastGrant(Init(ops), run)
  }

  lemma {:induction false} LeaseIsLastGrant(ops: seq<Operation>, run: RunId)
    ensures var ledger, grant := Run(NewLedger, ops), LastGrant(ops, run);
            if grant.None? then EpochOf(ledger, run) == 0 && OwnerOf(ledger, run).None?
            else && grant.value.run == run && EpochOf(ledger, run) == grant.value.epoch
                 && OwnerOf(ledger, run) in [None, Some(grant.value.owner)]
  {
    if ops != [] {
      LeaseIsLastGrant(Init(ops), run);
      StepEpoch(Run(NewLedger, Init(ops)), Last(ops), run);
    }
  }

  /** At any point of any run, a token passes the fence of a Run only if it names the
      owner and the epoch of the Run's last successful acquisition and the lease has not
      expired; so at most one owner and epoch is ever valid at a time. */
  lemma OneTokenAtATime(ops: seq<Operation>, token: Token, now: int)
    requires CurrentError(Run(NewLedger, ops), token, now).None?
    ensures var grant := LastGrant(ops, token.run);
            grant.Some? && grant.value.owner == token.owner && grant.value.epoch == token.epoch
    ensures var ledger := Run(NewLedger, ops);
            token.run in ledger.leases && ledger.leases[token.run].heartbeat <= now < ledger.leases[token.run].expires
  {
    LeaseIsLastGrant(ops, token.run);
  }

  // ----- an unexpired lease excludes other owners ---------------------------------------------

  predicate HeldBy(ledger: Ledger, run: RunId, owner: string) {
    OwnerOf(ledger, run) == Some(owner)
  }

  predicate Rival(op: Operation, run: RunId, owner: string) {
    op.OpAcquire? && op.run == run && op.owner != owner
  }

  /** A rival comes before the expiry stored at that time, and a release does not name
      the current epoch of the holder. */
  predicate NoHandover(ledger: Ledger, op: Operation, run: RunId, owner: string) {
    && (op.OpRelease? && op.token.run == run ==> op.token.owner != owner || op.token.epoch != EpochOf(ledger, run))
    && (Rival(op, run, owner) && run in ledger.leases ==> op.now < ledger.leases[run].expires)
  }

  lemma HeldAfterStep(ledger: Ledger, op: Operation, run: RunId, owner: string)
    requires HeldBy(ledger, run, owner) && NoHandover(ledger, op, run, owner)
    ensures HeldBy(Step(ledger, op).0, run, owner)
    ensures Rival(op, run, owner) ==> Step(ledger, op).0 == ledger && Step(ledger, op).1.Some?
  {
    match op {
      case OpAdmit(target, admission, now) => AdmitLeases(ledger, target, admission, now);
      case OpFencedAdmit(token, now, admission) => AdmitLeases(ledger, token.run, admission, now);
      case _ =>
    }
  }

  ghost predicate NeverHandedOver(ledger: Ledger, ops: seq<Operation>, run: RunId, owner: string) {
    ops != [] ==>
      && NeverHandedOver(ledger, Init(ops), run, owner)
      && NoHandover(Run(ledger, Init(ops)), Last(ops), run, owner)
  }

  /** The owner holds the lease at every point, and every rival is refused without effect. */
  ghost predicate HeldThroughout(ledger: Ledger, ops: seq<Operation>, run: RunId, owner: string) {
    && HeldBy(Run(ledger, ops), run, owner)
    && (ops != [] ==>
          && HeldThroughout(ledger, Init(ops), run, owner)
          && (Rival(Last(ops), run, owner) ==>
                Run(ledger, ops) == Run(ledger, Init(ops)) && Step(Run(ledger, Init(ops)), Last(ops)).1.Some?))
  }

  /** From an acquisition on, as long as every rival comes before the expiry stored at
      that time and the holder does not release the lease, every rival is refused. */
  lemma {:induction false} UnexpiredLeaseExcludes(ledger: Ledger, run: RunId, owner: string, since: int,
                                                  ops: seq<Operation>)
    requires Acquire(ledger, run, owner, since).1.Ok?
    requires NeverHandedOver(Acquire(ledger, run, owner, since).0, ops, run, owner)
    ensures HeldThroughout(Acquire(ledger, run, owner, since).0, ops, run, owner)
  {
    if ops != [] {
      UnexpiredLeaseExcludes(ledger, run, owner, since, Init(ops));
      HeldAfterStep(Run(Acquire(ledger, run, owner, since).0, Init(ops)), Last(ops), run, owner);
    }
  }

  // ----- restore commits detect every race ------------------------------------------------------

  lemma {:induction false} StoreAllRecords(ledger: Ledger, target: RunId, pending: seq<Extra>, now: int, run: RunId)
    ensures var before, after := RecordsFor(ledger, run), RecordsFor(StoreAll(ledger, target, pending, now), run);
            && before <= after
            && |after| == |before| + (if run == target then |pending| else 0)
            && forall k :: |before| <= k < |after| ==> after[k].number > ledger.next
    ensures StoreAll(ledger, target, pending, now).next >= ledger.next
  {
    if pending != [] {
      StoreAllRecords(ledger, target, Init(pending), now, run);
    }
  }

  lemma StepRecords(ledger: Ledger, op: Operation, run: RunId)
    requires BelowLimit(ledger, op)
    ensures var before, after := RecordsFor(ledger, run), RecordsFor(Step(ledger, op).0, run);
            if op.OpDelete? && op.run == run then after == []
            else
              && before <= after
              && |after| == |before| + (if run == Target(op) then |Written(ledger, op)| else 0)
              && forall k :: |before| <= k < |after| ==> after[k].number > ledger.next
    ensures Step(ledger, op).0.next >= ledger.next
  {
    if !op.OpDelete? {
      StepStores(ledger, op);
      StoreAllRecords(ledger, Target(op), Written(ledger, op), Timestamp(op), run);
    }
  }

  /** A Run's records are either still a prefix of what is stored now, or were all
      deleted, and what is stored now is newer. */
  ghost predicate PrefixOrNewer(ledger: Ledger, after: Ledger, run: RunId) {
    || RecordsFor(ledger, run) <= RecordsFor(after, run)
    || forall r :: r in RecordsFor(after, run) ==> r.number > ledger.next
  }

  lemma {:induction false} RunRecords(ledger: Ledger, ops: seq<Operation>, run: RunId)
    requires RunBelowLimit(ledger, ops)
    ensures PrefixOrNewer(ledger, Run(ledger, ops), run) && Run(ledger, ops).next >= ledger.next
  {
    if ops != [] {
      BelowLimitInit(ledger, ops);
      RunRecords(ledger, Init(ops), run);
      var before := Run(ledger, Init(ops));
      StepRecords(before, Last(ops), run);
      var b, a := RecordsFor(before, run), RecordsFor(Run(ledger, ops), run);
      if b <= a {
        forall r | r in a ensures r in b || r.number > ledger.next {
          var k :| 0 <= k < |a| && a[k] == r;
          assert k < |b| ==> r == b[k];
        }
      }
    }
  }

  /** A restore that read the last sequence number and later commits it is told
      `Current` exactly when the Run's records are the ones it read. */
  lemma RestoreCommitDetectsEveryRace(ledger: Ledger, ops: seq<Operation>, token: Token, now: int)
    requires Sequenced(ledger) && RunBelowLimit(ledger, ops)
    requires CurrentError(Run(ledger, ops), token, now).None?
    ensures var answer := CommitRestore(Run(ledger, ops), token, LastSequence(ledger, token.run), now).1;
            answer.Ok? && (answer.value == Current <==>
                           RecordsFor(Run(ledger, ops), token.run) == RecordsFor(ledger, token.run))
  {
    var final, run := Run(ledger, ops), token.run;
    RunRecords(ledger, ops, run);
    RunsKeepSequences(ledger, ops);
    var old_, new_ := RecordsFor(ledger, run), RecordsFor(final, run);
    assert Ordered(new_) && Ordered(old_);
    assert old_ != [] ==> Has(ledger, run, Last(old_));
    assert new_ != [] ==> Has(final, run, Last(new_));
    if LastNumber(new_) == LastNumber(old_) {
      if old_ == [] {
        assert new_ == [];
      } else {
        assert Last(new_).number <= ledger.next;
        assert old_ <= new_;
        assert new_[|old_| - 1] == Last(old_);
      }
    }
  }

  /** No operation of the run stores anything under this Run. */
  ghost predicate NothingWritten(ledger: Ledger, ops: seq<Operation>, run: RunId) {
    ops != [] ==>
      && NothingWritten(ledger, Init(ops), run)
      && (Target(Last(ops)) == run ==> Written(Run(ledger, Init(ops)), Last(ops)) == [])
  }

  lemma {:induction false} RecordsGrow(ledger: Ledger, ops: seq<Operation>, run: RunId)
    requires RunBelowLimit(ledger, ops)
    requires forall op :: op in ops ==> !(op.OpDelete? && op.run == run)
    ensures RecordsFor(ledger, run) <= RecordsFor(Run(ledger, ops), run)
    ensures RecordsFor(ledger, run) == RecordsFor(Run(ledger, ops), run) <==> NothingWritten(ledger, ops, run)
  {
    if ops != [] {
      InitLast(ops);
      assert forall op :: op in Init(ops) ==> op in ops;
      BelowLimitInit(ledger, ops);
      RecordsGrow(ledger, Init(ops), run);
      assert Last(ops) in ops;
      StepRecords(Run(ledger, Init(ops)), Last(ops), run);
    }
  }

  /** Without deletion, `Current` means that no operation in between stored anything
      under the Run, fenced or not. */
  lemma CurrentMeansNothingWritten(ledger: Ledger, ops: seq<Operation>, token: Token, now: int)
    requires Sequenced(ledger) && RunBelowLimit(ledger, ops)
    requires forall op :: op in ops ==> !(op.OpDelete? && op.run == token.run)
    requires CurrentError(Run(ledger, ops), token, now).None?
    ensures CommitRestore(Run(ledger, ops), token, LastSequence(ledger, token.run), now).1 == Ok(Current) <==>
            NothingWritten(ledger, ops, token.run)
  {
    RestoreCommitDetectsEveryRace(ledger, ops, token, now);
    RecordsGrow(ledger, ops, token.run);
  }
}
