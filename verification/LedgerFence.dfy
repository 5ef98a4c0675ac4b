/** The fence of a lease in terms of the stored lease: which uses of a token pass it,
    what a lease looks like after each operation, and that an expired token is of no use. */
module LedgerFence {
  import opened Prelude
  import opened LedgerState
  import opened LedgerSequences
  import opened LedgerLeases

  /** Operations that a lease must be current for. */
  predicate Fenced(op: Operation) {
    op.OpFencedAppend? || op.OpFencedCompare? || op.OpFencedAdmit? || op.OpRenew? || op.OpCommitRestore?
  }

  /** A lease is stored, its owner and epoch are the token's, and its last heartbeat is not
      in the future and its expiry not in the past. */
  predicate Valid(ledger: Ledger, token: Token, now: int) {
    && token.run in ledger.leases
    && var lease := ledger.leases[token.run];
       lease.owner == Some(token.owner) && lease.epoch == token.epoch && lease.heartbeat <= now < lease.expires
  }

  /** Without a valid lease a fenced operation fails and changes nothing. */
  lemma InvalidFails(ledger: Ledger, op: Operation)
    requires Fenced(op) && !Valid(ledger, op.token, op.now)
    ensures Step(ledger, op).0 == ledger && Step(ledger, op).1.Some?
  {
    assert CurrentError(ledger, op.token, op.now).Some?;
  }

  /** In particular once the stored lease has expired, at whatever time and by whatever token. */
  lemma ExpiredFails(ledger: Ledger, op: Operation)
    requires Fenced(op) && op.token.run in ledger.leases && ledger.leases[op.token.run].expires <= op.now
    ensures Step(ledger, op).0 == ledger && Step(ledger, op).1.Some?
  {
    InvalidFails(ledger, op);
  }

  predicate ClockRanBack(ledger: Ledger, run: RunId, now: int) {
    run in ledger.leases && now < ledger.leases[run].heartbeat
  }

  /** Why a fenced operation is refused: a clock that ran back, or a lease that is lost. */
  lemma RefusalReason(ledger: Ledger, token: Token, now: int)
    requires !Valid(ledger, token, now)
    ensures Renew(ledger, token, now) ==
            (ledger, Err(if ClockRanBack(ledger, token.run, now) then ClockRollback else LeaseLost))
  {
  }

  /** The lease a holder has after a heartbeat: ninety seconds, short of the largest time. */
  predicate Extended(lease: StoredLease, now: int) {
    && lease.heartbeat == now
    && lease.expires == if now + 90_000 <= 0x7FFF_FFFF_FFFF_FFFF then now + 90_000 else 0x7FFF_FFFF_FFFF_FFFF
  }

  /** Only the lease of this Run changed, to this one. */
  predicate LeaseSet(before: Ledger, after: Ledger, run: RunId, lease: StoredLease) {
    after == before.(leases := before.leases[run := lease])
  }

  /** A renewal succeeds exactly under a valid lease; it moves heartbeat and expiry and
      hands out a token with that expiry and the observed mark of the lease. */
  lemma RenewsExactly(ledger: Ledger, token: Token, now: int)
    ensures Renew(ledger, token, now).1.Ok? <==> Valid(ledger, token, now)
    ensures Valid(ledger, token, now) ==>
              var (after, answer) := Renew(ledger, token, now);
              var old_, new_ := ledger.leases[token.run], after.leases[token.run];
              && Extended(new_, now) && LeaseSet(ledger, after, token.run, new_)
              && new_.owner == old_.owner && new_.epoch == old_.epoch
              && new_.observed == old_.observed && new_.committed == old_.committed
              && answer == Ok(Token(token.run, token.owner, token.epoch, new_.expires, old_.observed))
  {
  }

  /** An acquisition succeeds exactly for a named owner where no other owner holds an
      unexpired lease, the clock did not run back and an epoch is left. */
  lemma AcquiresExactly(ledger: Ledger, run: RunId, owner: string, now: int)
    ensures Acquire(ledger, run, owner, now).1.Ok? <==>
            owner != "" &&
            (run in ledger.leases ==>
               var lease := ledger.leases[run];
               && (lease.owner == None || lease.owner == Some(owner) || lease.expires <= now)
               && lease.heartbeat <= now && lease.epoch < U64_MAX)
    ensures Acquire(ledger, run, owner, now).1.Err? ==> Acquire(ledger, run, owner, now).0 == ledger
    ensures Acquire(ledger, run, owner, now).1.Ok? ==>
              var (after, answer) := Acquire(ledger, run, owner, now);
              var lease, epoch := after.leases[run], EpochOf(ledger, run) + 1;
              && Extended(lease, now) && LeaseSet(ledger, after, run, lease)
              && lease.owner == Some(owner) && lease.epoch == epoch
              && lease.observed == LastSequence(ledger, run)
              && (run in ledger.leases ==> lease.committed == ledger.leases[run].committed)
              && (run !in ledger.leases ==> lease.committed == 0)
              && answer == Ok(Token(run, owner, epoch, lease.expires, LastSequence(ledger, run)))
  {
  }

  /** A restore commit under a valid lease extends it and observes the Run's last number;
      it commits the expected number exactly when that is the last one. */
  lemma CommitsExactly(ledger: Ledger, token: Token, expected: nat, now: int)
    ensures CommitRestore(ledger, token, expected, now).1.Ok? <==> Valid(ledger, token, now)
    ensures Valid(ledger, token, now) ==>
              var (after, answer) := CommitRestore(ledger, token, expected, now);
              var old_, new_, last := ledger.leases[token.run], after.leases[token.run], LastSequence(ledger, token.run);
              && Extended(new_, now) && LeaseSet(ledger, after, token.run, new_)
              && new_.owner == old_.owner && new_.epoch == old_.epoch && new_.observed == last
              && new_.committed == (if last == expected then expected else old_.committed)
              && answer == Ok(if last == expected then Current else Stale(last))
  {
  }

  /** A release needs owner and epoch only, also after the expiry; it leaves the epoch and
      the marks and nobody as the owner. */
  lemma ReleasesExactly(ledger: Ledger, token: Token)
    ensures Release(ledger, token).1.None? <==>
            token.run in ledger.leases && ledger.leases[token.run].owner == Some(token.owner) &&
            ledger.leases[token.run].epoch == token.epoch
    ensures Release(ledger, token).1.Some? ==> Release(ledger, token) == (ledger, Some(LeaseLost))
    ensures Release(ledger, token).1.None? ==>
              var old_, after := ledger.leases[token.run], Release(ledger, token).0;
              LeaseSet(ledger, after, token.run, StoredLease(None, old_.epoch, 0, 0, old_.observed, old_.committed))
  {
  }

  /** A fenced append stores its record exactly for a durable record under a valid lease
      with a number left, and observes that number. */
  lemma FencedAppendsExactly(ledger: Ledger, token: Token, now: int, durability: Durability, recordType: string,
                             payload: Payload)
    ensures var (after, answer) := FencedAppend(ledger, token, now, durability, recordType, payload);
            && (answer.Ok? <==> durability != Ephemeral && Valid(ledger, token, now) && ledger.next < U64_MAX)
            && (answer.Err? ==> after == ledger)
            && (answer.Ok? ==>
                  var record := LedgerRecord(ledger.next + 1, token.run, now, durability, recordType, payload);
                  && answer == Ok(record) && RecordsFor(after, token.run) == RecordsFor(ledger, token.run) + [record]
                  && after.leases == ledger.leases[token.run := ledger.leases[token.run].(observed := record.number)])
  {
  }

  /** A fenced compare-and-append or admission does under a valid lease what the unfenced
      one does, and then observes the Run's last number; an admission extends the lease. */
  lemma FencedOthersExactly(ledger: Ledger, token: Token, now: int, durability: Durability, recordType: string,
                            fields: seq<string>, payload: Payload, wallClock: int, a: Admission)
    requires Valid(ledger, token, now)
    ensures var (after, answer) := FencedCompareAndAppend(ledger, token, now, durability, recordType, fields, payload, wallClock);
            var (plain, same) := CompareAndAppend(ledger, token.run, durability, recordType, fields, payload, wallClock);
            answer == same && after.records == plain.records && after.next == plain.next &&
            (answer.Ok? ==> after.leases == ledger.leases[token.run :=
                              ledger.leases[token.run].(observed := LastSequence(plain, token.run))])
    ensures var (after, answer) := FencedAdmit(ledger, token, now, a);
            var (plain, same) := Admit(ledger, token.run, a, now);
            answer == same && after.records == plain.records && after.next == plain.next &&
            (answer.Ok? ==>
               var was, is_ := ledger.leases[token.run], after.leases[token.run];
               && after.leases == ledger.leases[token.run := is_]
               && Extended(is_, now) && is_.owner == was.owner && is_.epoch == was.epoch && is_.committed == was.committed
               && is_.observed == if RecordsFor(plain, token.run) == [] then token.observed else LastSequence(plain, token.run))
  {
    AdmitLeases(ledger, token.run, a, now);
  }

  // ----- over runs --------------------------------------------------------------------------------

  /** An operation that may give the Run's lease a new expiry. */
  predicate Prolongs(op: Operation, run: RunId) {
    || (op.OpAcquire? && op.run == run)
    || ((op.OpRenew? || op.OpCommitRestore? || op.OpFencedAdmit?) && op.token.run == run)
  }

  /** Nobody holds the lease, or it runs out by then. */
  predicate OutBy(ledger: Ledger, run: RunId, expiry: int) {
    run in ledger.leases && (ledger.leases[run].owner.None? || ledger.leases[run].expires <= expiry)
  }

  lemma StepStaysOut(ledger: Ledger, op: Operation, run: RunId, expiry: int)
    requires OutBy(ledger, run, expiry) && (Prolongs(op, run) ==> Step(ledger, op).1.Some?)
    ensures OutBy(Step(ledger, op).0, run, expiry)
  {
    match op {
      case OpAdmit(target, admission, now) => AdmitLeases(ledger, target, admission, now);
      case OpFencedAdmit(token, now, admission) => AdmitLeases(ledger, token.run, admission, now);
      case _ =>
    }
  }

  /** Every operation of the run that could prolong the lease fails. */
  ghost predicate NeverProlonged(ledger: Ledger, ops: seq<Operation>, run: RunId) {
    ops != [] ==>
      && NeverProlonged(ledger, Init(ops), run)
      && (Prolongs(Last(ops), run) ==> Step(Run(ledger, Init(ops)), Last(ops)).1.Some?)
  }

  lemma {:induction false} RunStaysOut(ledger: Ledger, ops: seq<Operation>, run: RunId, expiry: int)
    requires OutBy(ledger, run, expiry) && NeverProlonged(ledger, ops, run)
    ensures OutBy(Run(ledger, ops), run, expiry)
  {
    if ops != [] {
      RunStaysOut(ledger, Init(ops), run, expiry);
      StepStaysOut(Run(ledger, Init(ops)), Last(ops), run, expiry);
    }
  }

  /** Ninety seconds after an acquisition that nothing prolonged, no token of the Run is
      of any use, whatever else happened in between. */
  lemma TokenExpires(ledger: Ledger, run: RunId, owner: string, since: int, ops: seq<Operation>, op: Operation)
    requires Acquire(ledger, run, owner, since).1.Ok?
    requires NeverProlonged(Acquire(ledger, run, owner, since).0, ops, run)
    requires Fenced(op) && op.token.run == run && op.now >= since + 90_000
    ensures var final := Run(Acquire(ledger, run, owner, since).0, ops);
            Step(final, op).0 == final && Step(final, op).1.Some?
  {
    var held := Acquire(ledger, run, owner, since).0;
    AcquiresExactly(ledger, run, owner, since);
    RunStaysOut(held, ops, run, since + 90_000);
    InvalidFails(Run(held, ops), op);
  }
}
