/** Sequence numbers over whole runs: strictly increasing in each Run, never shared
    between records, and never used again, whatever is appended or deleted. */
module LedgerSequences {
  import opened Prelude
  import opened LedgerState

  ghost predicate Ordered(records: seq<LedgerRecord>) {
    forall i, j :: 0 <= i < j < |records| ==> records[i].number < records[j].number
  }

  ghost predicate Has(ledger: Ledger, run: RunId, r: LedgerRecord) {
    r in RecordsFor(ledger, run)
  }

  ghost predicate AllOrdered(ledger: Ledger) {
    forall run :: Ordered(RecordsFor(ledger, run))
  }

  ghost predicate AllWithin(ledger: Ledger) {
    forall run, r :: Has(ledger, run, r) ==> r.run == run && 0 < r.number <= ledger.next
  }

  ghost predicate AllDistinct(ledger: Ledger) {
    forall run1, run2, r1, r2 :: Has(ledger, run1, r1) && Has(ledger, run2, r2) && r1.number == r2.number ==> r1 == r2
  }

  ghost predicate Sequenced(ledger: Ledger) {
    AllOrdered(ledger) && AllWithin(ledger) && AllDistinct(ledger)
  }

  /** Whatever `after` holds beyond `before` got a number `before` had not reached. */
  ghost predicate Extends(before: Ledger, after: Ledger) {
    && before.next <= after.next
    && forall run, r :: Has(after, run, r) ==> Has(before, run, r) || before.next < r.number
  }

  lemma ExtendsTransitive(a: Ledger, b: Ledger, c: Ledger)
    requires Extends(a, b) && Extends(b, c)
    ensures Extends(a, c)
  {
  }

  lemma StoreMembers(ledger: Ledger, record: LedgerRecord)
    ensures forall run, r :: Has(Store(ledger, record), run, r) <==>
                             Has(ledger, run, r) || (run == record.run && r == record)
  {
  }

  lemma StoreOrdered(ledger: Ledger, record: LedgerRecord)
    requires AllOrdered(ledger) && AllWithin(ledger) && record.number == ledger.next + 1
    ensures AllOrdered(Store(ledger, record))
  {
    var after := Store(ledger, record);
    forall run ensures Ordered(RecordsFor(after, run)) {
      var records := RecordsFor(ledger, run);
      assert Ordered(records);
      forall i | 0 <= i < |records| ensures records[i].number <= ledger.next {
        assert Has(ledger, run, records[i]);
      }
    }
  }

  lemma StoreKeeps(ledger: Ledger, record: LedgerRecord)
    requires Sequenced(ledger) && record.number == ledger.next + 1
    ensures Sequenced(Store(ledger, record)) && Extends(ledger, Store(ledger, record))
  {
    StoreOrdered(ledger, record);
    StoreMembers(ledger, record);
  }

  lemma {:induction false} StoreAllKeeps(ledger: Ledger, run: RunId, pending: seq<Extra>, now: int)
    requires Sequenced(ledger)
    ensures Sequenced(StoreAll(ledger, run, pending, now)) && Extends(ledger, StoreAll(ledger, run, pending, now))
    ensures StoreAll(ledger, run, pending, now).next == ledger.next + |pending|
    ensures StoreAll(ledger, run, pending, now).leases == ledger.leases
  {
    if pending != [] {
      StoreAllKeeps(ledger, run, Init(pending), now);
      var before := StoreAll(ledger, run, Init(pending), now);
      var e := Last(pending);
      var record := LedgerRecord(before.next + 1, run, now, e.durability, e.recordType, e.payload);
      StoreKeeps(before, record);
      ExtendsTransitive(ledger, before, Store(before, record));
    }
  }

  /** Sequences do not depend on the leases. */
  lemma LeasesIrrelevant(ledger: Ledger, after: Ledger, leases: map<RunId, StoredLease>)
    requires Sequenced(after) && Extends(ledger, after)
    ensures Sequenced(after.(leases := leases)) && Extends(ledger, after.(leases := leases))
  {
    var changed := after.(leases := leases);
    assert forall run, r :: Has(changed, run, r) <==> Has(after, run, r);
    forall run ensures Ordered(RecordsFor(changed, run)) {
      assert Ordered(RecordsFor(after, run));
    }
  }

  lemma DeleteKeeps(ledger: Ledger, run: RunId)
    requires Sequenced(ledger)
    ensures Sequenced(DeleteRun(ledger, run)) && Extends(ledger, DeleteRun(ledger, run))
  {
    var after := DeleteRun(ledger, run);
    assert forall x, r :: Has(after, x, r) <==> x != run && Has(ledger, x, r);
    forall x ensures Ordered(RecordsFor(after, x)) {
      assert Ordered(RecordsFor(ledger, x));
    }
  }

  /** The counter of an unfenced append saturates instead of failing. */
  predicate BelowLimit(ledger: Ledger, op: Operation) {
    op.OpAppend? && op.durability != Ephemeral ==> ledger.next < U64_MAX
  }

  lemma StoreOne(ledger: Ledger, run: RunId, e: Extra, now: int)
    ensures StoreAll(ledger, run, [e], now) ==
            Store(ledger, LedgerRecord(ledger.next + 1, run, now, e.durability, e.recordType, e.payload))
  {
    assert Init([e]) == [];
  }

  lemma {:induction false} StoreAllLeases(ledger: Ledger, run: RunId, pending: seq<Extra>, now: int)
    ensures StoreAll(ledger, run, pending, now).leases == ledger.leases
  {
    if pending != [] {
      StoreAllLeases(ledger, run, Init(pending), now);
    }
  }

  lemma CompareStores(ledger: Ledger, run: RunId, durability: Durability, recordType: string, fields: seq<string>,
                      payload: Payload, now: int)
    ensures var (after, answer) := CompareAndAppend(ledger, run, durability, recordType, fields, payload, now);
            after == if answer.Err? || Bound(ledger, run, recordType, fields, payload) then ledger
                     else StoreAll(ledger, run, [Extra(durability, recordType, payload)], now)
  {
    StoreOne(ledger, run, Extra(durability, recordType, payload), now);
  }

  lemma UnfencedStores(ledger: Ledger, op: Operation)
    requires op.OpAppend? || op.OpCompare? || op.OpAdmit?
    requires BelowLimit(ledger, op)
    ensures Step(ledger, op).0 == StoreAll(ledger, Target(op), Written(ledger, op), Timestamp(op))
  {
    match op {
      case OpAppend(run, durability, recordType, payload, now) =>
        StoreOne(ledger, run, Extra(durability, recordType, payload), now);
      case OpCompare(run, durability, recordType, fields, payload, now) =>
        CompareStores(ledger, run, durability, recordType, fields, payload, now);
      case OpAdmit(run, admission, now) =>
    }
  }

  lemma FencedAppendStores(ledger: Ledger, op: Operation)
    requires op.OpFencedAppend?
    ensures var after := Step(ledger, op).0;
            after == StoreAll(ledger, Target(op), Written(ledger, op), Timestamp(op)).(leases := after.leases)
  {
    StoreOne(ledger, op.token.run, Extra(op.durability, op.recordType, op.payload), op.now);
  }

  lemma FencedCompareStores(ledger: Ledger, op: Operation)
    requires op.OpFencedCompare?
    ensures var after := Step(ledger, op).0;
            after == StoreAll(ledger, Target(op), Written(ledger, op), Timestamp(op)).(leases := after.leases)
  {
    CompareStores(ledger, op.token.run, op.durability, op.recordType, op.fields, op.payload, op.wallClock);
  }

  lemma FencedAdmitStores(ledger: Ledger, op: Operation)
    requires op.OpFencedAdmit?
    ensures var after := Step(ledger, op).0;
            after == StoreAll(ledger, Target(op), Written(ledger, op), Timestamp(op)).(leases := after.leases)
  {
  }

  /** Apart from deletion, an operation only stores what `Written` says, and at most
      changes a lease. */
  lemma StepStores(ledger: Ledger, op: Operation)
    requires !op.OpDelete? && BelowLimit(ledger, op)
    ensures var after := Step(ledger, op).0;
            after == StoreAll(ledger, Target(op), Written(ledger, op), Timestamp(op)).(leases := after.leases)
  {
    match op {
      case OpAppend(_, _, _, _, _) => UnfencedStores(ledger, op);
      case OpCompare(_, _, _, _, _, _) => UnfencedStores(ledger, op);
      case OpAdmit(_, _, _) => UnfencedStores(ledger, op);
      case OpFencedAppend(_, _, _, _, _) => FencedAppendStores(ledger, op);
      case OpFencedCompare(_, _, _, _, _, _, _) => FencedCompareStores(ledger, op);
      case OpFencedAdmit(_, _, _) => FencedAdmitStores(ledger, op);
      case _ =>
    }
  }

  lemma StepKeepsSequences(ledger: Ledger, op: Operation)
    requires Sequenced(ledger) && BelowLimit(ledger, op)
    ensures Sequenced(Step(ledger, op).0) && Extends(ledger, Step(ledger, op).0)
  {
    if op.OpDelete? {
      DeleteKeeps(ledger, op.run);
    } else {
      StepStores(ledger, op);
      StoreAllKeeps(ledger, Target(op), Written(ledger, op), Timestamp(op));
      LeasesIrrelevant(ledger, StoreAll(ledger, Target(op), Written(ledger, op), Timestamp(op)), Step(ledger, op).0.leases);
    }
  }

  ghost predicate RunBelowLimit(ledger: Ledger, ops: seq<Operation>) {
    forall k :: 0 <= k < |ops| ==> BelowLimit(Run(ledger, ops[..k]), ops[k])
  }

  lemma BelowLimitInit(ledger: Ledger, ops: seq<Operation>)
    requires RunBelowLimit(ledger, ops) && ops != []
    ensures RunBelowLimit(ledger, Init(ops)) && BelowLimit(Run(ledger, Init(ops)), Last(ops))
  {
    assert Init(ops) == ops[..|ops| - 1];
    assert forall k :: 0 <= k < |ops| - 1 ==> Init(ops)[..k] == ops[..k] && Init(ops)[k] == ops[k];
  }

  lemma {:induction false} RunsKeepSequences(ledger: Ledger, ops: seq<Operation>)
    requires Sequenced(ledger) && RunBelowLimit(ledger, ops)
    ensures Sequenced(Run(ledger, ops)) && Extends(ledger, Run(ledger, ops))
  {
    if ops != [] {
      BelowLimitInit(ledger, ops);
      RunsKeepSequences(ledger, Init(ops));
      var before := Run(ledger, Init(ops));
      StepKeepsSequences(before, Last(ops));
      ExtendsTransitive(ledger, before, Run(ledger, ops));
    }
  }

  /** A number seen on a record at any time is never seen on another record later,
      not even after the first one was deleted. */
  lemma NumbersAreNeverReused(earlier: seq<Operation>, later: seq<Operation>, run1: RunId, r1: LedgerRecord,
                              run2: RunId, r2: LedgerRecord)
    requires RunBelowLimit(NewLedger, earlier) && RunBelowLimit(Run(NewLedger, earlier), later)
    requires Has(Run(NewLedger, earlier), run1, r1)
    requires Has(Run(Run(NewLedger, earlier), later), run2, r2)
    requires r1.number == r2.number
    ensures r1 == r2 && run1 == run2
  {
    RunsKeepSequences(NewLedger, earlier);
    RunsKeepSequences(Run(NewLedger, earlier), later);
  }

  /** At the limit the property fails: a durable append keeps numbers ordered,
      distinct and new exactly when the counter is below the 64-bit maximum. */
  lemma AppendKeepsSequencesExactly(ledger: Ledger, run: RunId, durability: Durability, recordType: string,
                                    payload: Payload, now: int)
    requires Sequenced(ledger) && durability != Ephemeral && ledger.next <= U64_MAX
    ensures var after := Append(ledger, run, durability, recordType, payload, now).0;
            Sequenced(after) && Extends(ledger, after) <==> ledger.next < U64_MAX
  {
    var record := LedgerRecord(SaturatingAdd(ledger.next, 1), run, now, durability, recordType, payload);
    var after := Store(ledger, record);
    if ledger.next < U64_MAX {
      StoreKeeps(ledger, record);
    } else {
      var box := RecordsFor(after, run);
      assert Last(box) == record && Has(after, run, record);
      if record in RecordsFor(ledger, run) {
        var k :| 0 <= k < |RecordsFor(ledger, run)| && RecordsFor(ledger, run)[k] == record;
        assert box[k].number == box[|box| - 1].number;
        assert !Ordered(box);
      }
    }
  }
}
