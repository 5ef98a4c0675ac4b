/** Replaying an accepted batch: at any later time it appends nothing. */
module LedgerReplay {
  import opened Prelude
  import opened LedgerState
  import opened LedgerSequences
  import opened LedgerAdmission
  import opened LedgerTeams
  import Leases = LedgerLeases

  // ----- tasks stay charged ---------------------------------------------------------------

  lemma {:induction false} NewTasksCover(existing: map<TaskId, TaskRecord>, tasks: seq<TaskRecord>, t: TaskRecord)
    requires NewTasks(existing, tasks).Ok? && t in tasks
    ensures (t.id in existing && existing[t.id] == t) || t in NewTasks(existing, tasks).value
  {
    InitLast(tasks);
    if t != Last(tasks) {
      assert t in Init(tasks);
      NewTasksCover(existing, Init(tasks), t);
    }
  }

  lemma {:induction false} NothingNew(existing: map<TaskId, TaskRecord>, tasks: seq<TaskRecord>)
    requires forall t :: t in tasks ==> t.id in existing && existing[t.id] == t
    ensures NewTasks(existing, tasks) == Ok([])
  {
    if tasks != [] {
      InitLast(tasks);
      assert forall t :: t in Init(tasks) ==> t in tasks;
      assert Last(tasks) in tasks;
      NothingNew(existing, Init(tasks));
    }
  }

  lemma {:induction false} TaskExtraIn(tasks: seq<TaskRecord>, t: TaskRecord)
    requires t in tasks
    ensures Extra(SyncCritical, TASK_CREATED, TaskDocument(t)) in TaskExtras(tasks)
  {
    InitLast(tasks);
    if t != Last(tasks) {
      assert t in Init(tasks);
      TaskExtraIn(Init(tasks), t);
    }
  }

  lemma AcceptedIsCharged(ledger: Ledger, run: RunId, a: Admission, now: int, t: TaskRecord)
    requires Plan(ledger, run, a).Ok? && AllTasks(ledger, a.root) && InTree(a.root, run) && t in a.tasks
    ensures Charged(StoreAll(ledger, run, Plan(ledger, run, a).value, now), a.root, t)
  {
    var plan := Plan(ledger, run, a).value;
    var after := StoreAll(ledger, run, plan, now);
    TreeTable(ledger, a.root, a.order);
    var existing := TreeTasks(ledger, a.root, a.order).value;
    var admitted := ValidateBatch(existing, a.maxTasks, a.tasks).value;
    NewTasksCover(existing, a.tasks, t);
    if t in admitted {
      TaskExtraIn(admitted, t);
      var e := Extra(SyncCritical, TASK_CREATED, TaskDocument(t));
      assert e in plan;
      PendingIsStored(ledger, run, plan, now, e);
      assert RecordedIn(RecordsFor(after, run), t);
    } else {
      var x, r := ChargedIs(ledger, a.root, t);
      Leases.StoreAllRecords(ledger, run, plan, now, x);
      StillIn(RecordsFor(ledger, x), RecordsFor(after, x), r);
      assert RecordedIn(RecordsFor(after, x), t);
    }
  }

  lemma StillIn(before: seq<LedgerRecord>, after: seq<LedgerRecord>, r: LedgerRecord)
    requires before <= after && r in before
    ensures r in after
  {
    var k :| 0 <= k < |before| && before[k] == r;
    assert after[k] == r;
  }

  // ----- metadata read later is above what was read before ----------------------------------

  lemma {:induction false} DecodePrefix(run: RunId, records: seq<LedgerRecord>, k: nat)
    requires k <= |records| && DecodeMetadata(run, records).Ok?
    ensures DecodeMetadata(run, records[..k]).Ok?
    ensures Below(DecodeMetadata(run, records[..k]).value, DecodeMetadata(run, records).value)
  {
    if k == |records| {
      assert records[..k] == records;
    } else {
      var before := DecodeMetadata(run, Init(records));
      DecodePrefix(run, Init(records), k);
      assert Init(records)[..k] == records[..k];
      ObserveGrows(run, before.value, Last(records).recordType, Last(records).payload);
    }
  }

  lemma {:induction false} MarkerTeamsKnown(run: RunId, m: Metadata, tasks: seq<TaskRecord>, extras: seq<Extra>, e: Extra)
    requires ApplyMarkers(run, m, tasks, extras).Ok? && e in extras && e.recordType == BATCH_MARKER
    ensures DecodeBatch(e.payload).Some?
    ensures forall x :: x in DecodeBatch(e.payload).value.memberships ==>
                          x.0 in ApplyMarkers(run, m, tasks, extras).value.teams
  {
    InitLast(extras);
    var before := ApplyMarkers(run, m, tasks, Init(extras)).value;
    if e == Last(extras) {
    } else {
      assert e in Init(extras);
      MarkerTeamsKnown(run, m, tasks, Init(extras), e);
      if Last(extras).recordType == BATCH_MARKER {
        RegisterGrows(run, before, DecodeBatch(Last(extras).payload).value.teams);
      }
    }
  }

  /** Markers that are stored and whose members' teams are known apply without effect. */
  lemma {:induction false} StoredMarkersApply(run: RunId, records: seq<LedgerRecord>, m: Metadata, tasks: seq<TaskRecord>,
                                              extras: seq<Extra>)
    requires DecodeMetadata(run, records) == Ok(m)
    requires forall e :: e in extras ==> e.recordType == BATCH_MARKER && Stored(records, e)
    requires forall e :: e in extras ==> DecodeBatch(e.payload).Some? && DecodeBatch(e.payload).value.tasks == tasks
    requires forall e, x :: e in extras && x in DecodeBatch(e.payload).value.memberships ==> x.0 in m.teams
    ensures ApplyMarkers(run, m, tasks, extras) == Ok(m)
    ensures KeptExtras(records, extras, true) == []
  {
    if extras != [] {
      InitLast(extras);
      assert forall e :: e in Init(extras) ==> e in extras;
      var e := Last(extras);
      assert e in extras;
      StoredMarkersApply(run, records, m, tasks, Init(extras));
      StoredMarkerApplies(run, records, m, tasks, e);
    }
  }

  lemma StoredMarkerApplies(run: RunId, records: seq<LedgerRecord>, m: Metadata, tasks: seq<TaskRecord>, e: Extra)
    requires DecodeMetadata(run, records) == Ok(m) && e.recordType == BATCH_MARKER && Stored(records, e)
    requires DecodeBatch(e.payload).Some? && DecodeBatch(e.payload).value.tasks == tasks
    requires forall x :: x in DecodeBatch(e.payload).value.memberships ==> x.0 in m.teams
    ensures ApplyMarker(run, m, tasks, e.payload) == Ok(m)
  {
    var r :| r in records && r.recordType == e.recordType && r.payload == e.payload;
    StoredIsRegistered(run, records, r);
    var batch := DecodeBatch(e.payload).value;
    RegisteredAgain(run, m, batch.teams);
    assert m.members + Elements(batch.memberships) == m.members;
  }

  // ----- the replay --------------------------------------------------------------------------

  /** A batch that carries nothing but durable batch markers, if anything. */
  ghost predicate MarkerOnly(a: Admission) {
    forall e :: e in a.extras ==> e.recordType == BATCH_MARKER && e.durability != Ephemeral
  }

  /** What the acceptance of a batch leaves behind. */
  ghost predicate Accepted(ledger: Ledger, run: RunId, a: Admission) {
    && (forall t :: t in a.tasks ==> Charged(ledger, a.root, t))
    && DecodeMetadata(run, RecordsFor(ledger, run)).Ok?
    && (forall e :: e in a.extras ==>
          && Stored(RecordsFor(ledger, run), e) && DecodeBatch(e.payload).Some?
          && DecodeBatch(e.payload).value.tasks == a.tasks
          && forall x :: x in DecodeBatch(e.payload).value.memberships ==>
                           x.0 in DecodeMetadata(run, RecordsFor(ledger, run)).value.teams)
  }

  lemma AcceptanceHolds(ledger: Ledger, run: RunId, a: Admission, now: int)
    requires Plan(ledger, run, a).Ok? && AllTasks(ledger, a.root) && InTree(a.root, run) && MarkerOnly(a)
    requires Intact(RecordsFor(StoreAll(ledger, run, Plan(ledger, run, a).value, now), run), run)
    ensures Accepted(StoreAll(ledger, run, Plan(ledger, run, a).value, now), run, a)
  {
    forall t | t in a.tasks ensures Charged(StoreAll(ledger, run, Plan(ledger, run, a).value, now), a.root, t) {
      AcceptedIsCharged(ledger, run, a, now, t);
    }
    if a.extras != [] {
      MarkersHold(ledger, run, a, now);
    }
  }

  lemma MarkersHold(ledger: Ledger, run: RunId, a: Admission, now: int)
    requires Plan(ledger, run, a).Ok? && MarkerOnly(a) && a.extras != []
    ensures var records := RecordsFor(StoreAll(ledger, run, Plan(ledger, run, a).value, now), run);
            && DecodeMetadata(run, records).Ok?
            && forall e :: e in a.extras ==>
                 && Stored(records, e) && DecodeBatch(e.payload).Some? && DecodeBatch(e.payload).value.tasks == a.tasks
                 && forall x :: x in DecodeBatch(e.payload).value.memberships ==>
                                  x.0 in DecodeMetadata(run, records).value.teams
  {
    assert HasMarker(a.extras) by { assert a.extras[0] in a.extras; }
    BatchDecodes(ledger, run, a, now);
    DurableStaffs(ledger, run, a, now);
    var m := DecodeMetadata(run, RecordsFor(ledger, run)).value;
    forall e | e in a.extras
      ensures Stored(RecordsFor(StoreAll(ledger, run, Plan(ledger, run, a).value, now), run), e)
      ensures DecodeBatch(e.payload).Some? && DecodeBatch(e.payload).value.tasks == a.tasks
      ensures forall x :: x in DecodeBatch(e.payload).value.memberships ==>
                            x.0 in ApplyMarkers(run, m, a.tasks, a.extras).value.teams
    {
      PlannedIsStored(ledger, run, a, now, e);
      MarkersNameTasks(run, m, a.tasks, a.extras, e);
      MarkerTeamsKnown(run, m, a.tasks, a.extras, e);
    }
  }

  /** Acceptance survives whatever only adds records. */
  lemma AcceptanceSurvives(before: Ledger, after: Ledger, run: RunId, a: Admission)
    requires Accepted(before, run, a) && DecodeMetadata(run, RecordsFor(after, run)).Ok?
    requires InTree(a.root, run) && forall x :: InTree(a.root, x) ==> RecordsFor(before, x) <= RecordsFor(after, x)
    ensures Accepted(after, run, a)
  {
    forall t | t in a.tasks ensures Charged(after, a.root, t) {
      var x, r := ChargedIs(before, a.root, t);
      StillIn(RecordsFor(before, x), RecordsFor(after, x), r);
      assert RecordedIn(RecordsFor(after, x), t);
    }
    var records := RecordsFor(after, run);
    DecodePrefix(run, records, |RecordsFor(before, run)|);
    assert records[..|RecordsFor(before, run)|] == RecordsFor(before, run);
    forall e | e in a.extras ensures Stored(records, e) {
      var r :| r in RecordsFor(before, run) && r.recordType == e.recordType && r.payload == e.payload;
      StillIn(RecordsFor(before, run), records, r);
    }
  }

  lemma AcceptedPlansNothing(ledger: Ledger, run: RunId, a: Admission)
    requires Accepted(ledger, run, a) && MarkerOnly(a) && ledger.next <= U64_MAX
    requires WithinQuota(ledger, a.root, a.maxTasks) && Intact(RecordsFor(ledger, run), run)
    requires Elements(a.order) == ledger.records.Keys
    ensures Plan(ledger, run, a) == Ok([])
  {
    var records := RecordsFor(ledger, run);
    var m := DecodeMetadata(run, records).value;
    TreeTableExact(ledger, a.root, a.order);
    var existing := TreeTasks(ledger, a.root, a.order).value;
    NothingNew(existing, a.tasks);
    assert |existing| == |existing.Keys|;
    if a.extras != [] {
      StoredMarkersApply(run, records, m, a.tasks, a.extras);
      assert HasMarker(a.extras) && Stored(records, a.extras[0]) by { assert a.extras[0] in a.extras; }
      forall t | t in a.tasks ensures Staffed(t, m) {
        var e := a.extras[0];
        assert e in a.extras;
        var r :| r in records && r.recordType == e.recordType && r.payload == e.payload;
        assert Names(r, t);
      }
      NoErrorMeansStaffed(a.tasks, m);
    }
    assert TaskExtras([]) + [] == [];
  }

  lemma StepNext(ledger: Ledger, op: Operation)
    requires BelowLimit(ledger, op) && ledger.next <= U64_MAX
    ensures Step(ledger, op).0.next <= U64_MAX
  {
    if IsAdmission(op) && Plan(ledger, Target(op), op.admission).Ok? {
      StoreAllNext(ledger, Target(op), Plan(ledger, Target(op), op.admission).value, op.now);
    }
  }

  lemma {:induction false} StoreAllNext(ledger: Ledger, run: RunId, pending: seq<Extra>, now: int)
    ensures StoreAll(ledger, run, pending, now).next == ledger.next + |pending|
  {
    if pending != [] {
      StoreAllNext(ledger, run, Init(pending), now);
    }
  }

  /** The tree's other writers obey the rules, and none of its Runs is deleted. */
  ghost predicate Orderly(ledger: Ledger, op: Operation, run: RunId, root: RunId, maxTasks: nat) {
    && BelowLimit(ledger, op)
    && ThroughRoot(ledger, op, root, maxTasks)
    && OnlyDurableBatches(ledger, op, run)
    && (op.OpDelete? ==> !InTree(root, op.run))
  }

  lemma {:induction false} OrderlyRun(ledger: Ledger, ops: seq<Operation>, run: RunId, root: RunId, maxTasks: nat)
    requires WithinQuota(ledger, root, maxTasks) && Intact(RecordsFor(ledger, run), run) && ledger.next <= U64_MAX
    requires forall k :: 0 <= k < |ops| ==> Orderly(Run(ledger, ops[..k]), ops[k], run, root, maxTasks)
    ensures var after := Run(ledger, ops);
            && WithinQuota(after, root, maxTasks) && Intact(RecordsFor(after, run), run) && after.next <= U64_MAX
            && forall x :: InTree(root, x) ==> RecordsFor(ledger, x) <= RecordsFor(after, x)
  {
    if ops != [] {
      assert ops[..|ops| - 1] == Init(ops);
      assert forall k :: 0 <= k < |ops| - 1 ==> Init(ops)[..k] == ops[..k] && Init(ops)[k] == ops[k];
      OrderlyRun(ledger, Init(ops), run, root, maxTasks);
      var before, op := Run(ledger, Init(ops)), Last(ops);
      assert Orderly(before, op, run, root, maxTasks);
      StepWithinQuota(before, op, root, maxTasks);
      StepKeepsIntact(before, op, run);
      StepNext(before, op);
      forall x | InTree(root, x) ensures RecordsFor(ledger, x) <= RecordsFor(Run(ledger, ops), x) {
        Leases.StepRecords(before, op, x);
      }
    }
  }

  lemma FirstAdmission(ledger: Ledger, run: RunId, a: Admission, now: int)
    requires WithinQuota(ledger, a.root, a.maxTasks) && Intact(RecordsFor(ledger, run), run) && ledger.next <= U64_MAX
    requires InTree(a.root, run) && Elements(a.order) == ledger.records.Keys && MarkerOnly(a)
    requires Plan(ledger, run, a).Ok?
    ensures var first := Admit(ledger, run, a, now).0;
            && WithinQuota(first, a.root, a.maxTasks) && Intact(RecordsFor(first, run), run)
            && first.next <= U64_MAX && Accepted(first, run, a)
  {
    AdmissionWithinQuota(ledger, run, a, now);
    DurableBatchKeepsIntact(ledger, run, a, now);
    StoreAllNext(ledger, run, Plan(ledger, run, a).value, now);
    AcceptanceHolds(ledger, run, a, now);
  }

  lemma AcceptedReplays(first: Ledger, run: RunId, a: Admission, now: int, ops: seq<Operation>, order: seq<RunId>)
    requires WithinQuota(first, a.root, a.maxTasks) && Intact(RecordsFor(first, run), run) && first.next <= U64_MAX
    requires Accepted(first, run, a) && MarkerOnly(a) && InTree(a.root, run)
    requires forall k :: 0 <= k < |ops| ==> Orderly(Run(first, ops[..k]), ops[k], run, a.root, a.maxTasks)
    requires Elements(order) == Run(first, ops).records.Keys
    ensures Admit(Run(first, ops), run, a.(order := order), now) == (Run(first, ops), Ok([]))
  {
    OrderlyRun(first, ops, run, a.root, a.maxTasks);
    AcceptanceSurvives(first, Run(first, ops), run, a);
    AcceptedPlansNothing(Run(first, ops), run, a.(order := order));
  }

  /** After a marker-only batch was accepted, and after any orderly run from there, the
      same batch is accepted again and appends nothing. */
  lemma ReplayAppendsNothing(ledger: Ledger, run: RunId, a: Admission, now: int, ops: seq<Operation>, order: seq<RunId>)
    requires WithinQuota(ledger, a.root, a.maxTasks) && Intact(RecordsFor(ledger, run), run) && ledger.next <= U64_MAX
    requires InTree(a.root, run) && Elements(a.order) == ledger.records.Keys && MarkerOnly(a)
    requires Plan(ledger, run, a).Ok?
    requires var first := Admit(ledger, run, a, now).0;
             forall k :: 0 <= k < |ops| ==> Orderly(Run(first, ops[..k]), ops[k], run, a.root, a.maxTasks)
    requires Elements(order) == Run(Admit(ledger, run, a, now).0, ops).records.Keys
    ensures var later := Run(Admit(ledger, run, a, now).0, ops);
            Admit(later, run, a.(order := order), now) == (later, Ok([]))
  {
    FirstAdmission(ledger, run, a, now);
    AcceptedReplays(Admit(ledger, run, a, now).0, run, a, now, ops, order);
  }
}
