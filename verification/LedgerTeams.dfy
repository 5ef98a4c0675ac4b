/** Team integrity of admitted batches: what the durable records of a Run say about
    teams and members always staffs every task ever admitted with a batch marker. */
module LedgerTeams {
  import opened Prelude
  import opened LedgerState
  import opened LedgerSequences
  import opened LedgerAdmission

  /** A team task has a durable team, a coordinator who is a member, and the owner its
      state calls for, who is a member too. */
  predicate Staffed(task: TaskRecord, metadata: Metadata) {
    task.team.Some? ==>
      && task.team.value in metadata.teams
      && metadata.teams[task.team.value].coordinator.Some?
      && (task.team.value, metadata.teams[task.team.value].coordinator.value) in metadata.members
      && task.state != Created
      && (task.state == Queued ==> task.owner.None?)
      && (task.state == Assigned || task.state == Running ==> task.owner.Some?)
      && (task.owner.Some? ==> (task.team.value, task.owner.value) in metadata.members)
  }

  lemma {:induction false} NoErrorMeansStaffed(tasks: seq<TaskRecord>, metadata: Metadata)
    ensures TasksError(tasks, metadata).None? <==> forall t :: t in tasks ==> Staffed(t, metadata)
  {
    if tasks != [] {
      InitLast(tasks);
      NoErrorMeansStaffed(Init(tasks), metadata);
      assert TaskError(Last(tasks), metadata).None? <==> Staffed(Last(tasks), metadata);
      assert forall t :: t in tasks <==> t in Init(tasks) || t == Last(tasks);
    }
  }

  // ----- metadata only grows ------------------------------------------------------------

  ghost predicate Below(a: Metadata, b: Metadata) {
    && (forall id :: id in a.teams ==> id in b.teams && b.teams[id] == a.teams[id])
    && a.members <= b.members
  }

  lemma StaffedAbove(task: TaskRecord, a: Metadata, b: Metadata)
    requires Below(a, b) && Staffed(task, a)
    ensures Staffed(task, b)
  {
  }

  lemma {:induction false} RegisterGrows(run: RunId, m: Metadata, teams: seq<TeamRecord>)
    ensures RegisterTeams(run, m, teams).Ok? ==>
              Below(m, RegisterTeams(run, m, teams).value) && RegisterTeams(run, m, teams).value.members == m.members
  {
    if teams != [] {
      RegisterGrows(run, m, Init(teams));
    }
  }

  lemma ObserveGrows(run: RunId, m: Metadata, recordType: string, payload: Payload)
    ensures ObserveMetadata(run, m, recordType, payload).Ok? ==>
              Below(m, ObserveMetadata(run, m, recordType, payload).value)
  {
    if DecodeBatch(payload).Some? {
      RegisterGrows(run, m, DecodeBatch(payload).value.teams);
    }
  }

  predicate IsMetadata(recordType: string) {
    recordType == TEAM_CREATED || recordType == TEAM_MARKER || recordType == BATCH_MARKER || recordType == MEMBER_JOINED
  }

  /** Decoding further records on top of known metadata. */
  function Decode(run: RunId, m: Metadata, extras: seq<Extra>): Result<Metadata, LedgerError> {
    if extras == [] then Ok(m)
    else
      var before := Decode(run, m, Init(extras));
      if before.Err? then before else ObserveMetadata(run, before.value, Last(extras).recordType, Last(extras).payload)
  }

  lemma {:induction false} DecodeGrows(run: RunId, m: Metadata, extras: seq<Extra>)
    ensures Decode(run, m, extras).Ok? ==> Below(m, Decode(run, m, extras).value)
  {
    if extras != [] {
      DecodeGrows(run, m, Init(extras));
      var before := Decode(run, m, Init(extras));
      if before.Ok? {
        ObserveGrows(run, before.value, Last(extras).recordType, Last(extras).payload);
      }
    }
  }

  lemma {:induction false} DecodeStored(ledger: Ledger, run: RunId, pending: seq<Extra>, now: int)
    requires DecodeMetadata(run, RecordsFor(ledger, run)).Ok?
    ensures DecodeMetadata(run, RecordsFor(StoreAll(ledger, run, pending, now), run)) ==
            Decode(run, DecodeMetadata(run, RecordsFor(ledger, run)).value, pending)
  {
    if pending != [] {
      DecodeStored(ledger, run, Init(pending), now);
      var before, e := StoreAll(ledger, run, Init(pending), now), Last(pending);
      var record := LedgerRecord(before.next + 1, run, now, e.durability, e.recordType, e.payload);
      InitOfAppend(RecordsFor(before, run), record);
    }
  }

  lemma {:induction false} DecodeSkips(run: RunId, m: Metadata, extras: seq<Extra>)
    requires forall e :: e in extras ==> !IsMetadata(e.recordType)
    ensures Decode(run, m, extras) == Ok(m)
  {
    if extras != [] {
      InitLast(extras);
      assert forall e :: e in Init(extras) ==> e in extras;
      assert Last(extras) in extras;
      DecodeSkips(run, m, Init(extras));
    }
  }

  lemma {:induction false} DecodeAppend(run: RunId, m: Metadata, p: seq<Extra>, q: seq<Extra>)
    requires Decode(run, m, p).Ok?
    ensures Decode(run, m, p + q) == Decode(run, Decode(run, m, p).value, q)
  {
    if q == [] {
      assert p + q == p;
    } else {
      assert Init(p + q) == p + Init(q) && Last(p + q) == Last(q);
      DecodeAppend(run, m, p, Init(q));
    }
  }

  // ----- a marker that is already decoded changes nothing -----------------------------------

  ghost predicate Registered(run: RunId, m: Metadata, batch: Batch) {
    && (forall t :: t in batch.teams ==>
                      t.run == run && LimitsValid(t) && t.id in m.teams && SameMetadata(m.teams[t.id], t))
    && Elements(batch.memberships) <= m.members
  }

  lemma {:induction false} RegisteredAgain(run: RunId, m: Metadata, teams: seq<TeamRecord>)
    requires forall t :: t in teams ==> t.run == run && LimitsValid(t) && t.id in m.teams && SameMetadata(m.teams[t.id], t)
    ensures RegisterTeams(run, m, teams) == Ok(m)
  {
    if teams != [] {
      InitLast(teams);
      assert forall t :: t in Init(teams) ==> t in teams;
      assert Last(teams) in teams;
      RegisteredAgain(run, m, Init(teams));
    }
  }

  lemma {:induction false} RegisterRegisters(run: RunId, m: Metadata, teams: seq<TeamRecord>)
    requires RegisterTeams(run, m, teams).Ok?
    ensures var after := RegisterTeams(run, m, teams).value;
            forall t :: t in teams ==> t.run == run && LimitsValid(t) && t.id in after.teams && SameMetadata(after.teams[t.id], t)
  {
    if teams != [] {
      InitLast(teams);
      RegisterRegisters(run, m, Init(teams));
      assert forall t :: t in teams <==> t in Init(teams) || t == Last(teams);
    }
  }

  lemma RegisteredAbove(run: RunId, a: Metadata, b: Metadata, batch: Batch)
    requires Below(a, b) && Registered(run, a, batch)
    ensures Registered(run, b, batch)
  {
  }

  lemma RegisteredObserves(run: RunId, m: Metadata, payload: Payload)
    requires DecodeBatch(payload).Some? && Registered(run, m, DecodeBatch(payload).value)
    ensures ObserveMetadata(run, m, BATCH_MARKER, payload) == Ok(m)
  {
    var batch := DecodeBatch(payload).value;
    RegisteredAgain(run, m, batch.teams);
    assert m.members + Elements(batch.memberships) == m.members;
  }

  lemma ObservedIsRegistered(run: RunId, m: Metadata, payload: Payload)
    requires ObserveMetadata(run, m, BATCH_MARKER, payload).Ok?
    ensures DecodeBatch(payload).Some?
    ensures Registered(run, ObserveMetadata(run, m, BATCH_MARKER, payload).value, DecodeBatch(payload).value)
  {
    RegisterRegisters(run, m, DecodeBatch(payload).value.teams);
  }

  lemma {:induction false} StoredIsRegistered(run: RunId, records: seq<LedgerRecord>, r: LedgerRecord)
    requires DecodeMetadata(run, records).Ok? && r in records && r.recordType == BATCH_MARKER
    ensures DecodeBatch(r.payload).Some?
    ensures Registered(run, DecodeMetadata(run, records).value, DecodeBatch(r.payload).value)
  {
    InitLast(records);
    var before := DecodeMetadata(run, Init(records)).value;
    if r == Last(records) {
      ObservedIsRegistered(run, before, r.payload);
    } else {
      assert r in Init(records);
      StoredIsRegistered(run, Init(records), r);
      ObserveGrows(run, before, Last(records).recordType, Last(records).payload);
      RegisteredAbove(run, before, DecodeMetadata(run, records).value, DecodeBatch(r.payload).value);
    }
  }

  /** The extras that a ledger without any record would keep: all durable ones. */
  function Durable(extras: seq<Extra>): seq<Extra> {
    KeptExtras([], extras, false)
  }

  /** Leaving out the markers that are already stored decodes to the same metadata. */
  lemma {:induction false} SkippingStoredIsHarmless(run: RunId, records: seq<LedgerRecord>, extras: seq<Extra>)
    requires DecodeMetadata(run, records).Ok?
    ensures var m := DecodeMetadata(run, records).value;
            Decode(run, m, KeptExtras(records, extras, true)) == Decode(run, m, Durable(extras))
  {
    if extras != [] {
      SkippingStoredIsHarmless(run, records, Init(extras));
      var m, e := DecodeMetadata(run, records).value, Last(extras);
      var kept, durable := KeptExtras(records, Init(extras), true), Durable(Init(extras));
      InitOfAppend(kept, e);
      InitOfAppend(durable, e);
      if e.durability == Ephemeral {
        assert KeptExtras(records, extras, true) == kept && Durable(extras) == durable;
      } else if e.recordType == BATCH_MARKER && Stored(records, e) {
        assert KeptExtras(records, extras, true) == kept;
        var r :| r in records && r.recordType == e.recordType && r.payload == e.payload;
        StoredIsRegistered(run, records, r);
        DecodeGrows(run, m, durable);
        var before := Decode(run, m, durable);
        if before.Ok? {
          RegisteredAbove(run, m, before.value, DecodeBatch(e.payload).value);
          RegisteredObserves(run, before.value, e.payload);
        }
      }
    }
  }

  // ----- validation against the markers and decoding of what is stored -----------------------

  /** `sub` holds no team or member that `full` lacks; team records may differ in the
      member list, which metadata comparison ignores. */
  ghost predicate Covered(sub: Metadata, full: Metadata) {
    && (forall id :: id in sub.teams ==> id in full.teams && SameMetadata(sub.teams[id], full.teams[id]))
    && sub.members <= full.members
  }

  lemma {:induction false} RegisterCovered(run: RunId, sub: Metadata, full: Metadata, teams: seq<TeamRecord>)
    requires Covered(sub, full) && RegisterTeams(run, full, teams).Ok?
    ensures RegisterTeams(run, sub, teams).Ok?
    ensures Covered(RegisterTeams(run, sub, teams).value, RegisterTeams(run, full, teams).value)
  {
    if teams != [] {
      RegisterCovered(run, sub, full, Init(teams));
    }
  }

  /** A batch brings collaboration metadata only in batch markers. */
  predicate OnlyMarkers(extras: seq<Extra>) {
    forall e | e in extras :: IsMetadata(e.recordType) ==> e.recordType == BATCH_MARKER
  }

  /** If the markers were accepted one after the other, the durable ones among them
      decode without an error. */
  lemma {:induction false} DurableDecodes(run: RunId, m: Metadata, tasks: seq<TaskRecord>, extras: seq<Extra>)
    requires ApplyMarkers(run, m, tasks, extras).Ok? && OnlyMarkers(extras)
    ensures Decode(run, m, Durable(extras)).Ok?
    ensures Covered(Decode(run, m, Durable(extras)).value, ApplyMarkers(run, m, tasks, extras).value)
  {
    if extras != [] {
      InitLast(extras);
      var e := Last(extras);
      assert forall x :: x in Init(extras) ==> x in extras;
      assert e in extras;
      DurableDecodes(run, m, tasks, Init(extras));
      var sub, full := Decode(run, m, Durable(Init(extras))).value, ApplyMarkers(run, m, tasks, Init(extras)).value;
      InitOfAppend(Durable(Init(extras)), e);
      if e.durability == Ephemeral {
        assert Durable(extras) == Durable(Init(extras));
      }
      if e.recordType == BATCH_MARKER {
        var batch := DecodeBatch(e.payload).value;
        RegisterGrows(run, full, batch.teams);
        if e.durability != Ephemeral {
          RegisterCovered(run, sub, full, batch.teams);
          RegisterGrows(run, sub, batch.teams);
        }
      }
    }
  }

  lemma {:induction false} MarkersNameTasks(run: RunId, m: Metadata, tasks: seq<TaskRecord>, extras: seq<Extra>, e: Extra)
    requires ApplyMarkers(run, m, tasks, extras).Ok? && e in extras && e.recordType == BATCH_MARKER
    ensures DecodeBatch(e.payload).Some? && DecodeBatch(e.payload).value.tasks == tasks
  {
    InitLast(extras);
    if e != Last(extras) {
      assert e in Init(extras);
      MarkersNameTasks(run, m, tasks, Init(extras), e);
    }
  }

  // ----- integrity --------------------------------------------------------------------------------

  /** The record is a batch marker that lists the task. */
  predicate Names(r: LedgerRecord, task: TaskRecord) {
    && r.recordType == BATCH_MARKER && DecodeBatch(r.payload).Some?
    && task in DecodeBatch(r.payload).value.tasks
  }

  /** The Run's records decode, and every task of every batch marker is staffed. */
  ghost predicate Intact(records: seq<LedgerRecord>, run: RunId) {
    && DecodeMetadata(run, records).Ok?
    && forall r, t :: r in records && Names(r, t) ==> Staffed(t, DecodeMetadata(run, records).value)
  }

  lemma {:induction false} StoredSince(ledger: Ledger, run: RunId, pending: seq<Extra>, now: int, r: LedgerRecord)
    requires r in RecordsFor(StoreAll(ledger, run, pending, now), run)
    ensures r in RecordsFor(ledger, run) || Extra(r.durability, r.recordType, r.payload) in pending
  {
    if pending != [] {
      InitLast(pending);
      if r in RecordsFor(StoreAll(ledger, run, Init(pending), now), run) {
        StoredSince(ledger, run, Init(pending), now, r);
      }
    }
  }

  /** Records about other things leave the metadata and its integrity alone. */
  lemma OthersKeepIntact(ledger: Ledger, run: RunId, pending: seq<Extra>, now: int)
    requires Intact(RecordsFor(ledger, run), run) && forall e :: e in pending ==> !IsMetadata(e.recordType)
    ensures Intact(RecordsFor(StoreAll(ledger, run, pending, now), run), run)
  {
    DecodeStored(ledger, run, pending, now);
    DecodeSkips(run, DecodeMetadata(run, RecordsFor(ledger, run)).value, pending);
    forall r | r in RecordsFor(StoreAll(ledger, run, pending, now), run) && r.recordType == BATCH_MARKER
      ensures r in RecordsFor(ledger, run)
    {
      StoredSince(ledger, run, pending, now, r);
    }
  }

  lemma {:induction false} TaskExtrasAreTasks(tasks: seq<TaskRecord>, e: Extra)
    requires e in TaskExtras(tasks)
    ensures e.recordType == TASK_CREATED
  {
    if e !in TaskExtras(Init(tasks)) {
      assert e == Extra(SyncCritical, TASK_CREATED, TaskDocument(Last(tasks)));
    } else {
      TaskExtrasAreTasks(Init(tasks), e);
    }
  }

  /** What an accepted batch with markers makes the Run decode to. */
  lemma BatchDecodes(ledger: Ledger, run: RunId, a: Admission, now: int)
    requires Plan(ledger, run, a).Ok? && HasMarker(a.extras) && OnlyMarkers(a.extras)
    ensures DecodeMetadata(run, RecordsFor(ledger, run)).Ok?
    ensures var m := DecodeMetadata(run, RecordsFor(ledger, run)).value;
            var applied := ApplyMarkers(run, m, a.tasks, a.extras);
            var after := StoreAll(ledger, run, Plan(ledger, run, a).value, now);
            && applied.Ok? && (forall t :: t in a.tasks ==> Staffed(t, applied.value))
            && Decode(run, m, Durable(a.extras)).Ok?
            && DecodeMetadata(run, RecordsFor(after, run)) == Decode(run, m, Durable(a.extras))
            && Below(m, Decode(run, m, Durable(a.extras)).value)
  {
    var records := RecordsFor(ledger, run);
    var m := DecodeMetadata(run, records).value;
    var applied := ApplyMarkers(run, m, a.tasks, a.extras).value;
    NoErrorMeansStaffed(a.tasks, applied);
    DurableDecodes(run, m, a.tasks, a.extras);
    DecodeGrows(run, m, Durable(a.extras));
    PlanDecodes(ledger, run, a, now);
  }

  lemma PlanDecodes(ledger: Ledger, run: RunId, a: Admission, now: int)
    requires Plan(ledger, run, a).Ok? && HasMarker(a.extras)
    ensures DecodeMetadata(run, RecordsFor(ledger, run)).Ok?
    ensures DecodeMetadata(run, RecordsFor(StoreAll(ledger, run, Plan(ledger, run, a).value, now), run)) ==
            Decode(run, DecodeMetadata(run, RecordsFor(ledger, run)).value, Durable(a.extras))
  {
    var records, plan := RecordsFor(ledger, run), Plan(ledger, run, a).value;
    var m := DecodeMetadata(run, records).value;
    var admitted := ValidateBatch(TreeTasks(ledger, a.root, a.order).value, a.maxTasks, a.tasks).value;
    var kept := KeptExtras(records, a.extras, true);
    assert plan == TaskExtras(admitted) + kept;
    DecodeStored(ledger, run, plan, now);
    forall e | e in TaskExtras(admitted) ensures !IsMetadata(e.recordType) { TaskExtrasAreTasks(admitted, e); }
    DecodeSkips(run, m, TaskExtras(admitted));
    DecodeAppend(run, m, TaskExtras(admitted), kept);
    SkippingStoredIsHarmless(run, records, a.extras);
  }

  /** Whether an accepted batch stores a marker that was not there before. */
  ghost predicate StoresMarker(ledger: Ledger, run: RunId, a: Admission) {
    exists e :: e in a.extras && e.recordType == BATCH_MARKER && e.durability != Ephemeral
                && !Stored(RecordsFor(ledger, run), e)
  }

  lemma NewMarkersNameTasks(ledger: Ledger, run: RunId, a: Admission, now: int, r: LedgerRecord)
    requires Plan(ledger, run, a).Ok? && HasMarker(a.extras) && r.recordType == BATCH_MARKER
    requires r in RecordsFor(StoreAll(ledger, run, Plan(ledger, run, a).value, now), run)
    requires r !in RecordsFor(ledger, run)
    ensures DecodeBatch(r.payload).Some? && DecodeBatch(r.payload).value.tasks == a.tasks && StoresMarker(ledger, run, a)
  {
    var e := Extra(r.durability, r.recordType, r.payload);
    StoredSince(ledger, run, Plan(ledger, run, a).value, now, r);
    var admitted := ValidateBatch(TreeTasks(ledger, a.root, a.order).value, a.maxTasks, a.tasks).value;
    if e in TaskExtras(admitted) {
      TaskExtrasAreTasks(admitted, e);
    }
    KeptMembers(RecordsFor(ledger, run), a.extras, true, e);
    MarkersNameTasks(run, DecodeMetadata(run, RecordsFor(ledger, run)).value, a.tasks, a.extras, e);
  }

  lemma {:induction false} PendingIsStored(ledger: Ledger, run: RunId, pending: seq<Extra>, now: int, e: Extra)
    requires e in pending
    ensures Stored(RecordsFor(StoreAll(ledger, run, pending, now), run), e)
  {
    InitLast(pending);
    var before := StoreAll(ledger, run, Init(pending), now);
    if e == Last(pending) {
      assert LedgerRecord(before.next + 1, run, now, e.durability, e.recordType, e.payload)
             in RecordsFor(StoreAll(ledger, run, pending, now), run);
    } else {
      assert e in Init(pending);
      PendingIsStored(ledger, run, Init(pending), now, e);
      var r :| r in RecordsFor(before, run) && r.recordType == e.recordType && r.payload == e.payload;
      assert r in RecordsFor(StoreAll(ledger, run, pending, now), run);
    }
  }

  lemma PlannedIsStored(ledger: Ledger, run: RunId, a: Admission, now: int, e: Extra)
    requires Plan(ledger, run, a).Ok? && HasMarker(a.extras)
    requires e in a.extras && e.durability != Ephemeral && e.recordType == BATCH_MARKER
    ensures Stored(RecordsFor(StoreAll(ledger, run, Plan(ledger, run, a).value, now), run), e)
  {
    var records, plan := RecordsFor(ledger, run), Plan(ledger, run, a).value;
    var after := StoreAll(ledger, run, plan, now);
    KeptMembers(records, a.extras, true, e);
    if Stored(records, e) {
      var r :| r in records && r.recordType == e.recordType && r.payload == e.payload;
      StillThere(ledger, run, plan, now, r);
    } else {
      PendingIsStored(ledger, run, plan, now, e);
    }
  }

  lemma {:induction false} StillThere(ledger: Ledger, run: RunId, pending: seq<Extra>, now: int, r: LedgerRecord)
    requires r in RecordsFor(ledger, run)
    ensures r in RecordsFor(StoreAll(ledger, run, pending, now), run)
  {
    if pending != [] {
      StillThere(ledger, run, Init(pending), now, r);
    }
  }

  /** An accepted batch keeps the Run intact exactly when it stores no new marker, or
      the durable records and durable markers alone already staff its tasks. */
  lemma BatchKeepsIntactExactly(ledger: Ledger, run: RunId, a: Admission, now: int)
    requires Intact(RecordsFor(ledger, run), run) && Plan(ledger, run, a).Ok?
    requires HasMarker(a.extras) && OnlyMarkers(a.extras)
    ensures var m := DecodeMetadata(run, RecordsFor(ledger, run)).value;
            && Decode(run, m, Durable(a.extras)).Ok?
            && (Intact(RecordsFor(StoreAll(ledger, run, Plan(ledger, run, a).value, now), run), run) <==>
                (StoresMarker(ledger, run, a) ==>
                   forall t :: t in a.tasks ==> Staffed(t, Decode(run, m, Durable(a.extras)).value)))
  {
    BatchDecodes(ledger, run, a, now);
    var m := DecodeMetadata(run, RecordsFor(ledger, run)).value;
    var after := RecordsFor(StoreAll(ledger, run, Plan(ledger, run, a).value, now), run);
    var m' := Decode(run, m, Durable(a.extras)).value;
    if Intact(after, run) && StoresMarker(ledger, run, a) {
      var e :| e in a.extras && e.recordType == BATCH_MARKER && e.durability != Ephemeral
               && !Stored(RecordsFor(ledger, run), e);
      PlannedIsStored(ledger, run, a, now, e);
      var r :| r in after && r.recordType == e.recordType && r.payload == e.payload;
      MarkersNameTasks(run, m, a.tasks, a.extras, e);
      assert forall t :: t in a.tasks ==> Names(r, t);
    }
    if StoresMarker(ledger, run, a) ==> forall t :: t in a.tasks ==> Staffed(t, m') {
      forall r, t | r in after && Names(r, t) ensures Staffed(t, m') {
        if r in RecordsFor(ledger, run) {
          StaffedAbove(t, m, m');
        } else {
          NewMarkersNameTasks(ledger, run, a, now, r);
        }
      }
    }
  }

  lemma DurableBatchKeepsIntact(ledger: Ledger, run: RunId, a: Admission, now: int)
    requires Intact(RecordsFor(ledger, run), run) && OnlyMarkers(a.extras)
    requires forall e :: e in a.extras && e.recordType == BATCH_MARKER ==> e.durability != Ephemeral
    ensures Intact(RecordsFor(StoreAll(ledger, run, Planned(ledger, run, a), now), run), run)
  {
    if Plan(ledger, run, a).Ok? {
      if HasMarker(a.extras) {
        BatchKeepsIntactExactly(ledger, run, a, now);
        DurableStaffs(ledger, run, a, now);
      } else {
        forall e | e in Planned(ledger, run, a) ensures !IsMetadata(e.recordType) {
          PlainPlan(ledger, run, a, e);
        }
        OthersKeepIntact(ledger, run, Planned(ledger, run, a), now);
      }
    }
  }

  lemma PlainPlan(ledger: Ledger, run: RunId, a: Admission, e: Extra)
    requires Plan(ledger, run, a).Ok? && !HasMarker(a.extras) && OnlyMarkers(a.extras) && e in Planned(ledger, run, a)
    ensures !IsMetadata(e.recordType)
  {
    var admitted := ValidateBatch(TreeTasks(ledger, a.root, a.order).value, a.maxTasks, a.tasks).value;
    if e in TaskExtras(admitted) {
      TaskExtrasAreTasks(admitted, e);
    } else {
      KeptMembers(RecordsFor(ledger, run), a.extras, false, e);
    }
  }

  /** Durable markers decode to exactly the metadata the tasks were validated against. */
  lemma DurableStaffs(ledger: Ledger, run: RunId, a: Admission, now: int)
    requires Plan(ledger, run, a).Ok? && HasMarker(a.extras) && OnlyMarkers(a.extras)
    requires forall e :: e in a.extras && e.recordType == BATCH_MARKER ==> e.durability != Ephemeral
    ensures DecodeMetadata(run, RecordsFor(ledger, run)).Ok?
    ensures var m := DecodeMetadata(run, RecordsFor(ledger, run)).value;
            && Decode(run, m, Durable(a.extras)).Ok?
            && Decode(run, m, Durable(a.extras)) == ApplyMarkers(run, m, a.tasks, a.extras)
            && forall t :: t in a.tasks ==> Staffed(t, Decode(run, m, Durable(a.extras)).value)
  {
    BatchDecodes(ledger, run, a, now);
    DurableMarkersDecode(run, DecodeMetadata(run, RecordsFor(ledger, run)).value, a.tasks, a.extras);
  }

  lemma {:induction false} DurableMarkersDecode(run: RunId, m: Metadata, tasks: seq<TaskRecord>, extras: seq<Extra>)
    requires ApplyMarkers(run, m, tasks, extras).Ok? && OnlyMarkers(extras)
    requires forall e :: e in extras && e.recordType == BATCH_MARKER ==> e.durability != Ephemeral
    ensures Decode(run, m, Durable(extras)) == ApplyMarkers(run, m, tasks, extras)
  {
    if extras != [] {
      InitLast(extras);
      assert forall x :: x in Init(extras) ==> x in extras;
      assert Last(extras) in extras;
      DurableMarkersDecode(run, m, tasks, Init(extras));
      InitOfAppend(Durable(Init(extras)), Last(extras));
      if Last(extras).durability == Ephemeral {
        assert Durable(extras) == Durable(Init(extras));
      }
    }
  }

  // ----- whole runs --------------------------------------------------------------------------------

  /** Collaboration metadata is written only through durable batch markers. */
  ghost predicate OnlyDurableBatches(ledger: Ledger, op: Operation, run: RunId) {
    !op.OpDelete? && Target(op) == run ==>
      if IsAdmission(op) then
        && OnlyMarkers(op.admission.extras)
        && forall e :: e in op.admission.extras && e.recordType == BATCH_MARKER ==> e.durability != Ephemeral
      else forall e :: e in Written(ledger, op) ==> !IsMetadata(e.recordType)
  }

  lemma {:induction false} StoreElsewhere(ledger: Ledger, target: RunId, pending: seq<Extra>, now: int, run: RunId)
    requires target != run
    ensures RecordsFor(StoreAll(ledger, target, pending, now), run) == RecordsFor(ledger, run)
  {
    if pending != [] {
      StoreElsewhere(ledger, target, Init(pending), now, run);
    }
  }

  lemma StepKeepsIntact(ledger: Ledger, op: Operation, run: RunId)
    requires Intact(RecordsFor(ledger, run), run) && BelowLimit(ledger, op) && OnlyDurableBatches(ledger, op, run)
    ensures Intact(RecordsFor(Step(ledger, op).0, run), run)
  {
    var after := Step(ledger, op).0;
    if op.OpDelete? {
      if op.run == run {
        assert RecordsFor(after, run) == [];
      } else {
        assert RecordsFor(after, run) == RecordsFor(ledger, run);
      }
    } else {
      StepStores(ledger, op);
      var written, at := Written(ledger, op), Timestamp(op);
      assert RecordsFor(after, run) == RecordsFor(StoreAll(ledger, Target(op), written, at), run);
      if Target(op) != run {
        StoreElsewhere(ledger, Target(op), written, at, run);
      } else if IsAdmission(op) && Step(ledger, op).1.None? {
        DurableBatchKeepsIntact(ledger, run, op.admission, at);
      } else {
        OthersKeepIntact(ledger, run, written, at);
      }
    }
  }

  /** Over any run in which a Run's team metadata comes only from durable batch
      markers, its records always decode and every task of every marker ever written
      stays staffed. */
  lemma {:induction false} TeamsStayIntact(ops: seq<Operation>, run: RunId)
    requires RunBelowLimit(NewLedger, ops)
    requires forall k :: 0 <= k < |ops| ==> OnlyDurableBatches(Run(NewLedger, ops[..k]), ops[k], run)
    ensures Intact(RecordsFor(Run(NewLedger, ops), run), run)
  {
    if ops != [] {
      BelowLimitInit(NewLedger, ops);
      assert ops[..|ops| - 1] == Init(ops);
      assert forall k :: 0 <= k < |ops| - 1 ==> Init(ops)[..k] == ops[..k] && Init(ops)[k] == ops[k];
      TeamsStayIntact(Init(ops), run);
      StepKeepsIntact(Run(NewLedger, Init(ops)), Last(ops), run);
    }
  }

  // ----- an ephemeral marker is validated but not kept -----------------------------------------

  const LostTeam := TeamRecord("r", "t", "n", "s", Some("c"), false, 1, 1, {})
  const TeamTask := TaskRecord("r", "1", Some("t"), None, Queued, "")
  const LostMarker := Extra(Ephemeral, BATCH_MARKER, BatchDocument([LostTeam], [("t", "c")], [TeamTask]))
  const KeptMarker := Extra(SyncCritical, BATCH_MARKER, BatchDocument([], [], [TeamTask]))
  const MixedBatch := Admission("r", 1, [TeamTask], [LostMarker, KeptMarker], [])
  const NoMetadata := Metadata(map[], {})
  const LostMetadata := Metadata(map["t" := LostTeam], {("t", "c")})

  lemma MixedMarkersApply()
    ensures ApplyMarkers("r", NoMetadata, [TeamTask], [LostMarker, KeptMarker]) == Ok(LostMetadata)
  {
    assert Init([LostMarker, KeptMarker]) == [LostMarker] && Init([LostMarker]) == [] && Init([LostTeam]) == [];
    assert RegisterTeams("r", NoMetadata, [LostTeam]) == Ok(Metadata(map["t" := LostTeam], {}));
    assert {} + Elements([("t", "c")]) == {("t", "c")};
    assert DecodeBatch(LostMarker.payload) == Some(Batch([LostTeam], [("t", "c")], [TeamTask]));
    assert AddMembers(Metadata(map["t" := LostTeam], {}), [("t", "c")]) == LostMetadata;
    assert ApplyMarker("r", NoMetadata, [TeamTask], LostMarker.payload) == Ok(LostMetadata);
    assert ApplyMarkers("r", NoMetadata, [TeamTask], []) == Ok(NoMetadata);
    assert LostMetadata.members + Elements([]) == LostMetadata.members;
  }

  lemma MixedTaskAdmitted()
    ensures ValidateBatch(map[], 1, [TeamTask]) == Ok([TeamTask])
  {
    var existing: map<TaskId, TaskRecord> := map[];
    var empty: seq<TaskRecord> := [];
    assert Init([TeamTask]) == empty;
    assert NewTasks(existing, empty) == Ok(empty);
    assert empty + [TeamTask] == [TeamTask];
    assert |existing| == 0;
  }

  lemma MixedKept(records: seq<LedgerRecord>, batch: bool)
    requires records == []
    ensures KeptExtras(records, MixedBatch.extras, batch) == [KeptMarker]
  {
    var extras := MixedBatch.extras;
    assert Init(extras) == [LostMarker] && Init([LostMarker]) == [];
    assert KeptExtras(records, Init(Init(extras)), batch) == [];
    assert KeptExtras(records, Init(extras), batch) == [];
    assert !Stored(records, KeptMarker);
  }

  lemma MixedPrepared(records: seq<LedgerRecord>)
    requires records == []
    ensures PrepareExtras("r", records, [TeamTask], MixedBatch.extras) == Ok([KeptMarker])
  {
    assert LostMarker in MixedBatch.extras;
    assert DecodeMetadata("r", records) == Ok(NoMetadata);
    MixedMarkersApply();
    NoErrorMeansStaffed([TeamTask], LostMetadata);
    MixedKept(records, true);
  }

  lemma MixedPlan()
    ensures Plan(NewLedger, "r", MixedBatch) == Ok(TaskExtras([TeamTask]) + [KeptMarker])
    ensures HasMarker(MixedBatch.extras) && Durable(MixedBatch.extras) == [KeptMarker]
  {
    assert LostMarker in MixedBatch.extras;
    MixedKept([], false);
    MixedPrepared([]);
    MixedTaskAdmitted();
    assert Init([TeamTask]) == [];
    assert TaskExtras(Init([TeamTask])) == [];
    assert |TaskExtras([TeamTask]) + [KeptMarker]| == 2;
  }

  /** Why the markers must be durable: an ephemeral one can supply the team that a
      stored marker's task then lacks. */
  lemma EphemeralMarkerBreaksTeams()
    ensures Intact(RecordsFor(NewLedger, "r"), "r") && Plan(NewLedger, "r", MixedBatch).Ok?
    ensures OnlyMarkers(MixedBatch.extras)
    ensures !Intact(RecordsFor(StoreAll(NewLedger, "r", Plan(NewLedger, "r", MixedBatch).value, 0), "r"), "r")
  {
    MixedPlan();
    BatchKeepsIntactExactly(NewLedger, "r", MixedBatch, 0);
    assert Decode("r", NoMetadata, [KeptMarker]) == Ok(NoMetadata) by {
      assert Init([KeptMarker]) == [];
      assert NoMetadata.members + Elements([]) == NoMetadata.members;
    }
    assert KeptMarker in MixedBatch.extras && TeamTask in MixedBatch.tasks;
  }
}
