/** Atomic task admission over whole runs: the tree quota, and the integrity of the
    teams that admitted tasks belong to. */
module LedgerAdmission {
  import opened Prelude
  import opened LedgerState
  import opened LedgerSequences

  // ----- the tasks charged to a tree ----------------------------------------------------

  ghost predicate TaskIn(ledger: Ledger, root: RunId, run: RunId, r: LedgerRecord) {
    InTree(root, run) && Has(ledger, run, r) && r.recordType == TASK_CREATED
  }

  ghost predicate AllTasks(ledger: Ledger, root: RunId) {
    forall run, r :: TaskIn(ledger, root, run, r) ==> r.payload.TaskDocument?
  }

  predicate SameTaskId(r1: LedgerRecord, r2: LedgerRecord) {
    r1.payload.TaskDocument? && r2.payload.TaskDocument? && r1.payload.task.id == r2.payload.task.id
  }

  /** Each task id is on one record of the tree. */
  ghost predicate UniqueTasks(ledger: Ledger, root: RunId) {
    forall run1, r1, run2, r2 ::
      TaskIn(ledger, root, run1, r1) && TaskIn(ledger, root, run2, r2) && SameTaskId(r1, r2) ==> r1 == r2
  }

  ghost function TaskIds(ledger: Ledger, root: RunId): set<TaskId> {
    set run, r | run in ledger.records && r in ledger.records[run] && TaskIn(ledger, root, run, r)
                 && r.payload.TaskDocument? :: r.payload.task.id
  }

  ghost predicate WithinQuota(ledger: Ledger, root: RunId, maxTasks: nat) {
    AllTasks(ledger, root) && UniqueTasks(ledger, root) && |TaskIds(ledger, root)| <= maxTasks
  }

  lemma TaskIdIn(ledger: Ledger, root: RunId, id: TaskId)
    ensures id in TaskIds(ledger, root) <==>
            exists run, r :: TaskIn(ledger, root, run, r) && r.payload.TaskDocument? && r.payload.task.id == id
  {
    if exists run, r :: TaskIn(ledger, root, run, r) && r.payload.TaskDocument? && r.payload.task.id == id {
      var run, r :| TaskIn(ledger, root, run, r) && r.payload.TaskDocument? && r.payload.task.id == id;
      assert run in ledger.records && r in ledger.records[run];
    }
  }

  // ----- what the admission reads ----------------------------------------------------------

  ghost predicate RecordedIn(records: seq<LedgerRecord>, task: TaskRecord) {
    exists r :: r in records && r.recordType == TASK_CREATED && r.payload == TaskDocument(task)
  }

  ghost predicate Charged(ledger: Ledger, root: RunId, task: TaskRecord) {
    exists run :: InTree(root, run) && RecordedIn(RecordsFor(ledger, run), task)
  }

  lemma ChargedIs(ledger: Ledger, root: RunId, task: TaskRecord) returns (run: RunId, r: LedgerRecord)
    requires Charged(ledger, root, task)
    ensures TaskIn(ledger, root, run, r) && r.payload == TaskDocument(task)
  {
    run :| InTree(root, run) && RecordedIn(RecordsFor(ledger, run), task);
    r :| r in RecordsFor(ledger, run) && r.recordType == TASK_CREATED && r.payload == TaskDocument(task);
  }

  lemma TaskInIsCharged(ledger: Ledger, root: RunId, run: RunId, r: LedgerRecord)
    requires TaskIn(ledger, root, run, r) && r.payload.TaskDocument?
    ensures Charged(ledger, root, r.payload.task)
  {
    assert RecordedIn(RecordsFor(ledger, run), r.payload.task);
  }

  lemma {:induction false} CollectTable(table: map<TaskId, TaskRecord>, records: seq<LedgerRecord>)
    requires forall r :: r in records && r.recordType == TASK_CREATED ==> r.payload.TaskDocument?
    ensures var collected := CollectTasks(table, records);
            && collected.Ok? && table.Keys <= collected.value.Keys
            && (forall task :: RecordedIn(records, task) ==> task.id in collected.value)
            && (forall id :: id in collected.value ==>
                               || (id in table && collected.value[id] == table[id])
                               || (collected.value[id].id == id && RecordedIn(records, collected.value[id])))
  {
    if records != [] {
      InitLast(records);
      var before, last := Init(records), Last(records);
      assert forall r :: r in records <==> r in before || r == last;
      CollectTable(table, before);
      assert forall task :: RecordedIn(before, task) ==> RecordedIn(records, task);
      assert last.recordType == TASK_CREATED ==> RecordedIn(records, last.payload.task);
      forall task | RecordedIn(records, task) && !RecordedIn(before, task)
        ensures last.recordType == TASK_CREATED && last.payload == TaskDocument(task)
      {
        var r :| r in records && r.recordType == TASK_CREATED && r.payload == TaskDocument(task);
        assert r == last;
      }
    }
  }

  /** Whatever the iteration order, the table reads tasks of the tree only, and all
      those of the Runs iterated. */
  lemma {:induction false} TreeTable(ledger: Ledger, root: RunId, order: seq<RunId>)
    requires AllTasks(ledger, root)
    ensures var table := TreeTasks(ledger, root, order);
            && table.Ok?
            && (forall id :: id in table.value ==> table.value[id].id == id && Charged(ledger, root, table.value[id]))
            && (forall run, task :: run in order && InTree(root, run) && RecordedIn(RecordsFor(ledger, run), task) ==>
                                      task.id in table.value)
  {
    if order != [] {
      InitLast(order);
      TreeTable(ledger, root, Init(order));
      var run := Last(order);
      if InTree(root, run) {
        forall r | r in RecordsFor(ledger, run) && r.recordType == TASK_CREATED ensures r.payload.TaskDocument? {
          assert TaskIn(ledger, root, run, r);
        }
        CollectTable(TreeTasks(ledger, root, Init(order)).value, RecordsFor(ledger, run));
      }
      assert forall x :: x in order <==> x in Init(order) || x == run;
    }
  }

  /** Iterating all Runs reads exactly the tree's tasks: its ids, each with its record. */
  lemma TreeTableExact(ledger: Ledger, root: RunId, order: seq<RunId>)
    requires AllTasks(ledger, root) && UniqueTasks(ledger, root) && Elements(order) == ledger.records.Keys
    ensures var table := TreeTasks(ledger, root, order);
            && table.Ok? && table.value.Keys == TaskIds(ledger, root)
            && forall task :: Charged(ledger, root, task) ==> task.id in table.value && table.value[task.id] == task
  {
    TreeTable(ledger, root, order);
    var table := TreeTasks(ledger, root, order).value;
    forall task | Charged(ledger, root, task) ensures task.id in table && table[task.id] == task {
      var run, r := ChargedIs(ledger, root, task);
      assert RecordedIn(RecordsFor(ledger, run), task);
      assert run in Elements(order);
      var run2, r2 := ChargedIs(ledger, root, table[task.id]);
    }
    forall id ensures id in table <==> id in TaskIds(ledger, root) {
      TaskIdIn(ledger, root, id);
      if id in table {
        var run, r := ChargedIs(ledger, root, table[id]);
      }
      if id in TaskIds(ledger, root) {
        var run, r :| TaskIn(ledger, root, run, r) && r.payload.TaskDocument? && r.payload.task.id == id;
        TaskInIsCharged(ledger, root, run, r);
      }
    }
  }

  // ----- storing ---------------------------------------------------------------------------------

  lemma StoreOther(ledger: Ledger, root: RunId, record: LedgerRecord)
    requires !InTree(root, record.run) || record.recordType != TASK_CREATED
    ensures AllTasks(ledger, root) ==> AllTasks(Store(ledger, record), root)
    ensures UniqueTasks(ledger, root) ==> UniqueTasks(Store(ledger, record), root)
    ensures TaskIds(Store(ledger, record), root) == TaskIds(ledger, root)
  {
    var after := Store(ledger, record);
    StoreMembers(ledger, record);
    assert forall run, r :: TaskIn(after, root, run, r) <==> TaskIn(ledger, root, run, r);
    forall id ensures id in TaskIds(after, root) <==> id in TaskIds(ledger, root) {
      TaskIdIn(after, root, id);
      TaskIdIn(ledger, root, id);
    }
  }

  lemma StoreTaskIds(ledger: Ledger, root: RunId, record: LedgerRecord, task: TaskRecord)
    requires InTree(root, record.run) && record.recordType == TASK_CREATED && record.payload == TaskDocument(task)
    ensures TaskIds(Store(ledger, record), root) == TaskIds(ledger, root) + {task.id}
  {
    var after := Store(ledger, record);
    StoreMembers(ledger, record);
    forall id ensures id in TaskIds(after, root) <==> id in TaskIds(ledger, root) + {task.id} {
      TaskIdIn(after, root, id);
      TaskIdIn(ledger, root, id);
      assert TaskIn(after, root, record.run, record);
      assert forall run, r :: TaskIn(after, root, run, r) <==>
                              TaskIn(ledger, root, run, r) || (run == record.run && r == record);
    }
  }

  /** No task record of the tree has this id. */
  ghost predicate Unused(ledger: Ledger, root: RunId, id: TaskId) {
    forall run, r :: TaskIn(ledger, root, run, r) && r.payload.TaskDocument? ==> r.payload.task.id != id
  }

  lemma UnusedIs(ledger: Ledger, root: RunId, id: TaskId)
    ensures Unused(ledger, root, id) <==> id !in TaskIds(ledger, root)
  {
    TaskIdIn(ledger, root, id);
  }

  lemma StoreTaskUnique(ledger: Ledger, root: RunId, record: LedgerRecord, task: TaskRecord)
    requires InTree(root, record.run) && record.recordType == TASK_CREATED && record.payload == TaskDocument(task)
    requires AllTasks(ledger, root) && UniqueTasks(ledger, root) && Unused(ledger, root, task.id)
    ensures AllTasks(Store(ledger, record), root) && UniqueTasks(Store(ledger, record), root)
  {
    StoreMembers(ledger, record);
    assert forall run, r :: TaskIn(Store(ledger, record), root, run, r) <==>
                            TaskIn(ledger, root, run, r) || (run == record.run && r == record);
  }

  ghost predicate DistinctTasks(tasks: seq<TaskRecord>) {
    forall i, j :: 0 <= i < j < |tasks| ==> tasks[i].id != tasks[j].id
  }

  function IdsOf(tasks: seq<TaskRecord>): set<TaskId> {
    set t | t in tasks :: t.id
  }

  lemma IdsOfStep(tasks: seq<TaskRecord>)
    requires tasks != []
    ensures IdsOf(tasks) == IdsOf(Init(tasks)) + {Last(tasks).id}
  {
    InitLast(tasks);
    assert forall t :: t in tasks <==> t in Init(tasks) || t == Last(tasks);
  }

  lemma StoreTaskLast(ledger: Ledger, run: RunId, tasks: seq<TaskRecord>, now: int)
    requires tasks != []
    ensures var before := StoreAll(ledger, run, TaskExtras(Init(tasks)), now);
            StoreAll(ledger, run, TaskExtras(tasks), now) == Store(before, TaskEntry(before, run, Last(tasks), now))
  {
    InitOfAppend(TaskExtras(Init(tasks)), Extra(SyncCritical, TASK_CREATED, TaskDocument(Last(tasks))));
  }

  function TaskEntry(ledger: Ledger, run: RunId, task: TaskRecord, now: int): LedgerRecord {
    LedgerRecord(ledger.next + 1, run, now, SyncCritical, TASK_CREATED, TaskDocument(task))
  }

  lemma {:induction false} StoreTasksIds(ledger: Ledger, root: RunId, run: RunId, tasks: seq<TaskRecord>, now: int)
    requires InTree(root, run)
    ensures TaskIds(StoreAll(ledger, run, TaskExtras(tasks), now), root) == TaskIds(ledger, root) + IdsOf(tasks)
  {
    if tasks == [] {
      assert TaskIds(ledger, root) + IdsOf(tasks) == TaskIds(ledger, root);
    } else {
      StoreTasksIds(ledger, root, run, Init(tasks), now);
      var before := StoreAll(ledger, run, TaskExtras(Init(tasks)), now);
      StoreTaskIds(before, root, TaskEntry(before, run, Last(tasks), now), Last(tasks));
      StoreTaskLast(ledger, run, tasks, now);
      IdsOfStep(tasks);
    }
  }

  lemma {:induction false} StoreTasksUnique(ledger: Ledger, root: RunId, run: RunId, tasks: seq<TaskRecord>, now: int)
    requires InTree(root, run) && AllTasks(ledger, root) && UniqueTasks(ledger, root) && DistinctTasks(tasks)
    requires IdsOf(tasks) !! TaskIds(ledger, root)
    ensures AllTasks(StoreAll(ledger, run, TaskExtras(tasks), now), root)
    ensures UniqueTasks(StoreAll(ledger, run, TaskExtras(tasks), now), root)
  {
    if tasks != [] {
      IdsOfStep(tasks);
      StoreTasksUnique(ledger, root, run, Init(tasks), now);
      var before := StoreAll(ledger, run, TaskExtras(Init(tasks)), now);
      assert Unused(before, root, Last(tasks).id) by {
        StoreTasksIds(ledger, root, run, Init(tasks), now);
        UnusedIs(before, root, Last(tasks).id);
      }
      StoreTaskUnique(before, root, TaskEntry(before, run, Last(tasks), now), Last(tasks));
      StoreTaskLast(ledger, run, tasks, now);
    }
  }

  lemma {:induction false} IdsOfSize(tasks: seq<TaskRecord>)
    requires DistinctTasks(tasks)
    ensures |IdsOf(tasks)| == |tasks|
  {
    if tasks != [] {
      IdsOfSize(Init(tasks));
      IdsOfStep(tasks);
      assert Last(tasks).id !in IdsOf(Init(tasks));
    }
  }

  lemma DisjointSize(a: set<TaskId>, b: set<TaskId>)
    requires a !! b
    ensures |a + b| == |a| + |b|
  {
  }

  lemma {:induction false} StoreOthers(ledger: Ledger, root: RunId, run: RunId, pending: seq<Extra>, now: int)
    requires AllTasks(ledger, root) && UniqueTasks(ledger, root)
    requires !InTree(root, run) || forall e :: e in pending ==> e.recordType != TASK_CREATED
    ensures var after := StoreAll(ledger, run, pending, now);
            AllTasks(after, root) && UniqueTasks(after, root) && TaskIds(after, root) == TaskIds(ledger, root)
  {
    if pending != [] {
      InitLast(pending);
      assert forall e :: e in Init(pending) ==> e in pending;
      assert Last(pending) in pending;
      StoreOthers(ledger, root, run, Init(pending), now);
      var before, e := StoreAll(ledger, run, Init(pending), now), Last(pending);
      StoreOther(before, root, LedgerRecord(before.next + 1, run, now, e.durability, e.recordType, e.payload));
    }
  }

  lemma {:induction false} StoreAllAppend(ledger: Ledger, run: RunId, p: seq<Extra>, q: seq<Extra>, now: int)
    ensures StoreAll(ledger, run, p + q, now) == StoreAll(StoreAll(ledger, run, p, now), run, q, now)
  {
    if q == [] {
      assert p + q == p;
    } else {
      assert Init(p + q) == p + Init(q) && Last(p + q) == Last(q);
      StoreAllAppend(ledger, run, p, Init(q), now);
    }
  }

  lemma {:induction false} NewTasksAreNew(existing: map<TaskId, TaskRecord>, tasks: seq<TaskRecord>)
    requires NewTasks(existing, tasks).Ok?
    ensures var new_ := NewTasks(existing, tasks).value;
            DistinctTasks(new_) && forall t :: t in new_ ==> t.id !in existing && t in tasks
  {
    if tasks != [] {
      InitLast(tasks);
      NewTasksAreNew(existing, Init(tasks));
      assert forall t :: t in Init(tasks) ==> t in tasks;
    }
  }

  lemma {:induction false} KeptMembers(records: seq<LedgerRecord>, extras: seq<Extra>, batch: bool, e: Extra)
    ensures e in KeptExtras(records, extras, batch) <==>
            && e in extras && e.durability != Ephemeral
            && !(batch && e.recordType == BATCH_MARKER && Stored(records, e))
  {
    if extras != [] {
      InitLast(extras);
      KeptMembers(records, Init(extras), batch, e);
    }
  }

  // ----- the quota over whole runs -------------------------------------------------------------------

  predicate IsAdmission(op: Operation) {
    op.OpAdmit? || op.OpFencedAdmit?
  }

  /** Tasks reach the tree only through admissions charged to its root and quota. */
  ghost predicate ThroughRoot(ledger: Ledger, op: Operation, root: RunId, maxTasks: nat) {
    !op.OpDelete? && InTree(root, Target(op)) ==>
      if IsAdmission(op) then
        && op.admission.root == root && op.admission.maxTasks == maxTasks
        && Elements(op.admission.order) == ledger.records.Keys
        && forall e :: e in op.admission.extras ==> e.recordType != TASK_CREATED
      else forall e :: e in Written(ledger, op) ==> e.recordType != TASK_CREATED
  }

  lemma NewIdsAreNew(existing: map<TaskId, TaskRecord>, maxTasks: nat, tasks: seq<TaskRecord>)
    requires ValidateBatch(existing, maxTasks, tasks).Ok?
    ensures var admitted := ValidateBatch(existing, maxTasks, tasks).value;
            DistinctTasks(admitted) && IdsOf(admitted) !! existing.Keys && |existing.Keys| + |admitted| <= maxTasks
  {
    NewTasksAreNew(existing, tasks);
    assert |existing| == |existing.Keys|;
  }

  lemma PlanParts(ledger: Ledger, run: RunId, a: Admission)
    returns (existing: map<TaskId, TaskRecord>, admitted: seq<TaskRecord>, extras: seq<Extra>)
    requires Plan(ledger, run, a).Ok?
    ensures TreeTasks(ledger, a.root, a.order) == Ok(existing)
    ensures ValidateBatch(existing, a.maxTasks, a.tasks) == Ok(admitted)
    ensures PrepareExtras(run, RecordsFor(ledger, run), a.tasks, a.extras) == Ok(extras)
    ensures Planned(ledger, run, a) == TaskExtras(admitted) + extras
  {
    existing := TreeTasks(ledger, a.root, a.order).value;
    admitted := ValidateBatch(existing, a.maxTasks, a.tasks).value;
    extras := PrepareExtras(run, RecordsFor(ledger, run), a.tasks, a.extras).value;
  }

  lemma PreparedAreExtras(run: RunId, records: seq<LedgerRecord>, a: Admission, e: Extra)
    requires PrepareExtras(run, records, a.tasks, a.extras).Ok?
    requires e in PrepareExtras(run, records, a.tasks, a.extras).value
    ensures e in a.extras
  {
    KeptMembers(records, a.extras, HasMarker(a.extras), e);
  }

  lemma AdmissionWithinQuota(ledger: Ledger, run: RunId, a: Admission, now: int)
    requires WithinQuota(ledger, a.root, a.maxTasks) && InTree(a.root, run)
    requires Elements(a.order) == ledger.records.Keys
    requires forall e :: e in a.extras ==> e.recordType != TASK_CREATED
    ensures WithinQuota(StoreAll(ledger, run, Planned(ledger, run, a), now), a.root, a.maxTasks)
  {
    if Plan(ledger, run, a).Ok? {
      TreeTableExact(ledger, a.root, a.order);
      var existing, admitted, extras := PlanParts(ledger, run, a);
      NewIdsAreNew(existing, a.maxTasks, a.tasks);
      forall e | e in extras ensures e.recordType != TASK_CREATED {
        PreparedAreExtras(run, RecordsFor(ledger, run), a, e);
      }
      StoreBatch(ledger, a.root, run, admitted, extras, now);
    }
  }

  lemma StoreBatch(ledger: Ledger, root: RunId, run: RunId, tasks: seq<TaskRecord>, extras: seq<Extra>, now: int)
    requires InTree(root, run) && AllTasks(ledger, root) && UniqueTasks(ledger, root) && DistinctTasks(tasks)
    requires IdsOf(tasks) !! TaskIds(ledger, root) && forall e :: e in extras ==> e.recordType != TASK_CREATED
    ensures var after := StoreAll(ledger, run, TaskExtras(tasks) + extras, now);
            && AllTasks(after, root) && UniqueTasks(after, root)
            && |TaskIds(after, root)| == |TaskIds(ledger, root)| + |tasks|
  {
    StoreAllAppend(ledger, run, TaskExtras(tasks), extras, now);
    StoreTasksUnique(ledger, root, run, tasks, now);
    StoreTasksIds(ledger, root, run, tasks, now);
    IdsOfSize(tasks);
    DisjointSize(TaskIds(ledger, root), IdsOf(tasks));
    StoreOthers(StoreAll(ledger, run, TaskExtras(tasks), now), root, run, extras, now);
  }

  lemma QuotaIgnoresLeases(ledger: Ledger, leases: map<RunId, StoredLease>, root: RunId, maxTasks: nat)
    requires WithinQuota(ledger, root, maxTasks)
    ensures WithinQuota(ledger.(leases := leases), root, maxTasks)
    ensures TaskIds(ledger.(leases := leases), root) == TaskIds(ledger, root)
  {
    var l := ledger.(leases := leases);
    assert forall run, r :: TaskIn(l, root, run, r) <==> TaskIn(ledger, root, run, r);
    forall id ensures id in TaskIds(l, root) <==> id in TaskIds(ledger, root) {
      TaskIdIn(l, root, id);
      TaskIdIn(ledger, root, id);
    }
    assert TaskIds(l, root) == TaskIds(ledger, root);
  }

  lemma DeleteWithinQuota(ledger: Ledger, run: RunId, root: RunId, maxTasks: nat)
    requires WithinQuota(ledger, root, maxTasks)
    ensures WithinQuota(DeleteRun(ledger, run), root, maxTasks)
  {
    var after := DeleteRun(ledger, run);
    assert forall x, r :: TaskIn(after, root, x, r) <==> x != run && TaskIn(ledger, root, x, r);
    forall id | id in TaskIds(after, root) ensures id in TaskIds(ledger, root) {
      TaskIdIn(after, root, id);
      TaskIdIn(ledger, root, id);
    }
    SubsetSize(TaskIds(after, root), TaskIds(ledger, root));
  }

  lemma SubsetSize(a: set<TaskId>, b: set<TaskId>)
    requires a <= b
    ensures |a| <= |b|
  {
    assert b == a + (b - a);
  }

  lemma StepWithinQuota(ledger: Ledger, op: Operation, root: RunId, maxTasks: nat)
    requires WithinQuota(ledger, root, maxTasks) && BelowLimit(ledger, op) && ThroughRoot(ledger, op, root, maxTasks)
    ensures WithinQuota(Step(ledger, op).0, root, maxTasks)
  {
    if op.OpDelete? {
      DeleteWithinQuota(ledger, op.run, root, maxTasks);
    } else {
      StepStores(ledger, op);
      var run, written, at := Target(op), Written(ledger, op), Timestamp(op);
      if InTree(root, run) && IsAdmission(op) && Step(ledger, op).1.None? {
        AdmissionWithinQuota(ledger, run, op.admission, at);
      } else {
        StoreOthers(ledger, root, run, written, at);
      }
      QuotaIgnoresLeases(StoreAll(ledger, run, written, at), Step(ledger, op).0.leases, root, maxTasks);
    }
  }

  /** However many admissions race for a tree, it never holds more tasks than the
      quota, and no task id is on two of its records. */
  lemma {:induction false} TreeQuotaHolds(ops: seq<Operation>, root: RunId, maxTasks: nat)
    requires RunBelowLimit(NewLedger, ops)
    requires forall k :: 0 <= k < |ops| ==> ThroughRoot(Run(NewLedger, ops[..k]), ops[k], root, maxTasks)
    ensures WithinQuota(Run(NewLedger, ops), root, maxTasks)
  {
    if ops == [] {
      assert TaskIds(NewLedger, root) == {};
    } else {
      BelowLimitInit(NewLedger, ops);
      assert ops[..|ops| - 1] == Init(ops);
      assert forall k :: 0 <= k < |ops| - 1 ==> Init(ops)[..k] == ops[..k] && Init(ops)[k] == ops[k];
      TreeQuotaHolds(Init(ops), root, maxTasks);
      StepWithinQuota(Run(NewLedger, Init(ops)), Last(ops), root, maxTasks);
    }
  }
}
