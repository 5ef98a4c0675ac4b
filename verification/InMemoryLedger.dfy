/** The in-memory runtime ledger as the object that is updated in place under one
    lock. Each method is proved equal to the function it is named after. */
module InMemoryLedger {
  import opened Prelude
  import opened LedgerState
  import LedgerTree

  class InMemoryRuntimeLedger {
    var records: map<RunId, seq<LedgerRecord>>
    var nextSequence: nat
    var leases: map<RunId, StoredLease>

    ghost function State(): Ledger
      reads this
    {
      Ledger(records, nextSequence, leases)
    }

    constructor ()
      ensures State() == NewLedger
    {
      records, nextSequence, leases := map[], 0, map[];
    }

    function Of(run: RunId): seq<LedgerRecord>
      reads this
    {
      if run in records then records[run] else []
    }

    method Push(record: LedgerRecord)
      modifies this`records, this`nextSequence
      ensures State() == Store(old(State()), record)
    {
      nextSequence := record.number;
      records := records[record.run := Of(record.run) + [record]];
    }

    method AppendRecord(run: RunId, durability: Durability, recordType: string, payload: Payload, now: int)
      returns (record: LedgerRecord)
      modifies this
      ensures (State(), record) == Append(old(State()), run, durability, recordType, payload, now)
    {
      record := LedgerRecord(SaturatingAdd(nextSequence, 1), run, now, durability, recordType, payload);
      if durability != Ephemeral {
        Push(record);
      }
    }

    method DeleteRunExact(run: RunId) returns (deleted: nat)
      modifies this
      ensures State() == DeleteRun(old(State()), run) && deleted == |RecordsFor(old(State()), run)|
    {
      deleted := |Of(run)|;
      records := records - {run};
    }

    method AcquireLease(run: RunId, owner: string, now: int) returns (answer: Result<Token, LedgerError>)
      modifies this
      ensures (State(), answer) == Acquire(old(State()), run, owner, now)
    {
      if owner == "" { return Err(EmptyOwner); }
      var observed := LastNumber(Of(run));
      var epoch, committed := 0, 0;
      if run in leases {
        var held := leases[run];
        if held.owner.Some? && held.owner.value != owner && held.expires > now { return Err(Contended); }
        if now < held.heartbeat { return Err(ClockRollback); }
        epoch, committed := held.epoch, held.committed;
      }
      if epoch >= U64_MAX { return Err(EpochExhausted); }
      leases := leases[run := StoredLease(Some(owner), epoch + 1, now, LeaseExpiry(now), observed, committed)];
      return Ok(Token(run, owner, epoch + 1, LeaseExpiry(now), observed));
    }

    method RenewLease(token: Token, now: int) returns (answer: Result<Token, LedgerError>)
      modifies this
      ensures (State(), answer) == Renew(old(State()), token, now)
    {
      var error := RequireCurrent(token, now);
      if error.Some? { return Err(error.value); }
      var lease := leases[token.run].(heartbeat := now, expires := LeaseExpiry(now));
      leases := leases[token.run := lease];
      return Ok(token.(expires := lease.expires, observed := lease.observed));
    }

    method RequireCurrent(token: Token, now: int) returns (error: Option<LedgerError>)
      ensures error == CurrentError(State(), token, now)
    {
      if token.run !in leases { return Some(LeaseLost); }
      var lease := leases[token.run];
      if now < lease.heartbeat { return Some(ClockRollback); }
      if lease.owner != Some(token.owner) || lease.epoch != token.epoch || lease.expires <= now {
        return Some(LeaseLost);
      }
      return None;
    }

    method CommitWorkflowRestore(token: Token, expected: nat, now: int)
      returns (answer: Result<RestoreCommit, LedgerError>)
      modifies this
      ensures (State(), answer) == CommitRestore(old(State()), token, expected, now)
    {
      var current := LastNumber(Of(token.run));
      var error := RequireCurrent(token, now);
      if error.Some? { return Err(error.value); }
      var lease := leases[token.run].(heartbeat := now, expires := LeaseExpiry(now), observed := current);
      if current != expected {
        leases := leases[token.run := lease];
        return Ok(Stale(current));
      }
      leases := leases[token.run := lease.(committed := expected)];
      return Ok(Current);
    }

    method ReleaseLease(token: Token) returns (error: Option<LedgerError>)
      modifies this
      ensures (State(), error) == Release(old(State()), token)
    {
      if token.run !in leases { return Some(LeaseLost); }
      var lease := leases[token.run];
      if lease.owner != Some(token.owner) || lease.epoch != token.epoch { return Some(LeaseLost); }
      leases := leases[token.run := lease.(owner := None, heartbeat := 0, expires := 0)];
      return None;
    }

    method AppendUnderLease(token: Token, now: int, durability: Durability, recordType: string, payload: Payload)
      returns (answer: Result<LedgerRecord, LedgerError>)
      modifies this
      ensures (State(), answer) == FencedAppend(old(State()), token, now, durability, recordType, payload)
    {
      if durability == Ephemeral { return Err(EphemeralRecord); }
      var error := RequireCurrent(token, now);
      if error.Some? { return Err(error.value); }
      if nextSequence >= U64_MAX { return Err(SequenceExhausted); }
      var record := LedgerRecord(nextSequence + 1, token.run, now, durability, recordType, payload);
      Push(record);
      leases := leases[token.run := leases[token.run].(observed := record.number)];
      return Ok(record);
    }

    /** The linear scan for records of one type and identity. */
    method FindMatching(run: RunId, recordType: string, fields: seq<string>, identity: Identity)
      returns (matching: Result<seq<LedgerRecord>, LedgerError>)
      ensures matching == Matching(Of(run), recordType, fields, identity)
    {
      var list, found := Of(run), [];
      for i := 0 to |list|
        invariant Matching(list[..i], recordType, fields, identity) == Ok(found)
      {
        assert list[..i + 1] == list[..i] + [list[i]];
        InitOfAppend(list[..i], list[i]);
        if list[i].recordType == recordType {
          var other := CanonicalIdentity(list[i].payload, fields);
          if other.Err? {
            MatchingStaysErr(list, i + 1, recordType, fields, identity);
            return Err(other.error);
          }
          if other.value == identity {
            found := found + [list[i]];
          }
        }
      }
      assert list[..|list|] == list;
      return Ok(found);
    }

    method CompareAndAppendRecord(run: RunId, durability: Durability, recordType: string, fields: seq<string>,
                                  payload: Payload, now: int) returns (answer: Result<LedgerRecord, LedgerError>)
      modifies this
      ensures (State(), answer) == CompareAndAppend(old(State()), run, durability, recordType, fields, payload, now)
    {
      if durability == Ephemeral { return Err(EphemeralRecord); }
      var identity := CanonicalIdentity(payload, fields);
      if identity.Err? { return Err(identity.error); }
      var matching := FindMatching(run, recordType, fields, identity.value);
      if matching.Err? { return Err(matching.error); }
      if |matching.value| > 1 { return Err(DuplicateIdentity); }
      if |matching.value| == 1 { return SamePayload(matching.value[0], payload); }
      if nextSequence >= U64_MAX { return Err(SequenceExhausted); }
      var record := LedgerRecord(nextSequence + 1, run, now, durability, recordType, payload);
      Push(record);
      return Ok(record);
    }

    method CompareAndAppendUnderLease(token: Token, now: int, durability: Durability, recordType: string,
                                      fields: seq<string>, payload: Payload, wallClock: int)
      returns (answer: Result<LedgerRecord, LedgerError>)
      modifies this
      ensures (State(), answer) ==
              FencedCompareAndAppend(old(State()), token, now, durability, recordType, fields, payload, wallClock)
    {
      var error := RequireCurrent(token, now);
      if error.Some? { return Err(error.value); }
      answer := CompareAndAppendRecord(token.run, durability, recordType, fields, payload, wallClock);
      if answer.Err? { return; }
      leases := leases[token.run := leases[token.run].(observed := LastNumber(Of(token.run)))];
    }

    // ----- admission -----------------------------------------------------------------------

    method ExistingRootTasks(root: RunId, order: seq<RunId>)
      returns (answer: Result<map<TaskId, TaskRecord>, LedgerError>)
      ensures answer == TreeTasks(State(), root, order)
    {
      var table: map<TaskId, TaskRecord> := map[];
      for i := 0 to |order|
        invariant TreeTasks(State(), root, order[..i]) == Ok(table)
      {
        assert order[..i + 1] == order[..i] + [order[i]];
        InitOfAppend(order[..i], order[i]);
        if InTree(root, order[i]) {
          var list := Of(order[i]);
          ghost var before := table;
          for j := 0 to |list|
            invariant CollectTasks(before, list[..j]) == Ok(table)
          {
            assert list[..j + 1] == list[..j] + [list[j]];
            InitOfAppend(list[..j], list[j]);
            if list[j].recordType == TASK_CREATED {
              if !list[j].payload.TaskDocument? {
                CollectStaysErr(before, list, j + 1);
                TreeStaysErr(State(), root, order, i + 1);
                return Err(MalformedPayload);
              }
              table := table[list[j].payload.task.id := list[j].payload.task];
            }
          }
          assert list[..|list|] == list;
        }
      }
      assert order[..|order|] == order;
      return Ok(table);
    }

    method Admitted(existing: map<TaskId, TaskRecord>, maxTasks: nat, tasks: seq<TaskRecord>)
      returns (answer: Result<seq<TaskRecord>, LedgerError>)
      ensures answer == ValidateBatch(existing, maxTasks, tasks)
    {
      var batchIds: set<TaskId>, admitted: seq<TaskRecord> := {}, [];
      for i := 0 to |tasks|
        invariant NewTasks(existing, tasks[..i]) == Ok(admitted)
        invariant batchIds == set t | t in admitted :: t.id
      {
        var task := tasks[i];
        assert tasks[..i + 1] == tasks[..i] + [task];
        InitOfAppend(tasks[..i], task);
        if task.id in existing {
          if existing[task.id] != task {
            NewTasksStaysErr(existing, tasks, i + 1);
            return Err(TaskConflict);
          }
        } else {
          if task.id in batchIds {
            NewTasksStaysErr(existing, tasks, i + 1);
            return Err(DuplicateTask);
          }
          batchIds := batchIds + {task.id};
          admitted := admitted + [task];
        }
      }
      assert tasks[..|tasks|] == tasks;
      if |existing| + |admitted| > maxTasks { return Err(QuotaExceeded); }
      return Ok(admitted);
    }

    method StorePending(run: RunId, pending: seq<Extra>, now: int)
      modifies this`records, this`nextSequence
      ensures State() == StoreAll(old(State()), run, pending, now)
    {
      for i := 0 to |pending|
        invariant State() == StoreAll(old(State()), run, pending[..i], now)
      {
        assert pending[..i + 1] == pending[..i] + [pending[i]];
        InitOfAppend(pending[..i], pending[i]);
        var e := pending[i];
        Push(LedgerRecord(nextSequence + 1, run, now, e.durability, e.recordType, e.payload));
      }
      assert pending[..|pending|] == pending;
    }

    /** Every check runs before the first write, so a refused batch changes nothing. */
    method AdmitTasksAndAppend(run: RunId, a: Admission, now: int) returns (answer: Result<seq<Extra>, LedgerError>)
      modifies this`records, this`nextSequence
      ensures (State(), answer) == Admit(old(State()), run, a, now)
      ensures answer.Err? ==> State() == old(State())
    {
      var existing := ExistingRootTasks(a.root, a.order);
      if existing.Err? { return Err(existing.error); }
      var admitted := Admitted(existing.value, a.maxTasks, a.tasks);
      if admitted.Err? { return Err(admitted.error); }
      var extras := PrepareExtras(run, Of(run), a.tasks, a.extras);
      if extras.Err? { return Err(extras.error); }
      var pending := TaskExtras(admitted.value) + extras.value;
      if nextSequence + |pending| > U64_MAX { return Err(SequenceExhausted); }
      StorePending(run, pending, now);
      return Ok(pending);
    }

    method AdmitUnderLease(token: Token, now: int, a: Admission) returns (answer: Result<seq<Extra>, LedgerError>)
      modifies this
      ensures (State(), answer) == FencedAdmit(old(State()), token, now, a)
    {
      var error := RequireCurrent(token, now);
      if error.Some? { return Err(error.value); }
      answer := AdmitTasksAndAppend(token.run, a, now);
      if answer.Err? { return; }
      var list := Of(token.run);
      var observed := if list == [] then token.observed else list[|list| - 1].number;
      leases := leases[token.run :=
                  leases[token.run].(heartbeat := now, expires := LeaseExpiry(now), observed := observed)];
    }

    // ----- reading a tree --------------------------------------------------------------------

    method ReadAfterTree(root: RunId, after: nat, limit: nat, order: seq<RunId>) returns (page: seq<LedgerRecord>)
      ensures page == LedgerTree.RecordsAfterTree(State(), root, after, limit, order)
    {
      var collected: seq<LedgerRecord> := [];
      for i := 0 to |order|
        invariant collected == LedgerTree.Collect(State(), root, after, order[..i])
      {
        assert order[..i + 1] == order[..i] + [order[i]];
        InitOfAppend(order[..i], order[i]);
        if InTree(root, order[i]) {
          collected := collected + LedgerTree.After(Of(order[i]), after);
        }
      }
      assert order[..|order|] == order;
      return LedgerTree.Take(LedgerTree.SortByNumber(collected), limit);
    }
  }

  // ----- an error met by a scan is the answer of the whole scan --------------------------------

  lemma {:induction false} MatchingStaysErr(list: seq<LedgerRecord>, k: nat, recordType: string, fields: seq<string>,
                                            identity: Identity)
    requires k <= |list| && Matching(list[..k], recordType, fields, identity).Err?
    ensures Matching(list, recordType, fields, identity) == Matching(list[..k], recordType, fields, identity)
  {
    if k == |list| {
      assert list[..k] == list;
    } else {
      assert Init(list)[..k] == list[..k];
      MatchingStaysErr(Init(list), k, recordType, fields, identity);
    }
  }

  lemma {:induction false} CollectStaysErr(table: map<TaskId, TaskRecord>, list: seq<LedgerRecord>, k: nat)
    requires k <= |list| && CollectTasks(table, list[..k]).Err?
    ensures CollectTasks(table, list) == CollectTasks(table, list[..k])
  {
    if k == |list| {
      assert list[..k] == list;
    } else {
      assert Init(list)[..k] == list[..k];
      CollectStaysErr(table, Init(list), k);
    }
  }

  lemma {:induction false} TreeStaysErr(ledger: Ledger, root: RunId, order: seq<RunId>, k: nat)
    requires k <= |order| && TreeTasks(ledger, root, order[..k]).Err?
    ensures TreeTasks(ledger, root, order) == TreeTasks(ledger, root, order[..k])
  {
    if k == |order| {
      assert order[..k] == order;
    } else {
      assert Init(order)[..k] == order[..k];
      TreeStaysErr(ledger, root, Init(order), k);
    }
  }

  lemma {:induction false} NewTasksStaysErr(existing: map<TaskId, TaskRecord>, tasks: seq<TaskRecord>, k: nat)
    requires k <= |tasks| && NewTasks(existing, tasks[..k]).Err?
    ensures NewTasks(existing, tasks) == NewTasks(existing, tasks[..k])
  {
    if k == |tasks| {
      assert tasks[..k] == tasks;
    } else {
      assert Init(tasks)[..k] == tasks[..k];
      NewTasksStaysErr(existing, Init(tasks), k);
    }
  }
}
