/** The in-memory runtime ledger as a value: records by Run, one global sequence
    counter, and one workflow mutation lease per Run. */
module LedgerState {
  import opened Prelude

  type RunId = string
  type TeamId = string
  type AgentId = string
  type TaskId = string

  datatype Durability = SyncCritical | AsyncDurable | Ephemeral

  datatype TaskState = Created | Queued | Assigned | Running | Completed | Failed | Skipped | Cancelled

  /** `details` stands for the fields admission only compares. */
  datatype TaskRecord = TaskRecord(run: RunId, id: TaskId, team: Option<TeamId>, owner: Option<AgentId>,
                                   state: TaskState, details: string)

  datatype TeamRecord = TeamRecord(run: RunId, id: TeamId, name: string, strategy: string,
                                   coordinator: Option<AgentId>, directPeerMessaging: bool,
                                   maxPending: nat, maxBytes: nat, members: set<AgentId>)

  /** A JSON document. Typed documents are their own constructors; any other object
      maps field names to the text of their values. */
  datatype Payload =
    | Document(fields: map<string, string>)
    | Scalar(text: string)
    | TaskDocument(task: TaskRecord)
    | TeamDocument(team: TeamRecord)
    | MemberDocument(teamId: Option<TeamId>, agentId: Option<AgentId>)
    | BatchDocument(teams: seq<TeamRecord>, memberships: seq<(TeamId, AgentId)>, tasks: seq<TaskRecord>)

  datatype LedgerRecord = LedgerRecord(number: nat, run: RunId, timestamp: int, durability: Durability,
                                       recordType: string, payload: Payload)

  datatype StoredLease = StoredLease(owner: Option<string>, epoch: nat, heartbeat: int, expires: int,
                                     observed: nat, committed: nat)

  datatype Token = Token(run: RunId, owner: string, epoch: nat, expires: int, observed: nat)

  datatype Ledger = Ledger(records: map<RunId, seq<LedgerRecord>>, next: nat, leases: map<RunId, StoredLease>)

  const NewLedger := Ledger(map[], 0, map[])

  datatype LedgerError =
    | SequenceExhausted | EphemeralRecord
    | EmptyOwner | Contended | LeaseLost | ClockRollback | EpochExhausted
    | EmptyIdentity | DuplicateField | NotAnObject | MissingField | DuplicateIdentity | DifferentPayload
    | MalformedPayload | WrongRun | InvalidLimits | TeamConflict | UnknownTeam | TasksMismatch
    | TaskConflict | DuplicateTask | QuotaExceeded | NoCoordinator | NotAMember | TaskStateRefused
    | DigestMismatch

  // ----- records ---------------------------------------------------------------------

  function RecordsFor(ledger: Ledger, run: RunId): seq<LedgerRecord> {
    if run in ledger.records then ledger.records[run] else []
  }

  function LastNumber(records: seq<LedgerRecord>): nat {
    if records == [] then 0 else Last(records).number
  }

  function LastSequence(ledger: Ledger, run: RunId): nat {
    LastNumber(RecordsFor(ledger, run))
  }

  /** Stores one record under its Run and moves the counter to its number. */
  function Store(ledger: Ledger, record: LedgerRecord): Ledger {
    ledger.(records := ledger.records[record.run := RecordsFor(ledger, record.run) + [record]],
            next := record.number)
  }

  function Append(ledger: Ledger, run: RunId, durability: Durability, recordType: string, payload: Payload, now: int):
    (Ledger, LedgerRecord)
  {
    var record := LedgerRecord(SaturatingAdd(ledger.next, 1), run, now, durability, recordType, payload);
    (if durability == Ephemeral then ledger else Store(ledger, record), record)
  }

  function DeleteRun(ledger: Ledger, run: RunId): Ledger {
    ledger.(records := ledger.records - {run})
  }

  // ----- workflow mutation leases ------------------------------------------------------

  const LEASE_MILLIS := 90_000
  const I64_MAX := 0x7FFF_FFFF_FFFF_FFFF

  function LeaseExpiry(now: int): int {
    if now + LEASE_MILLIS <= I64_MAX then now + LEASE_MILLIS else I64_MAX
  }

  function CurrentError(ledger: Ledger, token: Token, now: int): Option<LedgerError> {
    if token.run !in ledger.leases then Some(LeaseLost)
    else
      var lease := ledger.leases[token.run];
      if now < lease.heartbeat then Some(ClockRollback)
      else if lease.owner != Some(token.owner) || lease.epoch != token.epoch || lease.expires <= now then Some(LeaseLost)
      else None
  }

  function Acquire(ledger: Ledger, run: RunId, owner: string, now: int): (Ledger, Result<Token, LedgerError>) {
    var known := run in ledger.leases;
    var held := if known then ledger.leases[run] else StoredLease(None, 0, 0, 0, 0, 0);
    if owner == "" then (ledger, Err(EmptyOwner))
    else if known && held.owner.Some? && held.owner.value != owner && held.expires > now then (ledger, Err(Contended))
    else if known && now < held.heartbeat then (ledger, Err(ClockRollback))
    else if held.epoch >= U64_MAX then (ledger, Err(EpochExhausted))
    else
      var observed := LastSequence(ledger, run);
      var lease := StoredLease(Some(owner), held.epoch + 1, now, LeaseExpiry(now), observed, held.committed);
      (ledger.(leases := ledger.leases[run := lease]),
       Ok(Token(run, owner, held.epoch + 1, LeaseExpiry(now), observed)))
  }

  function Renew(ledger: Ledger, token: Token, now: int): (Ledger, Result<Token, LedgerError>) {
    var error := CurrentError(ledger, token, now);
    if error.Some? then (ledger, Err(error.value))
    else
      var lease := ledger.leases[token.run].(heartbeat := now, expires := LeaseExpiry(now));
      (ledger.(leases := ledger.leases[token.run := lease]),
       Ok(token.(expires := lease.expires, observed := lease.observed)))
  }

  datatype RestoreCommit = Current | Stale(currentSequence: nat)

  function CommitRestore(ledger: Ledger, token: Token, expected: nat, now: int):
    (Ledger, Result<RestoreCommit, LedgerError>)
  {
    var error := CurrentError(ledger, token, now);
    var last := LastSequence(ledger, token.run);
    if error.Some? then (ledger, Err(error.value))
    else
      var lease := ledger.leases[token.run].(heartbeat := now, expires := LeaseExpiry(now), observed := last);
      if last != expected then (ledger.(leases := ledger.leases[token.run := lease]), Ok(Stale(last)))
      else (ledger.(leases := ledger.leases[token.run := lease.(committed := expected)]), Ok(Current))
  }

  function Release(ledger: Ledger, token: Token): (Ledger, Option<LedgerError>) {
    if token.run !in ledger.leases then (ledger, Some(LeaseLost))
    else
      var lease := ledger.leases[token.run];
      if lease.owner != Some(token.owner) || lease.epoch != token.epoch then (ledger, Some(LeaseLost))
      else (ledger.(leases := ledger.leases[token.run := lease.(owner := None, heartbeat := 0, expires := 0)]), None)
  }

  function Observed(ledger: Ledger, run: RunId, observed: nat): Ledger
    requires run in ledger.leases
  {
    ledger.(leases := ledger.leases[run := ledger.leases[run].(observed := observed)])
  }

  function FencedAppend(ledger: Ledger, token: Token, now: int, durability: Durability, recordType: string,
                        payload: Payload): (Ledger, Result<LedgerRecord, LedgerError>)
  {
    var error := CurrentError(ledger, token, now);
    if durability == Ephemeral then (ledger, Err(EphemeralRecord))
    else if error.Some? then (ledger, Err(error.value))
    else if ledger.next >= U64_MAX then (ledger, Err(SequenceExhausted))
    else
      var record := LedgerRecord(ledger.next + 1, token.run, now, durability, recordType, payload);
      (Observed(Store(ledger, record), token.run, record.number), Ok(record))
  }

  // ----- compare and append --------------------------------------------------------------

  function Fields(payload: Payload): Option<map<string, string>> {
    match payload
    case Document(fields) => Some(fields)
    case Scalar(_) => None
    case TaskDocument(task) => Some(map["run_id" := task.run, "task_id" := task.id])
    case TeamDocument(team) => Some(map["run_id" := team.run, "team_id" := team.id])
    case MemberDocument(t, a) =>
      Some((if t.Some? then map["team_id" := t.value] else map[]) +
           (if a.Some? then map["agent_id" := a.value] else map[]))
    case BatchDocument(_, _, _) => Some(map[])
  }

  type Identity = map<string, string>

  /** The identity of a payload: its values at the identity fields. */
  function CanonicalIdentity(payload: Payload, identityFields: seq<string>): Result<Identity, LedgerError> {
    var fields := Fields(payload);
    if identityFields == [] then Err(EmptyIdentity)
    else if |Elements(identityFields)| != |identityFields| then Err(DuplicateField)
    else if fields.None? then Err(NotAnObject)
    else if !(Elements(identityFields) <= fields.value.Keys) then Err(MissingField)
    else Ok(map f | f in Elements(identityFields) :: fields.value[f])
  }

  /** Records of one type with one identity, or the first error met on the way. */
  function Matching(records: seq<LedgerRecord>, recordType: string, identityFields: seq<string>, identity: Identity):
    Result<seq<LedgerRecord>, LedgerError>
  {
    if records == [] then Ok([])
    else
      var before := Matching(Init(records), recordType, identityFields, identity);
      if before.Err? || Last(records).recordType != recordType then before
      else
        var found := CanonicalIdentity(Last(records).payload, identityFields);
        if found.Err? then Err(found.error)
        else if found.value == identity then Ok(before.value + [Last(records)])
        else before
  }

  function SamePayload(record: LedgerRecord, payload: Payload): Result<LedgerRecord, LedgerError> {
    if record.payload == payload then Ok(record) else Err(DifferentPayload)
  }

  function CompareAndAppend(ledger: Ledger, run: RunId, durability: Durability, recordType: string,
                            identityFields: seq<string>, payload: Payload, now: int):
    (Ledger, Result<LedgerRecord, LedgerError>)
  {
    var identity := CanonicalIdentity(payload, identityFields);
    if durability == Ephemeral then (ledger, Err(EphemeralRecord))
    else if identity.Err? then (ledger, Err(identity.error))
    else
      var matching := Matching(RecordsFor(ledger, run), recordType, identityFields, identity.value);
      if matching.Err? then (ledger, Err(matching.error))
      else if |matching.value| > 1 then (ledger, Err(DuplicateIdentity))
      else if |matching.value| == 1 then (ledger, SamePayload(matching.value[0], payload))
      else if ledger.next >= U64_MAX then (ledger, Err(SequenceExhausted))
      else
        var record := LedgerRecord(ledger.next + 1, run, now, durability, recordType, payload);
        (Store(ledger, record), Ok(record))
  }

  function FencedCompareAndAppend(ledger: Ledger, token: Token, now: int, durability: Durability, recordType: string,
                                  identityFields: seq<string>, payload: Payload, wallClock: int):
    (Ledger, Result<LedgerRecord, LedgerError>)
  {
    var error := CurrentError(ledger, token, now);
    if error.Some? then (ledger, Err(error.value))
    else
      var (after, answer) := CompareAndAppend(ledger, token.run, durability, recordType, identityFields, payload, wallClock);
      if answer.Err? then (ledger, answer)
      else (after.(leases := after.leases[token.run :=
                     ledger.leases[token.run].(observed := LastSequence(after, token.run))]), answer)
  }

  // ----- task admission --------------------------------------------------------------------

  const BATCH_MARKER := "collaboration_batch_prepared"
  const TEAM_MARKER := "collaboration_team_prepared"
  const TEAM_CREATED := "team_created"
  const MEMBER_JOINED := "team_member_joined"
  const TASK_CREATED := "task_created"

  const DEFAULT_MAX_PENDING_MESSAGES: nat := 64
  const DEFAULT_MAX_MESSAGE_BYTES: nat := 65_536

  datatype Metadata = Metadata(teams: map<TeamId, TeamRecord>, members: set<(TeamId, AgentId)>)

  datatype Extra = Extra(durability: Durability, recordType: string, payload: Payload)

  datatype Batch = Batch(teams: seq<TeamRecord>, memberships: seq<(TeamId, AgentId)>, tasks: seq<TaskRecord>)

  /** Missing lists decode as empty; a field that is not such a list is an error. */
  function DecodeBatch(payload: Payload): Option<Batch> {
    match payload
    case BatchDocument(teams, memberships, tasks) => Some(Batch(teams, memberships, tasks))
    case Document(fields) =>
      if "teams" in fields || "memberships" in fields || "tasks" in fields then None else Some(Batch([], [], []))
    case _ => Some(Batch([], [], []))
  }

  predicate SameMetadata(left: TeamRecord, right: TeamRecord) {
    left.(members := {}) == right.(members := {})
  }

  predicate LimitsValid(team: TeamRecord) {
    1 <= team.maxPending <= DEFAULT_MAX_PENDING_MESSAGES && 1 <= team.maxBytes <= DEFAULT_MAX_MESSAGE_BYTES
  }

  function RegisterTeam(run: RunId, metadata: Metadata, team: TeamRecord): Result<Metadata, LedgerError> {
    if team.run != run then Err(WrongRun)
    else if !LimitsValid(team) then Err(InvalidLimits)
    else if team.id in metadata.teams then
      if SameMetadata(metadata.teams[team.id], team) then Ok(metadata) else Err(TeamConflict)
    else Ok(metadata.(teams := metadata.teams[team.id := team]))
  }

  function RegisterTeams(run: RunId, metadata: Metadata, teams: seq<TeamRecord>): Result<Metadata, LedgerError> {
    if teams == [] then Ok(metadata)
    else
      var before := RegisterTeams(run, metadata, Init(teams));
      if before.Err? then before else RegisterTeam(run, before.value, Last(teams))
  }

  function AddMembers(metadata: Metadata, memberships: seq<(TeamId, AgentId)>): Metadata {
    metadata.(members := metadata.members + Elements(memberships))
  }

  function ObserveMetadata(run: RunId, metadata: Metadata, recordType: string, payload: Payload):
    Result<Metadata, LedgerError>
  {
    if recordType == TEAM_CREATED then
      if payload.TeamDocument? then RegisterTeam(run, metadata, payload.team) else Err(MalformedPayload)
    else if recordType == TEAM_MARKER || recordType == BATCH_MARKER then
      var batch := DecodeBatch(payload);
      if batch.None? then Err(MalformedPayload)
      else
        var registered := RegisterTeams(run, metadata, batch.value.teams);
        if registered.Err? then registered else Ok(AddMembers(registered.value, batch.value.memberships))
    else if recordType == MEMBER_JOINED then
      if payload.MemberDocument? && payload.teamId.Some? && payload.agentId.Some?
      then Ok(AddMembers(metadata, [(payload.teamId.value, payload.agentId.value)]))
      else Err(MalformedPayload)
    else Ok(metadata)
  }

  /** Decodes the collaboration metadata a Run's records establish. */
  function DecodeMetadata(run: RunId, records: seq<LedgerRecord>): Result<Metadata, LedgerError> {
    if records == [] then Ok(Metadata(map[], {}))
    else
      var before := DecodeMetadata(run, Init(records));
      if before.Err? then before
      else ObserveMetadata(run, before.value, Last(records).recordType, Last(records).payload)
  }

  function TaskError(task: TaskRecord, metadata: Metadata): Option<LedgerError> {
    if task.team.None? then None
    else if task.team.value !in metadata.teams then Some(UnknownTeam)
    else
      var team := task.team.value;
      var coordinator := metadata.teams[team].coordinator;
      if coordinator.None? then Some(NoCoordinator)
      else if (team, coordinator.value) !in metadata.members then Some(NotAMember)
      else match task.state
        case Created => Some(TaskStateRefused)
        case Queued => if task.owner.Some? then Some(TaskStateRefused) else None
        case Assigned => OwnerError(task, team, metadata)
        case Running => OwnerError(task, team, metadata)
        case _ => if task.owner.Some? then OwnerError(task, team, metadata) else None
  }

  function OwnerError(task: TaskRecord, team: TeamId, metadata: Metadata): Option<LedgerError> {
    if task.owner.None? then Some(TaskStateRefused)
    else if (team, task.owner.value) !in metadata.members then Some(NotAMember)
    else None
  }

  function TasksError(tasks: seq<TaskRecord>, metadata: Metadata): Option<LedgerError> {
    if tasks == [] then None
    else
      var before := TasksError(Init(tasks), metadata);
      if before.Some? then before else TaskError(Last(tasks), metadata)
  }

  function ApplyMarker(run: RunId, metadata: Metadata, tasks: seq<TaskRecord>, payload: Payload):
    Result<Metadata, LedgerError>
  {
    var batch := DecodeBatch(payload);
    if batch.None? then Err(MalformedPayload)
    else if batch.value.tasks != tasks then Err(TasksMismatch)
    else
      var registered := RegisterTeams(run, metadata, batch.value.teams);
      if registered.Err? then registered
      else if exists m | m in batch.value.memberships :: m.0 !in registered.value.teams then Err(UnknownTeam)
      else Ok(AddMembers(registered.value, batch.value.memberships))
  }

  function ApplyMarkers(run: RunId, metadata: Metadata, tasks: seq<TaskRecord>, extras: seq<Extra>):
    Result<Metadata, LedgerError>
  {
    if extras == [] then Ok(metadata)
    else
      var before := ApplyMarkers(run, metadata, tasks, Init(extras));
      if before.Err? || Last(extras).recordType != BATCH_MARKER then before
      else ApplyMarker(run, before.value, tasks, Last(extras).payload)
  }

  predicate HasMarker(extras: seq<Extra>) {
    exists e | e in extras :: e.recordType == BATCH_MARKER
  }

  predicate Stored(records: seq<LedgerRecord>, extra: Extra) {
    exists r | r in records :: r.recordType == extra.recordType && r.payload == extra.payload
  }

  /** Durable extras, except batch markers that are already stored when a batch is
      being admitted. */
  function KeptExtras(records: seq<LedgerRecord>, extras: seq<Extra>, batch: bool): seq<Extra> {
    if extras == [] then []
    else
      var e := Last(extras);
      KeptExtras(records, Init(extras), batch) +
      if e.durability == Ephemeral || (batch && e.recordType == BATCH_MARKER && Stored(records, e)) then [] else [e]
  }

  function PrepareExtras(run: RunId, records: seq<LedgerRecord>, tasks: seq<TaskRecord>, extras: seq<Extra>):
    Result<seq<Extra>, LedgerError>
  {
    if !HasMarker(extras) then Ok(KeptExtras(records, extras, false))
    else
      var existing := DecodeMetadata(run, records);
      if existing.Err? then Err(existing.error)
      else
        var applied := ApplyMarkers(run, existing.value, tasks, extras);
        if applied.Err? then Err(applied.error)
        else
          var error := TasksError(tasks, applied.value);
          if error.Some? then Err(error.value) else Ok(KeptExtras(records, extras, true))
  }

  function Prefixed(prefix: string, id: RunId): bool {
    prefix <= id
  }

  predicate InTree(root: RunId, run: RunId) {
    run == root || Prefixed(root + ":", run)
  }

  /** Adds the tasks of one Run's `task_created` records to the table. */
  function CollectTasks(table: map<TaskId, TaskRecord>, records: seq<LedgerRecord>):
    Result<map<TaskId, TaskRecord>, LedgerError>
  {
    if records == [] then Ok(table)
    else
      var before := CollectTasks(table, Init(records));
      if before.Err? || Last(records).recordType != TASK_CREATED then before
      else if !Last(records).payload.TaskDocument? then Err(MalformedPayload)
      else Ok(before.value[Last(records).payload.task.id := Last(records).payload.task])
  }

  /** Tasks charged to `root`. `order` is the order in which the hash table of Runs
      happens to be iterated. */
  function TreeTasks(ledger: Ledger, root: RunId, order: seq<RunId>): Result<map<TaskId, TaskRecord>, LedgerError> {
    if order == [] then Ok(map[])
    else
      var before := TreeTasks(ledger, root, Init(order));
      if before.Err? || !InTree(root, Last(order)) then before
      else CollectTasks(before.value, RecordsFor(ledger, Last(order)))
  }

  /** The tasks of a batch that are not yet stored, or why the batch is refused. */
  function NewTasks(existing: map<TaskId, TaskRecord>, tasks: seq<TaskRecord>): Result<seq<TaskRecord>, LedgerError> {
    if tasks == [] then Ok([])
    else
      var before := NewTasks(existing, Init(tasks));
      var task := Last(tasks);
      if before.Err? then before
      else if task.id in existing then if existing[task.id] == task then before else Err(TaskConflict)
      else if exists t | t in before.value :: t.id == task.id then Err(DuplicateTask)
      else Ok(before.value + [task])
  }

  function ValidateBatch(existing: map<TaskId, TaskRecord>, maxTasks: nat, tasks: seq<TaskRecord>):
    Result<seq<TaskRecord>, LedgerError>
  {
    var admitted := NewTasks(existing, tasks);
    if admitted.Err? then admitted
    else if |existing| + |admitted.value| > maxTasks then Err(QuotaExceeded)
    else admitted
  }

  function TaskExtras(tasks: seq<TaskRecord>): seq<Extra> {
    if tasks == [] then []
    else TaskExtras(Init(tasks)) + [Extra(SyncCritical, TASK_CREATED, TaskDocument(Last(tasks)))]
  }

  function StoreAll(ledger: Ledger, run: RunId, pending: seq<Extra>, now: int): Ledger {
    if pending == [] then ledger
    else
      var before := StoreAll(ledger, run, Init(pending), now);
      var e := Last(pending);
      Store(before, LedgerRecord(before.next + 1, run, now, e.durability, e.recordType, e.payload))
  }

  datatype Admission = Admission(root: RunId, maxTasks: nat, tasks: seq<TaskRecord>, extras: seq<Extra>,
                                 order: seq<RunId>)

  /** What an admission would append, decided before anything is written. */
  function Plan(ledger: Ledger, run: RunId, a: Admission): Result<seq<Extra>, LedgerError> {
    var existing := TreeTasks(ledger, a.root, a.order);
    if existing.Err? then Err(existing.error)
    else
      var admitted := ValidateBatch(existing.value, a.maxTasks, a.tasks);
      if admitted.Err? then Err(admitted.error)
      else
        var extras := PrepareExtras(run, RecordsFor(ledger, run), a.tasks, a.extras);
        if extras.Err? then extras
        else
          var pending := TaskExtras(admitted.value) + extras.value;
          if ledger.next + |pending| > U64_MAX then Err(SequenceExhausted) else Ok(pending)
  }

  function Admit(ledger: Ledger, run: RunId, a: Admission, now: int): (Ledger, Result<seq<Extra>, LedgerError>) {
    var plan := Plan(ledger, run, a);
    if plan.Err? then (ledger, plan) else (StoreAll(ledger, run, plan.value, now), plan)
  }

  function FencedAdmit(ledger: Ledger, token: Token, now: int, a: Admission):
    (Ledger, Result<seq<Extra>, LedgerError>)
  {
    var error := CurrentError(ledger, token, now);
    if error.Some? then (ledger, Err(error.value))
    else
      var (after, answer) := Admit(ledger, token.run, a, now);
      if answer.Err? then (ledger, answer)
      else
        var records := RecordsFor(after, token.run);
        var observed := if records == [] then token.observed else Last(records).number;
        var lease := ledger.leases[token.run].(heartbeat := now, expires := LeaseExpiry(now), observed := observed);
        (after.(leases := after.leases[token.run := lease]), answer)
  }

  // ----- whole runs --------------------------------------------------------------------------

  datatype Operation =
    | OpAppend(run: RunId, durability: Durability, recordType: string, payload: Payload, now: int)
    | OpFencedAppend(token: Token, now: int, durability: Durability, recordType: string, payload: Payload)
    | OpCompare(run: RunId, durability: Durability, recordType: string, fields: seq<string>, payload: Payload, now: int)
    | OpFencedCompare(token: Token, now: int, durability: Durability, recordType: string, fields: seq<string>,
                      payload: Payload, wallClock: int)
    | OpAdmit(run: RunId, admission: Admission, now: int)
    | OpFencedAdmit(token: Token, now: int, admission: Admission)
    | OpDelete(run: RunId)
    | OpAcquire(run: RunId, owner: string, now: int)
    | OpRenew(token: Token, now: int)
    | OpCommitRestore(token: Token, expected: nat, now: int)
    | OpRelease(token: Token)

  function ErrorOf<T>(answer: Result<T, LedgerError>): Option<LedgerError> {
    if answer.Ok? then None else Some(answer.error)
  }

  function Step(ledger: Ledger, op: Operation): (Ledger, Option<LedgerError>) {
    match op
    case OpAppend(run, durability, recordType, payload, now) =>
      (Append(ledger, run, durability, recordType, payload, now).0, None)
    case OpFencedAppend(token, now, durability, recordType, payload) =>
      var (after, answer) := FencedAppend(ledger, token, now, durability, recordType, payload);
      (after, ErrorOf(answer))
    case OpCompare(run, durability, recordType, fields, payload, now) =>
      var (after, answer) := CompareAndAppend(ledger, run, durability, recordType, fields, payload, now);
      (after, ErrorOf(answer))
    case OpFencedCompare(token, now, durability, recordType, fields, payload, wallClock) =>
      var (after, answer) :=
        FencedCompareAndAppend(ledger, token, now, durability, recordType, fields, payload, wallClock);
      (after, ErrorOf(answer))
    case OpAdmit(run, admission, now) =>
      var (after, answer) := Admit(ledger, run, admission, now);
      (after, ErrorOf(answer))
    case OpFencedAdmit(token, now, admission) =>
      var (after, answer) := FencedAdmit(ledger, token, now, admission);
      (after, ErrorOf(answer))
    case OpDelete(run) => (DeleteRun(ledger, run), None)
    case OpAcquire(run, owner, now) =>
      var (after, answer) := Acquire(ledger, run, owner, now);
      (after, ErrorOf(answer))
    case OpRenew(token, now) =>
      var (after, answer) := Renew(ledger, token, now);
      (after, ErrorOf(answer))
    case OpCommitRestore(token, expected, now) =>
      var (after, answer) := CommitRestore(ledger, token, expected, now);
      (after, ErrorOf(answer))
    case OpRelease(token) => Release(ledger, token)
  }

  // ----- what an operation stores ---------------------------------------------------------------

  function Target(op: Operation): RunId {
    match op
    case OpAppend(run, _, _, _, _) => run
    case OpCompare(run, _, _, _, _, _) => run
    case OpAdmit(run, _, _) => run
    case OpDelete(run) => run
    case OpAcquire(run, _, _) => run
    case _ => op.token.run
  }

  function Timestamp(op: Operation): int {
    match op
    case OpFencedCompare(_, _, _, _, _, _, wallClock) => wallClock
    case OpRelease(_) => 0
    case OpDelete(_) => 0
    case _ => op.now
  }

  /** The records an operation stores under its target Run. */
  function Written(ledger: Ledger, op: Operation): seq<Extra> {
    if Step(ledger, op).1.Some? then []
    else match op
      case OpAppend(_, durability, recordType, payload, _) =>
        if durability == Ephemeral then [] else [Extra(durability, recordType, payload)]
      case OpFencedAppend(_, _, durability, recordType, payload) => [Extra(durability, recordType, payload)]
      case OpCompare(run, durability, recordType, fields, payload, _) =>
        if Bound(ledger, run, recordType, fields, payload) then [] else [Extra(durability, recordType, payload)]
      case OpFencedCompare(token, _, durability, recordType, fields, payload, _) =>
        if Bound(ledger, token.run, recordType, fields, payload) then [] else [Extra(durability, recordType, payload)]
      case OpAdmit(run, admission, _) => Planned(ledger, run, admission)
      case OpFencedAdmit(token, _, admission) => Planned(ledger, token.run, admission)
      case _ => []
  }

  predicate Bound(ledger: Ledger, run: RunId, recordType: string, fields: seq<string>, payload: Payload) {
    var identity := CanonicalIdentity(payload, fields);
    identity.Ok? && var matching := Matching(RecordsFor(ledger, run), recordType, fields, identity.value);
    matching.Ok? && matching.value != []
  }

  function Planned(ledger: Ledger, run: RunId, a: Admission): seq<Extra> {
    var plan := Plan(ledger, run, a);
    if plan.Ok? then plan.value else []
  }

  function Run(ledger: Ledger, ops: seq<Operation>): Ledger {
    if ops == [] then ledger else Step(Run(ledger, Init(ops)), Last(ops)).0
  }
}
