/** Exactly which admissions are accepted and what they store, told by the tasks, teams
    and members that the records of a Run name. */
module LedgerBatches {
  import opened Prelude
  import opened LedgerState
  import opened LedgerSequences
  import opened LedgerAdmission
  import opened LedgerTeams

  // ----- what records say about teams --------------------------------------------------------

  predicate IsMarker(recordType: string) {
    recordType == "collaboration_batch_prepared" || recordType == "collaboration_team_prepared"
  }

  /** The teams one record declares. */
  function Declared(e: Extra): seq<TeamRecord> {
    if e.recordType == "team_created" && e.payload.TeamDocument? then [e.payload.team]
    else if IsMarker(e.recordType) && e.payload.BatchDocument? then e.payload.teams
    else []
  }

  function Joined(e: Extra): set<(TeamId, AgentId)> {
    if IsMarker(e.recordType) && e.payload.BatchDocument? then Elements(e.payload.memberships)
    else if e.recordType == "team_member_joined" && e.payload.MemberDocument? && e.payload.teamId.Some? && e.payload.agentId.Some?
    then {(e.payload.teamId.value, e.payload.agentId.value)}
    else {}
  }

  /** A record about teams holds the document its type calls for; a marker may leave its
      lists out, but not hold something else under their names. */
  predicate WellTyped(e: Extra) {
    && (e.recordType == "team_created" ==> e.payload.TeamDocument?)
    && (e.recordType == "team_member_joined" ==>
          e.payload.MemberDocument? && e.payload.teamId.Some? && e.payload.agentId.Some?)
    && (IsMarker(e.recordType) && e.payload.Document? ==>
          "teams" !in e.payload.fields && "memberships" !in e.payload.fields && "tasks" !in e.payload.fields)
  }

  function TeamsOf(items: seq<Extra>): seq<TeamRecord> {
    if items == [] then [] else TeamsOf(Init(items)) + Declared(Last(items))
  }

  function MembersOf(items: seq<Extra>): set<(TeamId, AgentId)> {
    if items == [] then {} else MembersOf(Init(items)) + Joined(Last(items))
  }

  /** Two declarations of a team may list different members only. */
  predicate Agree(a: TeamRecord, b: TeamRecord) {
    && a.run == b.run && a.id == b.id && a.name == b.name && a.strategy == b.strategy && a.coordinator == b.coordinator
    && a.directPeerMessaging == b.directPeerMessaging && a.maxPending == b.maxPending && a.maxBytes == b.maxBytes
  }

  predicate Allowed(run: RunId, t: TeamRecord) {
    t.run == run && 1 <= t.maxPending <= 64 && 1 <= t.maxBytes <= 65_536
  }

  ghost predicate Consistent(run: RunId, teams: seq<TeamRecord>) {
    && (forall t :: t in teams ==> Allowed(run, t))
    && (forall t, u :: t in teams && u in teams && t.id == u.id ==> Agree(t, u))
  }

  ghost predicate Names(teams: seq<TeamRecord>, id: TeamId) {
    exists t :: t in teams && t.id == id
  }

  /** The metadata holds one declaration of each team in the list, and no other team. */
  ghost predicate Sums(m: Metadata, teams: seq<TeamRecord>) {
    && (forall id :: id in m.teams <==> Names(teams, id))
    && (forall id :: id in m.teams ==> m.teams[id] in teams && m.teams[id].id == id)
  }

  lemma SameMetadataIsAgree(a: TeamRecord, b: TeamRecord)
    requires a.id == b.id
    ensures SameMetadata(a, b) <==> Agree(a, b)
  {
  }

  lemma ConsistentPrefix(run: RunId, known: seq<TeamRecord>, more: seq<TeamRecord>)
    requires Consistent(run, known + more)
    ensures Consistent(run, known)
  {
    assert forall t :: t in known ==> t in known + more;
  }

  lemma ConsistentOneMore(run: RunId, m: Metadata, known: seq<TeamRecord>, t: TeamRecord)
    requires Consistent(run, known) && Sums(m, known)
    ensures Consistent(run, known + [t]) <==> Allowed(run, t) && (t.id in m.teams ==> Agree(m.teams[t.id], t))
  {
    assert t in known + [t];
    assert forall u :: u in known + [t] <==> u in known || u == t;
    if t.id !in m.teams {
      assert !Names(known, t.id);
    }
  }

  lemma RegisterOneExactly(run: RunId, m: Metadata, known: seq<TeamRecord>, t: TeamRecord)
    requires Consistent(run, known) && Sums(m, known)
    ensures RegisterTeam(run, m, t).Ok? <==> Consistent(run, known + [t])
    ensures RegisterTeam(run, m, t).Ok? ==>
              Sums(RegisterTeam(run, m, t).value, known + [t]) && RegisterTeam(run, m, t).value.members == m.members
  {
    ConsistentOneMore(run, m, known, t);
    if t.id in m.teams {
      SameMetadataIsAgree(m.teams[t.id], t);
    }
    forall id ensures Names(known + [t], id) <==> Names(known, id) || id == t.id {
      assert t in known + [t];
      assert forall u :: u in known + [t] <==> u in known || u == t;
    }
  }

  /** Teams register exactly when they agree with those known and with each other. */
  lemma {:induction false} RegistersExactly(run: RunId, m: Metadata, known: seq<TeamRecord>, teams: seq<TeamRecord>)
    requires Consistent(run, known) && Sums(m, known)
    ensures var r := RegisterTeams(run, m, teams);
            && (r.Ok? <==> Consistent(run, known + teams))
            && (r.Ok? ==> Sums(r.value, known + teams) && r.value.members == m.members)
  {
    if teams == [] {
      assert known + teams == known;
    } else {
      assert known + teams == (known + Init(teams)) + [Last(teams)];
      RegistersExactly(run, m, known, Init(teams));
      if Consistent(run, known + Init(teams)) {
        RegisterOneExactly(run, RegisterTeams(run, m, Init(teams)).value, known + Init(teams), Last(teams));
      } else if Consistent(run, known + teams) {
        ConsistentPrefix(run, known + Init(teams), [Last(teams)]);
        assert false;
      }
    }
  }

  lemma ObservesExactly(run: RunId, m: Metadata, known: seq<TeamRecord>, e: Extra)
    requires Consistent(run, known) && Sums(m, known)
    ensures var r := ObserveMetadata(run, m, e.recordType, e.payload);
            && (r.Ok? <==> WellTyped(e) && Consistent(run, known + Declared(e)))
            && (r.Ok? ==> Sums(r.value, known + Declared(e)) && r.value.members == m.members + Joined(e))
  {
    assert known + [] == known;
    if e.recordType == TEAM_CREATED && e.payload.TeamDocument? {
      RegisterOneExactly(run, m, known, e.payload.team);
    } else if IsMarker(e.recordType) && e.payload.BatchDocument? {
      RegistersExactly(run, m, known, e.payload.teams);
    }
  }

  lemma {:induction false} DecodesExactly(run: RunId, m: Metadata, known: seq<TeamRecord>, items: seq<Extra>)
    requires Consistent(run, known) && Sums(m, known)
    ensures var r := Decode(run, m, items);
            && (r.Ok? <==> (forall e :: e in items ==> WellTyped(e)) && Consistent(run, known + TeamsOf(items)))
            && (r.Ok? ==> Sums(r.value, known + TeamsOf(items)) && r.value.members == m.members + MembersOf(items))
  {
    if items == [] {
      assert known + TeamsOf(items) == known;
    } else {
      var before := Init(items);
      DecodesExactly(run, m, known, before);
      assert known + TeamsOf(items) == (known + TeamsOf(before)) + Declared(Last(items));
      assert forall e :: e in items <==> e in before || e == Last(items);
      if Decode(run, m, before).Ok? {
        ObservesExactly(run, Decode(run, m, before).value, known + TeamsOf(before), Last(items));
      } else if Consistent(run, known + TeamsOf(items)) {
        ConsistentPrefix(run, known + TeamsOf(before), Declared(Last(items)));
      }
    }
  }

  /** The records of a Run without their numbers and times. */
  function Items(records: seq<LedgerRecord>): seq<Extra> {
    if records == [] then []
    else Items(Init(records)) + [Extra(Last(records).durability, Last(records).recordType, Last(records).payload)]
  }

  lemma {:induction false} ItemsDecode(run: RunId, records: seq<LedgerRecord>)
    ensures DecodeMetadata(run, records) == Decode(run, Metadata(map[], {}), Items(records))
  {
    if records != [] {
      ItemsDecode(run, Init(records));
      InitOfAppend(Items(Init(records)), Extra(Last(records).durability, Last(records).recordType, Last(records).payload));
    }
  }

  /** The metadata of a Run's records decodes exactly when all are of their type and all
      team declarations are allowed and agree; it holds just these teams and members. */
  lemma MetadataExactly(run: RunId, records: seq<LedgerRecord>)
    ensures var r, items := DecodeMetadata(run, records), Items(records);
            && (r.Ok? <==> (forall e :: e in items ==> WellTyped(e)) && Consistent(run, TeamsOf(items)))
            && (r.Ok? ==> Sums(r.value, TeamsOf(items)) && r.value.members == MembersOf(items))
  {
    ItemsDecode(run, records);
    DecodesExactly(run, Metadata(map[], {}), [], Items(records));
    assert [] + TeamsOf(Items(records)) == TeamsOf(Items(records));
    assert {} + MembersOf(Items(records)) == MembersOf(Items(records));
  }

  // ----- markers of a batch ----------------------------------------------------------------------

  function Listed(payload: Payload): seq<TaskRecord> {
    if payload.BatchDocument? then payload.tasks else []
  }

  function Markers(extras: seq<Extra>): seq<Extra> {
    if extras == [] then []
    else Markers(Init(extras)) + if Last(extras).recordType == "collaboration_batch_prepared" then [Last(extras)] else []
  }

  /** Every marker lists the batch's own tasks, and has members only for teams declared up
      to and with it. */
  ghost predicate Fitting(known: seq<TeamRecord>, tasks: seq<TaskRecord>, markers: seq<Extra>) {
    markers != [] ==>
      && Fitting(known, tasks, Init(markers))
      && WellTyped(Last(markers)) && Listed(Last(markers).payload) == tasks
      && forall j :: j in Joined(Last(markers)) ==> Names(known + TeamsOf(markers), j.0)
  }

  lemma MarkerExactly(run: RunId, m: Metadata, known: seq<TeamRecord>, tasks: seq<TaskRecord>, e: Extra)
    requires Consistent(run, known) && Sums(m, known) && e.recordType == BATCH_MARKER
    ensures var r := ApplyMarker(run, m, tasks, e.payload);
            && (r.Ok? <==>
                  && WellTyped(e) && Listed(e.payload) == tasks && Consistent(run, known + Declared(e))
                  && forall j :: j in Joined(e) ==> Names(known + Declared(e), j.0))
            && (r.Ok? ==> Sums(r.value, known + Declared(e)) && r.value.members == m.members + Joined(e))
  {
    MarkerDecodes(e);
    RegistersExactly(run, m, known, Declared(e));
  }

  lemma MarkerDecodes(e: Extra)
    requires e.recordType == BATCH_MARKER
    ensures DecodeBatch(e.payload).Some? <==> WellTyped(e)
    ensures WellTyped(e) ==>
              var batch := DecodeBatch(e.payload).value;
              batch.teams == Declared(e) && Elements(batch.memberships) == Joined(e) && batch.tasks == Listed(e.payload)
  {
  }

  lemma {:induction false} MarkersExactly(run: RunId, m: Metadata, known: seq<TeamRecord>, tasks: seq<TaskRecord>,
                                          extras: seq<Extra>)
    requires Consistent(run, known) && Sums(m, known)
    ensures var r, markers := ApplyMarkers(run, m, tasks, extras), Markers(extras);
            && (r.Ok? <==> Fitting(known, tasks, markers) && Consistent(run, known + TeamsOf(markers)))
            && (r.Ok? ==> Sums(r.value, known + TeamsOf(markers)) && r.value.members == m.members + MembersOf(markers))
  {
    if extras == [] {
      assert known + TeamsOf(Markers(extras)) == known;
    } else {
      MarkersExactly(run, m, known, tasks, Init(extras));
      if Last(extras).recordType == BATCH_MARKER {
        LastMarker(run, m, known, tasks, extras);
      } else {
        assert Markers(extras) == Markers(Init(extras));
      }
    }
  }

  lemma LastMarker(run: RunId, m: Metadata, known: seq<TeamRecord>, tasks: seq<TaskRecord>, extras: seq<Extra>)
    requires Consistent(run, known) && Sums(m, known) && extras != [] && Last(extras).recordType == BATCH_MARKER
    requires var r, markers := ApplyMarkers(run, m, tasks, Init(extras)), Markers(Init(extras));
             && (r.Ok? <==> Fitting(known, tasks, markers) && Consistent(run, known + TeamsOf(markers)))
             && (r.Ok? ==> Sums(r.value, known + TeamsOf(markers)) && r.value.members == m.members + MembersOf(markers))
    ensures var r, markers := ApplyMarkers(run, m, tasks, extras), Markers(extras);
            && (r.Ok? <==> Fitting(known, tasks, markers) && Consistent(run, known + TeamsOf(markers)))
            && (r.Ok? ==> Sums(r.value, known + TeamsOf(markers)) && r.value.members == m.members + MembersOf(markers))
  {
    var before, e := Markers(Init(extras)), Last(extras);
    InitOfAppend(before, e);
    assert known + TeamsOf(Markers(extras)) == (known + TeamsOf(before)) + Declared(e);
    if ApplyMarkers(run, m, tasks, Init(extras)).Ok? {
      MarkerExactly(run, ApplyMarkers(run, m, tasks, Init(extras)).value, known + TeamsOf(before), tasks, e);
    } else if Consistent(run, known + TeamsOf(Markers(extras))) {
      ConsistentPrefix(run, known + TeamsOf(before), Declared(e));
    }
  }

  // ----- tasks of a batch -------------------------------------------------------------------------

  /** The tasks whose ids are not in use, in order. */
  function NotYet(used: set<TaskId>, tasks: seq<TaskRecord>): seq<TaskRecord> {
    if tasks == [] then []
    else NotYet(used, Init(tasks)) + if Last(tasks).id in used then [] else [Last(tasks)]
  }

  lemma {:induction false} NotYetMembers(used: set<TaskId>, tasks: seq<TaskRecord>, t: TaskRecord)
    ensures t in NotYet(used, tasks) <==> t in tasks && t.id !in used
  {
    if tasks != [] {
      InitLast(tasks);
      NotYetMembers(used, Init(tasks), t);
    }
  }

  /** No new id is on two tasks of the batch. */
  ghost predicate NewIdsOnce(used: set<TaskId>, tasks: seq<TaskRecord>) {
    forall i, j :: 0 <= i < j < |tasks| && tasks[i].id == tasks[j].id ==> tasks[i].id in used
  }

  /** Where an id is in use already, the batch repeats that very task. */
  predicate Repeats(existing: map<TaskId, TaskRecord>, tasks: seq<TaskRecord>) {
    forall t :: t in tasks && t.id in existing ==> existing[t.id] == t
  }

  lemma NewIdsOneMore(used: set<TaskId>, tasks: seq<TaskRecord>)
    requires tasks != [] && NewIdsOnce(used, Init(tasks)) && Last(tasks).id !in used
    ensures NewIdsOnce(used, tasks) <==> !exists t :: t in NotYet(used, Init(tasks)) && t.id == Last(tasks).id
  {
    var last := |tasks| - 1;
    if t :| t in NotYet(used, Init(tasks)) && t.id == Last(tasks).id {
      NotYetMembers(used, Init(tasks), t);
      var i :| 0 <= i < last && Init(tasks)[i] == t;
      assert tasks[i].id == tasks[last].id && tasks[i].id !in used;
    } else {
      forall i, j | 0 <= i < j < |tasks| && tasks[i].id == tasks[j].id ensures tasks[i].id in used {
        assert Init(tasks)[i] == tasks[i];
        if j == last {
          NotYetMembers(used, Init(tasks), tasks[i]);
        } else {
          assert Init(tasks)[j] == tasks[j];
        }
      }
    }
  }

  lemma NewIdsInit(used: set<TaskId>, tasks: seq<TaskRecord>)
    requires tasks != []
    ensures NewIdsOnce(used, tasks) ==> NewIdsOnce(used, Init(tasks))
    ensures NewIdsOnce(used, Init(tasks)) && Last(tasks).id in used ==> NewIdsOnce(used, tasks)
  {
    assert forall i :: 0 <= i < |tasks| - 1 ==> Init(tasks)[i] == tasks[i];
  }

  lemma RepeatsInit(existing: map<TaskId, TaskRecord>, tasks: seq<TaskRecord>)
    requires tasks != []
    ensures Repeats(existing, tasks) <==>
            Repeats(existing, Init(tasks)) && (Last(tasks).id in existing ==> existing[Last(tasks).id] == Last(tasks))
  {
    assert forall t :: t in tasks <==> t in Init(tasks) || t == Last(tasks);
  }

  lemma {:induction false} NewTasksExactly(existing: map<TaskId, TaskRecord>, tasks: seq<TaskRecord>)
    ensures NewTasks(existing, tasks).Ok? <==> Repeats(existing, tasks) && NewIdsOnce(existing.Keys, tasks)
    ensures NewTasks(existing, tasks).Ok? ==> NewTasks(existing, tasks).value == NotYet(existing.Keys, tasks)
  {
    if tasks != [] {
      NewTasksExactly(existing, Init(tasks));
      RepeatsInit(existing, tasks);
      NewIdsInit(existing.Keys, tasks);
      if NewTasks(existing, Init(tasks)).Ok? && Last(tasks).id !in existing {
        NewIdsOneMore(existing.Keys, tasks);
      }
    }
  }

  // ----- whole admissions -----------------------------------------------------------------------------

  /** A record that was stored without its number and time. */
  predicate Holds(r: LedgerRecord, e: Extra, number: nat, run: RunId, now: int) {
    r == LedgerRecord(number, run, now, e.durability, e.recordType, e.payload)
  }

  /** The Run got these records at its end, numbered on from the counter, and nothing else
      changed. */
  ghost predicate Appended(ledger: Ledger, after: Ledger, run: RunId, items: seq<Extra>, now: int) {
    var was, is_ := RecordsFor(ledger, run), RecordsFor(after, run);
    && |is_| == |was| + |items| && was <= is_
    && (forall k :: 0 <= k < |items| ==> Holds(is_[|was| + k], items[k], ledger.next + 1 + k, run, now))
    && after.next == ledger.next + |items| && after.leases == ledger.leases
    && forall other :: other != run ==> RecordsFor(after, other) == RecordsFor(ledger, other)
  }

  lemma AppendedOneMore(ledger: Ledger, before: Ledger, run: RunId, items: seq<Extra>, e: Extra, now: int)
    requires Appended(ledger, before, run, items, now)
    ensures var record := LedgerRecord(before.next + 1, run, now, e.durability, e.recordType, e.payload);
            Appended(ledger, Store(before, record), run, items + [e], now)
  {
    var record := LedgerRecord(before.next + 1, run, now, e.durability, e.recordType, e.payload);
    var was, is_ := RecordsFor(ledger, run), RecordsFor(Store(before, record), run);
    assert is_ == RecordsFor(before, run) + [record];
    forall k | 0 <= k < |items| + 1
      ensures Holds(is_[|was| + k], (items + [e])[k], ledger.next + 1 + k, run, now)
    {
      assert k < |items| ==> is_[|was| + k] == RecordsFor(before, run)[|was| + k];
    }
  }

  /** Storing a list appends it to the Run, numbered on from the counter, and leaves the
      other Runs and the leases alone. */
  lemma {:induction false} StoreAllExactly(ledger: Ledger, run: RunId, pending: seq<Extra>, now: int)
    ensures Appended(ledger, StoreAll(ledger, run, pending, now), run, pending, now)
  {
    if pending != [] {
      StoreAllExactly(ledger, run, Init(pending), now);
      AppendedOneMore(ledger, StoreAll(ledger, run, Init(pending), now), run, Init(pending), Last(pending), now);
      InitLast(pending);
    }
  }

  /** The tasks a batch adds to the tree. */
  ghost function Added(ledger: Ledger, a: Admission): seq<TaskRecord> {
    NotYet(TaskIds(ledger, a.root), a.tasks)
  }

  /** The tree has room and holds nothing that contradicts the tasks of the batch. */
  ghost predicate TasksFit(ledger: Ledger, a: Admission) {
    && AllTasks(ledger, a.root)
    && (forall t :: t in a.tasks && t.id in TaskIds(ledger, a.root) ==> Charged(ledger, a.root, t))
    && NewIdsOnce(TaskIds(ledger, a.root), a.tasks)
    && |TaskIds(ledger, a.root)| + |Added(ledger, a)| <= a.maxTasks
  }

  /** The markers of the batch fit the Run's records, and with them every task of the
      batch is staffed. */
  ghost predicate TeamsFit(run: RunId, items: seq<Extra>, a: Admission) {
    var teams, markers := TeamsOf(items), Markers(a.extras);
    && (forall e :: e in items ==> WellTyped(e))
    && Fitting(teams, a.tasks, markers) && Consistent(run, teams + TeamsOf(markers))
    && forall t :: t in a.tasks ==> StaffedBy(t, teams + TeamsOf(markers), MembersOf(items) + MembersOf(markers))
  }

  /** A task without a team needs nobody. A team task needs a coordinator who joined the
      team, and the owner its state calls for, who joined too. */
  ghost predicate StaffedBy(task: TaskRecord, teams: seq<TeamRecord>, members: set<(TeamId, AgentId)>) {
    task.team.Some? ==>
      && (exists t :: t in teams && t.id == task.team.value && t.coordinator.Some? && (t.id, t.coordinator.value) in members)
      && task.state != Created
      && (task.state == Queued ==> task.owner.None?)
      && (task.state == Assigned || task.state == Running ==> task.owner.Some?)
      && (task.owner.Some? ==> (task.team.value, task.owner.value) in members)
  }

  lemma StaffedExactly(run: RunId, task: TaskRecord, m: Metadata, teams: seq<TeamRecord>)
    requires Consistent(run, teams) && Sums(m, teams)
    ensures Staffed(task, m) <==> StaffedBy(task, teams, m.members)
  {
    if task.team.Some? {
      assert task.team.value in m.teams <==> Names(teams, task.team.value);
    }
  }

  lemma {:induction false} MarkerIn(extras: seq<Extra>)
    ensures HasMarker(extras) <==> Markers(extras) != []
  {
    if extras != [] {
      MarkerIn(Init(extras));
      assert forall e :: e in extras <==> e in Init(extras) || e == Last(extras);
    }
  }

  /** Extras are prepared exactly when there is no marker among them or the teams fit. */
  lemma PreparesExactly(run: RunId, records: seq<LedgerRecord>, a: Admission)
    ensures PrepareExtras(run, records, a.tasks, a.extras).Ok? <==> Markers(a.extras) == [] || TeamsFit(run, Items(records), a)
    ensures PrepareExtras(run, records, a.tasks, a.extras).Ok? ==>
              PrepareExtras(run, records, a.tasks, a.extras).value == KeptExtras(records, a.extras, Markers(a.extras) != [])
  {
    MarkerIn(a.extras);
    MetadataExactly(run, records);
    var existing, items, markers := DecodeMetadata(run, records), Items(records), Markers(a.extras);
    if existing.Ok? {
      MarkersExactly(run, existing.value, TeamsOf(items), a.tasks, a.extras);
      var applied := ApplyMarkers(run, existing.value, a.tasks, a.extras);
      if applied.Ok? {
        NoErrorMeansStaffed(a.tasks, applied.value);
        forall t ensures Staffed(t, applied.value) <==>
                         StaffedBy(t, TeamsOf(items) + TeamsOf(markers), MembersOf(items) + MembersOf(markers))
        {
          StaffedExactly(run, t, applied.value, TeamsOf(items) + TeamsOf(markers));
        }
      }
    } else if Consistent(run, TeamsOf(items) + TeamsOf(markers)) {
      ConsistentPrefix(run, TeamsOf(items), TeamsOf(markers));
    }
  }

  /** Which extras are stored: the durable ones in order, without markers of the batch that
      the Run holds already. */
  function Kept(items: seq<Extra>, extras: seq<Extra>): seq<Extra> {
    if extras == [] then []
    else
      var e := Last(extras);
      var known := e.recordType == "collaboration_batch_prepared"
                   && exists i | i in items :: i.recordType == e.recordType && i.payload == e.payload;
      Kept(items, Init(extras)) + if e.durability.Ephemeral? || known then [] else [e]
  }

  lemma {:induction false} ItemsMembers(records: seq<LedgerRecord>, e: Extra)
    ensures Stored(records, e) <==> exists i | i in Items(records) :: i.recordType == e.recordType && i.payload == e.payload
  {
    if records != [] {
      ItemsMembers(Init(records), e);
      assert forall r :: r in records <==> r in Init(records) || r == Last(records);
      var last := Extra(Last(records).durability, Last(records).recordType, Last(records).payload);
      assert forall i :: i in Items(records) <==> i in Items(Init(records)) || i == last;
    }
  }

  lemma {:induction false} KeptExactly(records: seq<LedgerRecord>, extras: seq<Extra>, batch: bool)
    requires batch || Markers(extras) == []
    ensures KeptExtras(records, extras, batch) == Kept(Items(records), extras)
  {
    if extras != [] {
      KeptExactly(records, Init(extras), batch);
      ItemsMembers(records, Last(extras));
    }
  }

  lemma {:induction false} CollectedWere(table: map<TaskId, TaskRecord>, records: seq<LedgerRecord>)
    requires CollectTasks(table, records).Ok?
    ensures forall r :: r in records && r.recordType == TASK_CREATED ==> r.payload.TaskDocument?
  {
    if records != [] {
      CollectedWere(table, Init(records));
      assert forall r :: r in records <==> r in Init(records) || r == Last(records);
    }
  }

  lemma {:induction false} ReadWere(ledger: Ledger, root: RunId, order: seq<RunId>, run: RunId, r: LedgerRecord)
    requires TreeTasks(ledger, root, order).Ok? && run in order && TaskIn(ledger, root, run, r)
    ensures r.payload.TaskDocument?
  {
    assert run in Init(order) || run == Last(order);
    if run in Init(order) {
      ReadWere(ledger, root, Init(order), run, r);
    } else {
      CollectedWere(TreeTasks(ledger, root, Init(order)).value, RecordsFor(ledger, run));
    }
  }

  /** The tree can be read exactly when its task records hold tasks. */
  lemma TreeReadsExactly(ledger: Ledger, root: RunId, order: seq<RunId>)
    requires Elements(order) == ledger.records.Keys
    ensures TreeTasks(ledger, root, order).Ok? <==> AllTasks(ledger, root)
  {
    if TreeTasks(ledger, root, order).Ok? {
      forall run, r | TaskIn(ledger, root, run, r) ensures r.payload.TaskDocument? {
        assert run in Elements(order);
        ReadWere(ledger, root, order, run, r);
      }
    }
    if AllTasks(ledger, root) {
      TreeTable(ledger, root, order);
    }
  }

  lemma TasksFitExactly(ledger: Ledger, a: Admission)
    requires UniqueTasks(ledger, a.root) && Elements(a.order) == ledger.records.Keys
    ensures var existing := TreeTasks(ledger, a.root, a.order);
            && (TasksFit(ledger, a) <==> existing.Ok? && ValidateBatch(existing.value, a.maxTasks, a.tasks).Ok?)
            && (TasksFit(ledger, a) ==> ValidateBatch(existing.value, a.maxTasks, a.tasks).value == Added(ledger, a))
  {
    TreeReadsExactly(ledger, a.root, a.order);
    if AllTasks(ledger, a.root) {
      TreeTableExact(ledger, a.root, a.order);
      TreeTable(ledger, a.root, a.order);
      var table := TreeTasks(ledger, a.root, a.order).value;
      NewTasksExactly(table, a.tasks);
      assert |table| == |table.Keys|;
      forall t | t in a.tasks && t.id in table ensures table[t.id] == t <==> Charged(ledger, a.root, t) {
        assert Charged(ledger, a.root, table[t.id]);
      }
    }
  }

  function TaskItems(tasks: seq<TaskRecord>): seq<Extra> {
    seq(|tasks|, i requires 0 <= i < |tasks| => Extra(SyncCritical, "task_created", TaskDocument(tasks[i])))
  }

  lemma {:induction false} TaskItemsExactly(tasks: seq<TaskRecord>)
    ensures TaskExtras(tasks) == TaskItems(tasks)
  {
    if tasks != [] {
      TaskItemsExactly(Init(tasks));
      assert TaskItems(tasks) == TaskItems(Init(tasks)) + [Extra(SyncCritical, TASK_CREATED, TaskDocument(Last(tasks)))];
    }
  }

  /** What an accepted admission stores: its new tasks, then its kept extras. */
  ghost function Additions(ledger: Ledger, run: RunId, a: Admission): seq<Extra> {
    TaskItems(Added(ledger, a)) + Kept(Items(RecordsFor(ledger, run)), a.extras)
  }

  ghost predicate Admissible(ledger: Ledger, run: RunId, a: Admission) {
    && TasksFit(ledger, a)
    && (Markers(a.extras) == [] || TeamsFit(run, Items(RecordsFor(ledger, run)), a))
    && ledger.next + |Additions(ledger, run, a)| <= U64_MAX
  }

  lemma PlansExactly(ledger: Ledger, run: RunId, a: Admission)
    requires UniqueTasks(ledger, a.root) && Elements(a.order) == ledger.records.Keys
    ensures Plan(ledger, run, a).Ok? <==> Admissible(ledger, run, a)
    ensures Plan(ledger, run, a).Ok? ==> Plan(ledger, run, a).value == Additions(ledger, run, a)
  {
    var records := RecordsFor(ledger, run);
    TasksFitExactly(ledger, a);
    PreparesExactly(run, records, a);
    KeptExactly(records, a.extras, Markers(a.extras) != []);
    TaskItemsExactly(Added(ledger, a));
  }

  /** In a tree with one record per task, an admission is accepted exactly when its tasks
      and teams fit and there are numbers left. It then appends its new tasks and kept
      extras as one block, and otherwise nothing. */
  lemma AdmitsExactly(ledger: Ledger, run: RunId, a: Admission, now: int)
    requires UniqueTasks(ledger, a.root) && Elements(a.order) == ledger.records.Keys
    ensures var (after, answer) := Admit(ledger, run, a, now);
            && (answer.Ok? <==> Admissible(ledger, run, a))
            && (answer.Err? ==> after == ledger)
            && (answer.Ok? ==> Appended(ledger, after, run, Additions(ledger, run, a), now))
  {
    PlansExactly(ledger, run, a);
    StoreAllExactly(ledger, run, Planned(ledger, run, a), now);
  }
}
