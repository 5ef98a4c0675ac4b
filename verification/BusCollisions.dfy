/** Runs in which a direct message and a broadcast copy may share an id: exactly when
    a step leaves the bus in step with its log, and exactly when a repeat changes
    nothing. */
module BusCollisions {
  import opened Prelude
  import opened BusState
  import opened BusLog
  import opened BusTheorems
  import opened BusRuns
  import opened BusRepair

  // ----- new messages -----------------------------------------------------------------------

  /** A direct send rebuilds if and only if its recipient holds no message with
      that id. */
  lemma SendRebuildsExactly(bus: Bus, context: Context, request: SendRequest)
    requires bus.view == RestoreLog(bus.log)
    requires Send(bus, context, request).1.Ok? && Send(bus, context, request).1.value.appended
    ensures var bus' := Send(bus, context, request).0;
            RestoreLog(bus'.log) == bus'.view <==> Absent(Inbox(bus.view.inboxes, request.to), request.id)
  {
    var bus' := Send(bus, context, request).0;
    var message := NewMessage(bus.run, request, context.now);
    InitOfAppend(bus.log, Record(bus.next + 1, Delivered(message, true, request.requested)));
    IdsMembers(Inbox(bus.view.inboxes, request.to), request.id);
    assert |Inbox(bus'.view.inboxes, request.to)| == |Inbox(bus.view.inboxes, request.to)| + 1;
  }

  lemma {:induction false} RestoreNeverLonger(inboxes: Inboxes, messages: seq<Message>, m: Message)
    ensures var restored := Inbox(RestoreMessages(inboxes, messages), m.to);
            && |restored| <= |Inbox(inboxes, m.to)| + |AddressedTo(messages, m.to)|
            && Inbox(inboxes, m.to) <= restored
            && (m in messages && !Absent(Inbox(inboxes, m.to), m.id)
                ==> |restored| < |Inbox(inboxes, m.to)| + |AddressedTo(messages, m.to)|)
  {
    if messages != [] {
      InitLast(messages);
      RestoreNeverLonger(inboxes, Init(messages), m);
      var so := Inbox(RestoreMessages(inboxes, Init(messages)), m.to);
      if Last(messages) == m && !Absent(Inbox(inboxes, m.to), m.id) {
        var held :| held in Inbox(inboxes, m.to) && held.id == m.id;
        assert held in so;
        IdsMembers(so, m.id);
      }
    }
  }

  lemma BroadcastIdsDiffer(run: RunId, request: BroadcastRequest, now: int)
    ensures var messages := NewBroadcastMessages(run, request, now);
            forall i, j :: 0 <= i < j < |messages| ==> messages[i].id != messages[j].id
  {
    var messages := NewBroadcastMessages(run, request, now);
    forall i, j | 0 <= i < j < |messages| ensures messages[i].id != messages[j].id {
      if messages[i].id == messages[j].id {
        BroadcastMessageIdInjective(request.id, i, request.id, j);
      }
    }
  }

  /** A copy whose id its recipient holds is delivered but not restored. */
  lemma CollisionShows(inboxes: Inboxes, messages: seq<Message>, k: nat)
    requires k < |messages| && !Absent(Inbox(inboxes, messages[k].to), messages[k].id)
    ensures RestoreMessages(inboxes, messages) != DeliverAll(inboxes, messages)
  {
    assert messages[k] in messages;
    RestoreNeverLonger(inboxes, messages, messages[k]);
    DeliverAllInbox(inboxes, messages, messages[k].to);
  }

  /** A broadcast rebuilds if and only if no recipient holds the id its copy gets. */
  lemma BroadcastRebuildsExactly(bus: Bus, context: Context, request: BroadcastRequest)
    requires bus.view == RestoreLog(bus.log)
    requires BroadcastAll(bus, context, request).1.Ok? && BroadcastAll(bus, context, request).1.value.appended
    ensures var bus' := BroadcastAll(bus, context, request).0;
            RestoreLog(bus'.log) == bus'.view <==>
            forall k :: 0 <= k < |request.recipients| ==>
              Absent(Inbox(bus.view.inboxes, request.recipients[k]), BroadcastMessageId(request.id, k))
  {
    var bus' := BroadcastAll(bus, context, request).0;
    var messages := NewBroadcastMessages(bus.run, request, context.now);
    InitOfAppend(bus.log, Record(bus.next + 1, BroadcastPayload(bus, context, request)));
    assert RestoreLog(bus'.log).inboxes == RestoreMessages(bus.view.inboxes, messages);
    assert bus'.view.inboxes == DeliverAll(bus.view.inboxes, messages);
    MessagesRestoreExactly(bus.view.inboxes, bus.run, request, context.now);
  }

  lemma MessagesRestoreExactly(inboxes: Inboxes, run: RunId, request: BroadcastRequest, now: int)
    ensures var messages := NewBroadcastMessages(run, request, now);
            RestoreMessages(inboxes, messages) == DeliverAll(inboxes, messages) <==>
            forall k :: 0 <= k < |request.recipients| ==>
              Absent(Inbox(inboxes, request.recipients[k]), BroadcastMessageId(request.id, k))
  {
    var messages := NewBroadcastMessages(run, request, now);
    BroadcastIdsDiffer(run, request, now);
    if forall k :: 0 <= k < |messages| ==>
        Absent(Inbox(inboxes, request.recipients[k]), BroadcastMessageId(request.id, k)) {
      RestoreDelivers(inboxes, messages);
    } else {
      var k :| 0 <= k < |messages| && !Absent(Inbox(inboxes, request.recipients[k]), BroadcastMessageId(request.id, k));
      CollisionShows(inboxes, messages, k);
    }
  }

  // ----- what every run keeps, colliding ids or not --------------------------------------------

  ghost predicate NamedCopies(log: seq<Record>) {
    forall i :: 0 <= i < |log| && log[i].payload.Broadcast? ==> NamedBroadcast(log[i].payload)
  }

  ghost predicate NamedBroadcast(payload: Payload)
    requires payload.Broadcast?
  {
    forall k :: 0 <= k < |payload.messages| ==> payload.messages[k].id == BroadcastMessageId(payload.broadcastId, k)
  }

  /** Every mailbox in the table holds something and every copy has the id of its place. */
  ghost predicate Tidy(bus: Bus) {
    NoEmptyMailbox(bus.view.inboxes) && NamedCopies(bus.log)
  }

  lemma NamedIsDistinct(payload: Payload)
    requires payload.Broadcast? && NamedBroadcast(payload)
    ensures DistinctIds(payload.messages)
  {
    var messages := payload.messages;
    forall i, j | 0 <= i < j < |messages| ensures messages[i].id != messages[j].id {
      if messages[i].id == messages[j].id {
        BroadcastMessageIdInjective(payload.broadcastId, i, payload.broadcastId, j);
      }
    }
  }

  lemma {:induction false} RestoreMessagesNonEmpty(inboxes: Inboxes, messages: seq<Message>)
    requires NoEmptyMailbox(inboxes)
    ensures NoEmptyMailbox(RestoreMessages(inboxes, messages))
  {
    if messages != [] {
      RestoreMessagesNonEmpty(inboxes, Init(messages));
    }
  }

  lemma {:induction false} RestoredNonEmpty(log: seq<Record>)
    ensures NoEmptyMailbox(RestoreLog(log).inboxes)
  {
    if log != [] {
      RestoredNonEmpty(Init(log));
      var view := RestoreLog(Init(log));
      match Last(log).payload
      case Broadcast(_, _, _, _, _, _, _, messages) => RestoreMessagesNonEmpty(view.inboxes, messages);
      case _ =>
    }
  }

  lemma {:induction false} LoopKeepsNonEmpty(view: View, messages: seq<Message>, after: nat, log: seq<Record>)
    requires NoEmptyMailbox(view.inboxes)
    ensures NoEmptyMailbox(Repair(view, messages, after, log).0.inboxes)
    decreases |messages|
  {
    if messages != [] {
      var status := StatusAfter(messages[0], log, after);
      RepairKeepsNonEmpty(view, messages[0], status);
      LoopKeepsNonEmpty(RepairMessage(view, messages[0], status).0, messages[1..], after, log);
    }
  }

  lemma ReplaySendKeepsNonEmpty(bus: Bus, request: SendRequest)
    requires NoEmptyMailbox(bus.view.inboxes)
    ensures NoEmptyMailbox(ReplaySend(bus, request).0.view.inboxes)
  {
    var k := Find(bus.log, DeliveryOf(request.id));
    if k < |bus.log| {
      LoopKeepsNonEmpty(bus.view, [bus.log[k].payload.message], bus.log[k].number, bus.log);
    }
  }

  lemma ReplayBroadcastKeepsNonEmpty(bus: Bus, request: BroadcastRequest, recipients: Option<seq<AgentId>>)
    requires NoEmptyMailbox(bus.view.inboxes)
    ensures NoEmptyMailbox(ReplayBroadcast(bus, request, recipients).0.view.inboxes)
  {
    var k := Find(bus.log, BroadcastOf(request.id));
    if k < |bus.log| {
      LoopKeepsNonEmpty(bus.view, bus.log[k].payload.messages, bus.log[k].number, bus.log);
    }
  }

  lemma StepKeepsNonEmpty(bus: Bus, event: Event)
    requires NoEmptyMailbox(bus.view.inboxes)
    ensures NoEmptyMailbox(Step(bus, event).view.inboxes)
  {
    match event.operation
    case OpSend(request) => ReplaySendKeepsNonEmpty(bus, request);
    case OpBroadcast(request) =>
      ReplayBroadcastKeepsNonEmpty(bus, request, Some(request.recipients));
      DeliverAllNonEmpty(bus.view.inboxes, NewBroadcastMessages(bus.run, request, event.context.now));
    case OpReplaySend(request) => ReplaySendKeepsNonEmpty(bus, request);
    case OpReplayBroadcast(request) => ReplayBroadcastKeepsNonEmpty(bus, request, None);
    case OpRestart => RestoredNonEmpty(bus.log);
    case _ =>
  }

  lemma {:induction false} RunsAreTidy(run: RunId, events: seq<Event>)
    ensures Tidy(Run(NewBus(run), events))
  {
    if events != [] {
      var before := Run(NewBus(run), Init(events));
      RunsAreTidy(run, Init(events));
      StepKeepsNonEmpty(before, Last(events));
      StepAppends(before, Last(events));
      AppendKeepsNames(before, Step(before, Last(events)), Last(events));
    }
  }

  lemma AppendKeepsNames(before: Bus, after: Bus, event: Event)
    requires NamedCopies(before.log) && Appends(before, after, event)
    ensures NamedCopies(after.log)
  {
    if after.log != before.log {
      forall i | 0 <= i < |after.log| && after.log[i].payload.Broadcast? ensures NamedBroadcast(after.log[i].payload) {
        assert i < |before.log| ==> after.log[i] == before.log[i];
      }
    }
  }

  // ----- repeats ---------------------------------------------------------------------------------

  /** On any bus a repeated send is answered with the original and changes nothing
      exactly when the first entry under its id and its claim are what its later records
      dictate. */
  lemma RepeatedSendExactly(bus: Bus, request: SendRequest)
    requires Tidy(bus) && Find(bus.log, DeliveryOf(request.id)) < |bus.log|
    requires SameRequest(bus.run, bus.log[Find(bus.log, DeliveryOf(request.id))].payload, request)
    ensures var record := bus.log[Find(bus.log, DeliveryOf(request.id))];
            var d, status := record.payload.message, StatusAfter(record.payload.message, bus.log, record.number);
            ReplaySend(bus, request) == (bus, Some(Ok(Sent(d, false)))) <==>
            EntryAgrees(bus.view, d, status) && ClaimAgrees(bus.view, d, status)
  {
    var record := bus.log[Find(bus.log, DeliveryOf(request.id))];
    var d := record.payload.message;
    LoopIsIdentityExactly(bus.view, [d], record.number, bus.log);
    assert d in [d];
  }

  /** The same for a broadcast and all its copies. */
  lemma RepeatedBroadcastExactly(bus: Bus, request: BroadcastRequest, recipients: Option<seq<AgentId>>)
    requires Tidy(bus) && Find(bus.log, BroadcastOf(request.id)) < |bus.log|
    requires SameBroadcast(bus.run, bus.log[Find(bus.log, BroadcastOf(request.id))].payload, request, recipients)
    ensures var record := bus.log[Find(bus.log, BroadcastOf(request.id))];
            var messages := record.payload.messages;
            ReplayBroadcast(bus, request, recipients) == (bus, Some(Ok(Broadcasted(messages, false)))) <==>
            AllAgree(bus.view, messages, record.number, bus.log)
  {
    var record := bus.log[Find(bus.log, BroadcastOf(request.id))];
    NamedIsDistinct(record.payload);
    LoopIsIdentityExactly(bus.view, record.payload.messages, record.number, bus.log);
  }

  // ----- staying in step with the log --------------------------------------------------------------

  /** A replay finds nothing to do for the messages of its record. */
  predicate ReplayStays(bus: Bus, query: Query, same: bool)
    requires !query.ClaimBy?
  {
    var k := Find(bus.log, query);
    k < |bus.log| && same ==> MovesNothing(bus.view, Carried(bus.log[k].payload), bus.log[k].number, bus.log)
  }

  predicate SameSend(bus: Bus, request: SendRequest) {
    var k := Find(bus.log, DeliveryOf(request.id));
    k < |bus.log| && SameRequest(bus.run, bus.log[k].payload, request)
  }

  predicate SameCast(bus: Bus, request: BroadcastRequest, recipients: Option<seq<AgentId>>) {
    var k := Find(bus.log, BroadcastOf(request.id));
    k < |bus.log| && SameBroadcast(bus.run, bus.log[k].payload, request, recipients)
  }

  /** The guards under which a step keeps the bus in step with its log: the recipients
      of a new message hold nothing under its id, and a repeat has nothing to move. */
  ghost predicate Stays(bus: Bus, event: Event) {
    match event.operation
    case OpSend(request) =>
      && ReplayStays(bus, DeliveryOf(request.id), SameSend(bus, request))
      && (Find(bus.log, DeliveryOf(request.id)) == |bus.log| && SendError(bus, event.context, request).None? ==>
            Absent(Inbox(bus.view.inboxes, request.to), request.id))
    case OpBroadcast(request) =>
      && ReplayStays(bus, BroadcastOf(request.id), SameCast(bus, request, Some(request.recipients)))
      && (Find(bus.log, BroadcastOf(request.id)) == |bus.log| && BroadcastError(bus, event.context, request).None? ==>
            forall k :: 0 <= k < |request.recipients| ==>
              Absent(Inbox(bus.view.inboxes, request.recipients[k]), BroadcastMessageId(request.id, k)))
    case OpReplaySend(request) => ReplayStays(bus, DeliveryOf(request.id), SameSend(bus, request))
    case OpReplayBroadcast(request) => ReplayStays(bus, BroadcastOf(request.id), SameCast(bus, request, None))
    case _ => true
  }

  ghost predicate InStep(bus: Bus) {
    bus.view == RestoreLog(bus.log)
  }

  lemma ReplaySendStays(bus: Bus, request: SendRequest)
    requires Tidy(bus) && InStep(bus)
    ensures InStep(ReplaySend(bus, request).0) <==> ReplayStays(bus, DeliveryOf(request.id), SameSend(bus, request))
  {
    var k := Find(bus.log, DeliveryOf(request.id));
    if k < |bus.log| {
      LoopMovesExactly(bus.view, [bus.log[k].payload.message], bus.log[k].number, bus.log);
    }
  }

  lemma ReplayBroadcastStays(bus: Bus, request: BroadcastRequest, recipients: Option<seq<AgentId>>)
    requires Tidy(bus) && InStep(bus)
    ensures InStep(ReplayBroadcast(bus, request, recipients).0) <==>
            ReplayStays(bus, BroadcastOf(request.id), SameCast(bus, request, recipients))
  {
    var k := Find(bus.log, BroadcastOf(request.id));
    if k < |bus.log| {
      NamedIsDistinct(bus.log[k].payload);
      LoopMovesExactly(bus.view, bus.log[k].payload.messages, bus.log[k].number, bus.log);
    }
  }

  lemma OtherStepsStay(bus: Bus, event: Event)
    requires InStep(bus)
    requires event.operation.OpClaim? || event.operation.OpAcknowledge? || event.operation.OpDrain? ||
             event.operation.OpForeign? || event.operation.OpOtherRun? || event.operation.OpRestart?
    ensures InStep(Step(bus, event))
  {
    match event.operation
    case OpClaim(agent, claimId) => ClaimStays(bus, event.context, agent, claimId);
    case OpAcknowledge(agent, id) => AcknowledgeStays(bus, event.context, agent, id);
    case OpDrain(agent) => DrainStays(bus, event.context, agent);
    case OpForeign(text) => InitOfAppend(bus.log, Record(bus.next + 1, Foreign(text)));
    case _ =>
  }

  lemma ClaimStays(bus: Bus, context: Context, agent: AgentId, claimId: string)
    requires InStep(bus)
    ensures InStep(Claim(bus, context, agent, claimId).0)
  {
    var ids := Ids(Claimable(Inbox(bus.view.inboxes, agent), bus.run, bus.view.claims));
    InitOfAppend(bus.log, Record(bus.next + 1, Claimed(agent, claimId, ids)));
  }

  lemma AcknowledgeStays(bus: Bus, context: Context, agent: AgentId, id: string)
    requires InStep(bus)
    ensures InStep(Acknowledge(bus, context, agent, id).0)
  {
    InitOfAppend(bus.log, Record(bus.next + 1, Acknowledged(agent, id, context.now)));
  }

  lemma DrainStays(bus: Bus, context: Context, agent: AgentId)
    requires InStep(bus)
    ensures InStep(Drain(bus, context, agent).0)
  {
    InitOfAppend(bus.log, Record(bus.next + 1, Dequeued(agent, Ids(OfRun(Inbox(bus.view.inboxes, agent), bus.run)))));
  }

  /** Whatever ids were used before, a step keeps the bus in step exactly under its guard. */
  lemma StepStaysExactly(bus: Bus, event: Event)
    requires Tidy(bus) && InStep(bus)
    ensures InStep(Step(bus, event)) <==> Stays(bus, event)
  {
    match event.operation
    case OpSend(request) =>
      ReplaySendStays(bus, request);
      if Find(bus.log, DeliveryOf(request.id)) == |bus.log| && SendError(bus, event.context, request).None? {
        SendRebuildsExactly(bus, event.context, request);
      }
    case OpBroadcast(request) =>
      ReplayBroadcastStays(bus, request, Some(request.recipients));
      if Find(bus.log, BroadcastOf(request.id)) == |bus.log| && BroadcastError(bus, event.context, request).None? {
        BroadcastRebuildsExactly(bus, event.context, request);
      }
    case OpReplaySend(request) => ReplaySendStays(bus, request);
    case OpReplayBroadcast(request) => ReplayBroadcastStays(bus, request, None);
    case _ => OtherStepsStay(bus, event);
  }

  /** The bus is in step with its log after every prefix of the run. */
  ghost predicate AlwaysInStep(run: RunId, events: seq<Event>) {
    InStep(Run(NewBus(run), events)) && (events != [] ==> AlwaysInStep(run, Init(events)))
  }

  /** Every step of the run meets its guard. */
  ghost predicate AlwaysStays(run: RunId, events: seq<Event>) {
    events != [] ==> AlwaysStays(run, Init(events)) && Stays(Run(NewBus(run), Init(events)), Last(events))
  }

  /** Over any run at all, restoring rebuilds the live state at every point exactly when
      every step meets its guard. */
  lemma {:induction false} RunRebuildsExactly(run: RunId, events: seq<Event>)
    ensures AlwaysInStep(run, events) <==> AlwaysStays(run, events)
  {
    if events != [] {
      RunRebuildsExactly(run, Init(events));
      RunsAreTidy(run, Init(events));
      if InStep(Run(NewBus(run), Init(events))) {
        StepStaysExactly(Run(NewBus(run), Init(events)), Last(events));
      }
    }
  }

  /** Where no id is delivered twice every step meets its guard. */
  lemma {:induction false} ApartRunsStay(run: RunId, events: seq<Event>)
    requires ApartRun(run, events)
    ensures AlwaysStays(run, events) && AlwaysInStep(run, events)
  {
    RunsAreGood(run, events);
    if events != [] {
      ApartInit(run, events);
      ApartRunsStay(run, Init(events));
    }
    RunRebuildsExactly(run, events);
  }
}
