/** How many unacknowledged messages an agent can have: never more than the largest
    limit in use, exactly as long as no repeat reopens messages. */
module BusLoad {
  import opened Prelude
  import opened BusState
  import opened BusLog
  import opened BusTheorems
  import opened BusRuns
  import opened BusRepair
  import opened BusConservation
  import opened BusCollisions

  ghost predicate Bounded(inboxes: Inboxes, limit: nat) {
    forall agent :: PendingCount(inboxes, agent) <= limit
  }

  /** Every limit this event can be admitted under is at most `limit`. */
  ghost predicate LimitsWithin(event: Event, limit: nat) {
    && (forall t :: t in event.context.registry.teams && LimitsValid(event.context.registry.teams[t])
                    ==> event.context.registry.teams[t].maxPending <= limit)
    && (event.operation.OpSend? && event.operation.request.effective.None? ==> DEFAULT_MAX_PENDING_MESSAGES <= limit)
  }

  lemma SendLoad(bus: Bus, event: Event, limit: nat)
    requires event.operation.OpSend? && LimitsWithin(event, limit)
    requires SendError(bus, event.context, event.operation.request).None?
    ensures PendingCount(bus.view.inboxes, event.operation.request.to) < limit
  {
  }

  lemma DeliverLoad(inboxes: Inboxes, message: Message, agent: AgentId)
    ensures PendingCount(Deliver(inboxes, message), agent) <=
            PendingCount(inboxes, agent) + if agent == message.to then 1 else 0
  {
    PendingAppend(Inbox(inboxes, message.to), [message]);
    assert |Pending([message])| <= 1 by { assert Init([message]) == []; }
  }

  lemma {:induction false} AddressedCount(messages: seq<Message>, recipients: seq<AgentId>, agent: AgentId)
    requires |messages| == |recipients| && forall k :: 0 <= k < |messages| ==> messages[k].to == recipients[k]
    ensures |Pending(AddressedTo(messages, agent))| <= Occurrences(recipients, agent)
  {
    if messages != [] {
      AddressedCount(Init(messages), Init(recipients), agent);
      InitLast(recipients);
      assert multiset(recipients) == multiset(Init(recipients)) + multiset{Last(recipients)};
      PendingAppend(AddressedTo(Init(messages), agent), if Last(messages).to == agent then [Last(messages)] else []);
      assert |Pending([Last(messages)])| <= 1 by { assert Init([Last(messages)]) == []; }
    }
  }

  lemma DeliveryLoad(inboxes: Inboxes, messages: seq<Message>, recipients: seq<AgentId>, agent: AgentId)
    requires |messages| == |recipients| && forall k :: 0 <= k < |messages| ==> messages[k].to == recipients[k]
    ensures PendingCount(DeliverAll(inboxes, messages), agent) <=
            PendingCount(inboxes, agent) + Occurrences(recipients, agent)
  {
    DeliverAllInbox(inboxes, messages, agent);
    PendingAppend(Inbox(inboxes, agent), AddressedTo(messages, agent));
    AddressedCount(messages, recipients, agent);
  }

  /** A new broadcast leaves every agent within the limit. */
  lemma BroadcastLoad(bus: Bus, event: Event, limit: nat, agent: AgentId)
    requires Bounded(bus.view.inboxes, limit) && event.operation.OpBroadcast? && LimitsWithin(event, limit)
    requires BroadcastError(bus, event.context, event.operation.broadcast).None?
    ensures var request := event.operation.broadcast;
            var messages := NewBroadcastMessages(bus.run, request, event.context.now);
            PendingCount(DeliverAll(bus.view.inboxes, messages), agent) <= limit
  {
    var request := event.operation.broadcast;
    var messages := NewBroadcastMessages(bus.run, request, event.context.now);
    DeliveryLoad(bus.view.inboxes, messages, request.recipients, agent);
    assert PendingCount(bus.view.inboxes, agent) <= limit;
    assert agent !in request.recipients ==> Occurrences(request.recipients, agent) == 0;
  }

  // ----- what a repair does to the count ---------------------------------------------------

  function Opens(ackedAt: Option<int>): int {
    if ackedAt.None? then 1 else 0
  }

  /** By how much a repair changes the unacknowledged messages of the recipient, given
      its entries under the id. */
  function Change(entries: seq<Message>, d: Message, status: Status): int {
    if status.dequeued then -|Pending(entries)|
    else if entries == [] then Opens(status.ackedAt)
    else if SameContent(entries[0], d) then Opens(status.ackedAt) - Opens(entries[0].ackedAt)
    else 0
  }

  lemma {:induction false} PendingSplit(s: seq<Message>, id: string)
    ensures |Pending(Without(s, [id]))| + |Pending(Under(s, id))| == |Pending(s)|
  {
    if s != [] {
      PendingSplit(Init(s), id);
      var last := Last(s);
      if last.id == id {
        InitOfAppend(Under(Init(s), id), last);
        assert Without(s, [id]) == Without(Init(s), [id]);
      } else {
        InitOfAppend(Without(Init(s), [id]), last);
        assert Under(s, id) == Under(Init(s), id);
      }
    }
  }

  lemma {:induction false} PendingUpdate(s: seq<Message>, k: nat, m: Message)
    requires k < |s|
    ensures |Pending(s[k := m])| == |Pending(s)| + Opens(m.ackedAt) - Opens(s[k].ackedAt)
  {
    var s' := s[k := m];
    if k < |s| - 1 {
      assert Init(s') == Init(s)[k := m];
      PendingUpdate(Init(s), k, m);
    } else {
      assert Init(s') == Init(s);
    }
  }

  lemma ChangeIsExact(box: seq<Message>, d: Message, status: Status)
    ensures |Pending(RepairedBox(box, d, status))| == |Pending(box)| + Change(Under(box, d.id), d, status)
  {
    var p := IndexOf(box, d.id);
    if status.dequeued {
      PendingSplit(box, d.id);
    } else if p == |box| {
      PushChange(box, d, status);
    } else {
      FoundIsFirst(box, d.id);
      PendingUpdate(box, p, box[p].(ackedAt := status.ackedAt));
    }
  }

  lemma FoundIsFirst(box: seq<Message>, id: string)
    requires IndexOf(box, id) < |box|
    ensures Under(box, id) != [] && Under(box, id)[0] == box[IndexOf(box, id)]
  {
    LookupIsFirst(box, id);
  }

  lemma PushChange(box: seq<Message>, d: Message, status: Status)
    requires IndexOf(box, d.id) == |box| && !status.dequeued
    ensures |Pending(RepairedBox(box, d, status))| == |Pending(box)| + Change(Under(box, d.id), d, status)
  {
    var pushed := d.(ackedAt := status.ackedAt);
    LookupIsFirst(box, d.id);
    PendingAppend(box, [pushed]);
    assert |Pending([pushed])| == Opens(status.ackedAt) by { assert Init([pushed]) == []; }
  }

  /** A repair raises the count exactly when it pushes the message unacknowledged, or
      finds it acknowledged where its own later records leave it open. */
  lemma RepairRaisesExactly(view: View, d: Message, status: Status)
    ensures var held := Lookup(Inbox(view.inboxes, d.to), d.id);
            PendingCount(RepairMessage(view, d, status).0.inboxes, d.to) > PendingCount(view.inboxes, d.to) <==>
            && !status.dequeued && status.ackedAt.None?
            && (held.None? || (SameContent(held.value, d) && held.value.ackedAt.Some?))
  {
    var box := Inbox(view.inboxes, d.to);
    RepairedInbox(view, d, status, d.to);
    ChangeIsExact(box, d, status);
    LookupIsFirst(box, d.id);
  }

  /** The sum of the changes for one agent, up to the first conflict. */
  ghost function Gain(view: View, messages: seq<Message>, after: nat, log: seq<Record>, agent: AgentId): int
    decreases |messages|
  {
    if messages == [] then 0
    else
      var d, status := messages[0], StatusAfter(messages[0], log, after);
      (if d.to == agent then Change(Under(Inbox(view.inboxes, agent), d.id), d, status) else 0) +
      (if Conflicts(view, d, status) then 0 else Gain(view, messages[1..], after, log, agent))
  }

  lemma {:induction false} GainSame(x: View, y: View, messages: seq<Message>, after: nat, log: seq<Record>, agent: AgentId)
    requires forall m :: m in messages ==> SameAt(x, y, m.id)
    ensures Gain(x, messages, after, log, agent) == Gain(y, messages, after, log, agent)
    decreases |messages|
  {
    if messages != [] {
      var d, status := messages[0], StatusAfter(messages[0], log, after);
      assert d in messages && forall m :: m in messages[1..] ==> m in messages;
      SameAtSame(x, y, d, status);
      assert Under(Inbox(x.inboxes, agent), d.id) == Under(Inbox(y.inboxes, agent), d.id);
      GainSame(x, y, messages[1..], after, log, agent);
    }
  }

  /** Repairing the messages of a record changes an agent's count by exactly that sum,
      taken on the mailboxes as they were. */
  lemma {:induction false} GainIsExact(view: View, messages: seq<Message>, after: nat, log: seq<Record>, agent: AgentId)
    requires DistinctIds(messages)
    ensures PendingCount(Repair(view, messages, after, log).0.inboxes, agent) ==
            PendingCount(view.inboxes, agent) + Gain(view, messages, after, log, agent)
    decreases |messages|
  {
    if messages != [] {
      var d, status := messages[0], StatusAfter(messages[0], log, after);
      var (view', ok) := RepairMessage(view, d, status);
      RepairedInbox(view, d, status, agent);
      ChangeIsExact(Inbox(view.inboxes, agent), d, status);
      if ok {
        RestDistinct(messages);
        GainIsExact(view', messages[1..], after, log, agent);
        forall m | m in messages[1..] ensures SameAt(view', view, m.id) {
          RepairKeepsOthers(view, d, status, m.id);
        }
        GainSame(view', view, messages[1..], after, log, agent);
      }
    }
  }

  // ----- steps and runs ---------------------------------------------------------------------

  lemma {:induction false} PendingAfterAcknowledgement(s: seq<Message>, k: nat, at: int)
    requires k < |s|
    ensures |Pending(s[k := s[k].(ackedAt := Some(at))])| <= |Pending(s)|
  {
    PendingUpdate(s, k, s[k].(ackedAt := Some(at)));
  }

  lemma {:induction false} PendingWithout(s: seq<Message>, ids: seq<string>)
    ensures |Pending(Without(s, ids))| <= |Pending(s)|
  {
    if s != [] {
      PendingWithout(Init(s), ids);
      if Last(s).id !in ids {
        InitOfAppend(Without(Init(s), ids), Last(s));
      } else {
        assert Without(s, ids) == Without(Init(s), ids);
      }
    }
  }

  /** A replay of the record a query finds leaves every agent within the limit. */
  ghost predicate ReplayFits(bus: Bus, query: Query, same: bool, limit: nat) {
    var k := Find(bus.log, query);
    k < |bus.log| && same ==>
      forall agent :: PendingCount(bus.view.inboxes, agent) +
                      Gain(bus.view, Carried(bus.log[k].payload), bus.log[k].number, bus.log, agent) <= limit
  }

  ghost predicate Fits(bus: Bus, event: Event, limit: nat) {
    match event.operation
    case OpSend(request) => ReplayFits(bus, DeliveryOf(request.id), SameSend(bus, request), limit)
    case OpBroadcast(request) =>
      ReplayFits(bus, BroadcastOf(request.id), SameCast(bus, request, Some(request.recipients)), limit)
    case OpReplaySend(request) => ReplayFits(bus, DeliveryOf(request.id), SameSend(bus, request), limit)
    case OpReplayBroadcast(request) => ReplayFits(bus, BroadcastOf(request.id), SameCast(bus, request, None), limit)
    case _ => true
  }

  lemma ReplaySendFits(bus: Bus, request: SendRequest, limit: nat)
    requires Bounded(bus.view.inboxes, limit)
    ensures Bounded(ReplaySend(bus, request).0.view.inboxes, limit) <==>
            ReplayFits(bus, DeliveryOf(request.id), SameSend(bus, request), limit)
  {
    var k := Find(bus.log, DeliveryOf(request.id));
    if SameSend(bus, request) {
      ReplayLoad(bus, k, limit);
      assert Carried(bus.log[k].payload) == [bus.log[k].payload.message];
    }
  }

  lemma ReplayBroadcastFits(bus: Bus, request: BroadcastRequest, recipients: Option<seq<AgentId>>, limit: nat)
    requires Tidy(bus) && Bounded(bus.view.inboxes, limit)
    ensures Bounded(ReplayBroadcast(bus, request, recipients).0.view.inboxes, limit) <==>
            ReplayFits(bus, BroadcastOf(request.id), SameCast(bus, request, recipients), limit)
  {
    var k := Find(bus.log, BroadcastOf(request.id));
    if SameCast(bus, request, recipients) {
      NamedIsDistinct(bus.log[k].payload);
      ReplayLoad(bus, k, limit);
    }
  }

  lemma ReplayLoad(bus: Bus, k: nat, limit: nat)
    requires k < |bus.log| && DistinctIds(Carried(bus.log[k].payload))
    ensures var messages, after := Carried(bus.log[k].payload), bus.log[k].number;
            Bounded(Repair(bus.view, messages, after, bus.log).0.inboxes, limit) <==>
            forall agent :: PendingCount(bus.view.inboxes, agent) + Gain(bus.view, messages, after, bus.log, agent) <= limit
  {
    var messages, after := Carried(bus.log[k].payload), bus.log[k].number;
    forall agent ensures PendingCount(Repair(bus.view, messages, after, bus.log).0.inboxes, agent) ==
                         PendingCount(bus.view.inboxes, agent) + Gain(bus.view, messages, after, bus.log, agent) {
      GainIsExact(bus.view, messages, after, bus.log, agent);
    }
  }

  lemma NewSendFits(bus: Bus, event: Event, limit: nat)
    requires Bounded(bus.view.inboxes, limit) && event.operation.OpSend? && LimitsWithin(event, limit)
    requires Find(bus.log, DeliveryOf(event.operation.request.id)) == |bus.log|
    ensures Bounded(Step(bus, event).view.inboxes, limit)
  {
    var request := event.operation.request;
    if SendError(bus, event.context, request).None? {
      var message := NewMessage(bus.run, request, event.context.now);
      SendLoad(bus, event, limit);
      forall agent ensures PendingCount(Deliver(bus.view.inboxes, message), agent) <= limit {
        assert PendingCount(bus.view.inboxes, agent) <= limit;
        DeliverLoad(bus.view.inboxes, message, agent);
      }
    }
  }

  lemma NewBroadcastFits(bus: Bus, event: Event, limit: nat)
    requires Bounded(bus.view.inboxes, limit) && event.operation.OpBroadcast? && LimitsWithin(event, limit)
    requires Find(bus.log, BroadcastOf(event.operation.broadcast.id)) == |bus.log|
    ensures Bounded(Step(bus, event).view.inboxes, limit)
  {
    var request := event.operation.broadcast;
    if BroadcastError(bus, event.context, request).None? {
      var messages := NewBroadcastMessages(bus.run, request, event.context.now);
      forall agent ensures PendingCount(DeliverAll(bus.view.inboxes, messages), agent) <= limit {
        BroadcastLoad(bus, event, limit, agent);
      }
    }
  }

  lemma AcknowledgeFits(bus: Bus, context: Context, agent: AgentId, id: string, limit: nat)
    requires Bounded(bus.view.inboxes, limit)
    ensures Bounded(Acknowledge(bus, context, agent, id).0.view.inboxes, limit)
  {
    var box := Inbox(bus.view.inboxes, agent);
    var k := IndexOf(box, id);
    if k < |box| {
      PendingAfterAcknowledgement(box, k, context.now);
    }
    forall a ensures PendingCount(Acknowledge(bus, context, agent, id).0.view.inboxes, a) <= limit {
      assert PendingCount(bus.view.inboxes, a) <= limit;
    }
  }

  lemma DrainFits(bus: Bus, context: Context, agent: AgentId, limit: nat)
    requires Bounded(bus.view.inboxes, limit)
    ensures Bounded(Drain(bus, context, agent).0.view.inboxes, limit)
  {
    var drained := Ids(OfRun(Inbox(bus.view.inboxes, agent), bus.run));
    PendingWithout(Inbox(bus.view.inboxes, agent), drained);
    forall a ensures PendingCount(RestoreDequeue(bus.view.inboxes, agent, drained), a) <= limit {
      DequeueInbox(bus.view.inboxes, agent, drained, a);
      assert PendingCount(bus.view.inboxes, a) <= limit;
    }
  }

  /** Whatever ids were used before, a step keeps the bound exactly when what it repairs
      fits; a restart needs the bus to be in step with its log. */
  lemma StepFitsExactly(bus: Bus, event: Event, limit: nat)
    requires Tidy(bus) && Bounded(bus.view.inboxes, limit) && LimitsWithin(event, limit)
    requires event.operation.OpRestart? ==> InStep(bus)
    ensures Bounded(Step(bus, event).view.inboxes, limit) <==> Fits(bus, event, limit)
  {
    match event.operation
    case OpSend(request) =>
      if Find(bus.log, DeliveryOf(request.id)) == |bus.log| { NewSendFits(bus, event, limit); }
      else { ReplaySendFits(bus, request, limit); }
    case OpBroadcast(request) =>
      if Find(bus.log, BroadcastOf(request.id)) == |bus.log| { NewBroadcastFits(bus, event, limit); }
      else { ReplayBroadcastFits(bus, request, Some(request.recipients), limit); }
    case OpReplaySend(request) => ReplaySendFits(bus, request, limit);
    case OpReplayBroadcast(request) => ReplayBroadcastFits(bus, request, None, limit);
    case OpAcknowledge(agent, id) => AcknowledgeFits(bus, event.context, agent, id, limit);
    case OpDrain(agent) => DrainFits(bus, event.context, agent, limit);
    case _ =>
  }

  ghost predicate AlwaysBounded(run: RunId, events: seq<Event>, limit: nat) {
    && Bounded(Run(NewBus(run), events).view.inboxes, limit)
    && (events != [] ==> AlwaysBounded(run, Init(events), limit))
  }

  ghost predicate AlwaysFits(run: RunId, events: seq<Event>, limit: nat) {
    events != [] ==> AlwaysFits(run, Init(events), limit) && Fits(Run(NewBus(run), Init(events)), Last(events), limit)
  }

  ghost predicate RestartsInStep(run: RunId, events: seq<Event>) {
    events != [] ==>
      && RestartsInStep(run, Init(events))
      && (Last(events).operation.OpRestart? ==> InStep(Run(NewBus(run), Init(events))))
  }

  /** Over any run under these limits, no agent ever has more than `limit` unacknowledged
      messages exactly when every repeat fits. */
  lemma {:induction false} RunFitsExactly(run: RunId, events: seq<Event>, limit: nat)
    requires RestartsInStep(run, events) && forall e :: e in events ==> LimitsWithin(e, limit)
    ensures AlwaysBounded(run, events, limit) <==> AlwaysFits(run, events, limit)
  {
    if events == [] {
      assert Pending([]) == [];
    } else {
      InitLast(events);
      assert forall e :: e in Init(events) ==> e in events;
      RunFitsExactly(run, Init(events), limit);
      RunsAreTidy(run, Init(events));
      if Bounded(Run(NewBus(run), Init(events)).view.inboxes, limit) {
        StepFitsExactly(Run(NewBus(run), Init(events)), Last(events), limit);
      }
    }
  }

  lemma StepInStepFits(bus: Bus, event: Event, limit: nat)
    requires InStep(bus) && InStep(Step(bus, event))
    requires Bounded(bus.view.inboxes, limit) && LimitsWithin(event, limit)
    ensures Bounded(Step(bus, event).view.inboxes, limit)
  {
    match event.operation
    case OpSend(request) =>
      if Find(bus.log, DeliveryOf(request.id)) == |bus.log| { NewSendFits(bus, event, limit); }
    case OpBroadcast(request) =>
      if Find(bus.log, BroadcastOf(request.id)) == |bus.log| { NewBroadcastFits(bus, event, limit); }
    case OpAcknowledge(agent, id) => AcknowledgeFits(bus, event.context, agent, id, limit);
    case OpDrain(agent) => DrainFits(bus, event.context, agent, limit);
    case _ =>
  }

  /** In every run that stays in step with its log, no agent ever has more unacknowledged
      messages than the largest limit in use. */
  lemma {:induction false} MailboxesStayBounded(run: RunId, events: seq<Event>, limit: nat)
    requires AlwaysStays(run, events) && forall e :: e in events ==> LimitsWithin(e, limit)
    ensures AlwaysBounded(run, events, limit)
  {
    if events == [] {
      assert Pending([]) == [];
    } else {
      InitLast(events);
      assert forall e :: e in Init(events) ==> e in events;
      MailboxesStayBounded(run, Init(events), limit);
      RunRebuildsExactly(run, events);
      StepInStepFits(Run(NewBus(run), Init(events)), Last(events), limit);
    }
  }

  /** Team limits are validated against the default, so the default always bounds. */
  lemma DefaultLimitAlwaysBounds(run: RunId, events: seq<Event>)
    requires AlwaysStays(run, events)
    ensures AlwaysBounded(run, events, DEFAULT_MAX_PENDING_MESSAGES)
  {
    assert forall e :: e in events ==> LimitsWithin(e, DEFAULT_MAX_PENDING_MESSAGES);
    MailboxesStayBounded(run, events, DEFAULT_MAX_PENDING_MESSAGES);
  }
}
