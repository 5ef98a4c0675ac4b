/** Whole runs of the message bus in which no message id is delivered twice:
    restoring rebuilds the live state and repeating a request changes nothing. */
module BusRuns {
  import opened Prelude
  import opened BusState
  import opened BusLog
  import opened BusTheorems

  // ----- repeats -------------------------------------------------------------------

  lemma StoreBack(inboxes: Inboxes, agent: AgentId)
    requires forall a :: a in inboxes ==> inboxes[a] != []
    ensures Store(inboxes, agent, Inbox(inboxes, agent)) == inboxes
  {
  }

  lemma {:induction false} WithoutAbsent(s: seq<Message>, id: string)
    requires Absent(s, id)
    ensures Without(s, [id]) == s
  {
    if s != [] {
      InitLast(s);
      assert forall m :: m in Init(s) ==> m in s;
      WithoutAbsent(Init(s), id);
    }
  }

  lemma RepairTracked(view: View, d: Message, status: Status)
    requires Tracks(view, d, status) && forall a :: a in view.inboxes ==> view.inboxes[a] != []
    ensures RepairMessage(view, d, status) == (view, true)
  {
    var box := Inbox(view.inboxes, d.to);
    assert status.claim.Some? ==> view.claims[d.id := status.claim.value] == view.claims;
    if status.dequeued {
      LookupAbsent(box, d.id);
      WithoutAbsent(box, d.id);
      StoreBack(view.inboxes, d.to);
    } else {
      var p := IndexOf(box, d.id);
      assert box[p := box[p].(ackedAt := status.ackedAt)] == box;
      assert view.inboxes[d.to := box] == view.inboxes;
    }
  }

  /** Repairing a message of a view that agrees with its log changes nothing. */
  lemma RepairMessageIsIdentity(run: RunId, log: seq<Record>, i: int, k: int)
    requires WellFormed(run, log) && CarriedAt(log, i, k)
    ensures var d := CarriedMessage(log, i, k);
            RepairMessage(RestoreLog(log), d, StatusAfter(d, log, log[i].number)) == (RestoreLog(log), true)
  {
    StatusDecidesEntry(run, log, i, k);
    RestoredIsSound(run, log);
    RepairTracked(RestoreLog(log), CarriedMessage(log, i, k), StatusAfter(CarriedMessage(log, i, k), log, log[i].number));
  }

  lemma {:induction false} RepairIsIdentity(run: RunId, log: seq<Record>, i: int, k: nat)
    requires WellFormed(run, log) && 0 <= i < |log| && k <= |Carried(log[i].payload)|
    ensures Repair(RestoreLog(log), Carried(log[i].payload)[k..], log[i].number, log) == (RestoreLog(log), true)
    decreases |Carried(log[i].payload)| - k
  {
    var messages := Carried(log[i].payload);
    if k < |messages| {
      RepairMessageIsIdentity(run, log, i, k);
      RepairIsIdentity(run, log, i, k + 1);
      assert messages[k..][1..] == messages[k + 1..];
    }
  }

  // ----- the live bus and its log ------------------------------------------------------

  /** The bus state is the one its log restores to. */
  ghost predicate Good(bus: Bus) {
    && WellFormed(bus.run, bus.log)
    && bus.view == RestoreLog(bus.log)
    && forall i :: 0 <= i < |bus.log| ==> bus.log[i].number <= bus.next
  }

  /** Sending the same request again answers with the original message and leaves
      log, mailboxes and claims as they were; another request under that id is
      refused, also without any change. */
  lemma RepeatedSend(bus: Bus, context: Context, request: SendRequest, k: nat)
    requires Good(bus) && k < |bus.log| && bus.log[k].payload.Delivered?
    requires bus.log[k].payload.message.id == request.id
    ensures var answer := if SameRequest(bus.run, bus.log[k].payload, request)
                          then Ok(Sent(bus.log[k].payload.message, false)) else Err(DifferentContent);
            ReplaySend(bus, request) == (bus, Some(answer)) && Send(bus, context, request) == (bus, answer)
  {
    var found := Find(bus.log, DeliveryOf(request.id));
    assert Answers(bus.log[k].payload, DeliveryOf(request.id));
    assert CarriedMessage(bus.log, found, 0).id == CarriedMessage(bus.log, k, 0).id;
    UniqueDelivery(bus.run, bus.log, found, 0, k, 0);
    RepairIsIdentity(bus.run, bus.log, k, 0);
    assert Carried(bus.log[k].payload)[0..] == [bus.log[k].payload.message];
  }

  lemma UniqueBroadcast(run: RunId, log: seq<Record>, i: nat, j: nat)
    requires WellFormed(run, log) && i < |log| && j < |log|
    requires log[i].payload.Broadcast? && log[j].payload.Broadcast?
    requires log[i].payload.broadcastId == log[j].payload.broadcastId
    ensures i == j
  {
    WellFormedAt(run, log, i);
    WellFormedAt(run, log, j);
    var query := BroadcastOf(log[i].payload.broadcastId);
    assert i < j ==> !Answers(log[..j][i].payload, query);
    assert j < i ==> !Answers(log[..i][j].payload, query);
  }

  /** The same for a broadcast, whether or not the caller names the recipients again. */
  lemma RepeatedBroadcast(bus: Bus, context: Context, request: BroadcastRequest, recipients: Option<seq<AgentId>>, k: nat)
    requires Good(bus) && k < |bus.log| && bus.log[k].payload.Broadcast?
    requires bus.log[k].payload.broadcastId == request.id
    ensures ReplayBroadcast(bus, request, recipients) ==
            (bus, Some(if SameBroadcast(bus.run, bus.log[k].payload, request, recipients)
                       then Ok(Broadcasted(bus.log[k].payload.messages, false)) else Err(DifferentContent)))
    ensures recipients == Some(request.recipients) ==>
              BroadcastAll(bus, context, request) == (bus, ReplayBroadcast(bus, request, recipients).1.value)
  {
    var found := Find(bus.log, BroadcastOf(request.id));
    assert Answers(bus.log[k].payload, BroadcastOf(request.id));
    UniqueBroadcast(bus.run, bus.log, found, k);
    RepairIsIdentity(bus.run, bus.log, k, 0);
    assert Carried(bus.log[k].payload)[0..] == bus.log[k].payload.messages;
  }

  /** The operation gives no message an id that a record of the other kind delivered:
      a send not that of a broadcast copy, a broadcast not that of a direct message. */
  ghost predicate Apart(log: seq<Record>, operation: Operation) {
    match operation
    case OpSend(request) =>
      forall i, k :: CarriedAt(log, i, k) && log[i].payload.Broadcast? ==> CarriedMessage(log, i, k).id != request.id
    case OpBroadcast(request) =>
      forall i, k :: 0 <= i < |log| && log[i].payload.Delivered? && 0 <= k < |request.recipients| ==>
                       log[i].payload.message.id != BroadcastMessageId(request.id, k)
    case _ => true
  }

  ghost predicate ApartRun(run: RunId, events: seq<Event>) {
    forall k :: 0 <= k < |events| ==> Apart(Run(NewBus(run), events[..k]).log, events[k].operation)
  }

  /** One admissible record, applied the way a restore applies it, keeps `Good`. */
  lemma GoodAfterAppend(bus: Bus, payload: Payload, view: View)
    requires Good(bus) && Admissible(bus.run, bus.log, payload)
    requires view == Restore(bus.view, payload)
    ensures Good(Append(bus, payload).(view := view))
  {
    InitOfAppend(bus.log, Record(bus.next + 1, payload));
  }

  lemma NewSendIsFresh(log: seq<Record>, request: SendRequest)
    requires Apart(log, OpSend(request)) && Find(log, DeliveryOf(request.id)) == |log|
    ensures !CarriesId(log, request.id)
  {
    forall i, k | CarriedAt(log, i, k) ensures CarriedMessage(log, i, k).id != request.id {
      assert !Answers(log[i].payload, DeliveryOf(request.id));
    }
  }

  lemma NewBroadcastIsFresh(run: RunId, log: seq<Record>, request: BroadcastRequest, l: nat)
    requires WellFormed(run, log) && Apart(log, OpBroadcast(request)) && Find(log, BroadcastOf(request.id)) == |log|
    requires l < |request.recipients|
    ensures !CarriesId(log, BroadcastMessageId(request.id, l))
  {
    forall i, k | CarriedAt(log, i, k) ensures CarriedMessage(log, i, k).id != BroadcastMessageId(request.id, l) {
      assert !Answers(log[i].payload, BroadcastOf(request.id));
      WellFormedAt(run, log, i);
      if log[i].payload.Broadcast? && CarriedMessage(log, i, k).id == BroadcastMessageId(request.id, l) {
        BroadcastMessageIdInjective(log[i].payload.broadcastId, k, request.id, l);
      }
    }
  }

  lemma SendKeepsGood(bus: Bus, context: Context, request: SendRequest)
    requires Good(bus) && Apart(bus.log, OpSend(request))
    ensures Good(Send(bus, context, request).0)
  {
    var k := Find(bus.log, DeliveryOf(request.id));
    if k < |bus.log| {
      RepeatedSend(bus, context, request, k);
    } else if SendError(bus, context, request).None? {
      var message := NewMessage(bus.run, request, context.now);
      var payload := Delivered(message, true, request.requested);
      NewSendIsFresh(bus.log, request);
      RestoredIsSound(bus.run, bus.log);
      CarriedRestored(bus.run, bus.log, bus.view, payload);
      assert Init([message]) == [];
      assert DeliverAll(bus.view.inboxes, [message]) == Deliver(bus.view.inboxes, message);
      GoodAfterAppend(bus, payload, bus.view.(inboxes := Deliver(bus.view.inboxes, message)));
    }
  }

  function BroadcastPayload(bus: Bus, context: Context, request: BroadcastRequest): Payload {
    Broadcast(request.id, bus.run, request.team, request.from, request.recipients, request.kind, request.body,
              NewBroadcastMessages(bus.run, request, context.now))
  }

  lemma BroadcastKeepsGood(bus: Bus, context: Context, request: BroadcastRequest)
    requires Good(bus) && Apart(bus.log, OpBroadcast(request))
    ensures Good(BroadcastAll(bus, context, request).0)
  {
    var k := Find(bus.log, BroadcastOf(request.id));
    if k < |bus.log| {
      RepeatedBroadcast(bus, context, request, Some(request.recipients), k);
    } else if BroadcastError(bus, context, request).None? {
      var payload := BroadcastPayload(bus, context, request);
      forall l | 0 <= l < |payload.messages| ensures !CarriesId(bus.log, payload.messages[l].id) {
        NewBroadcastIsFresh(bus.run, bus.log, request, l);
      }
      assert Admissible(bus.run, bus.log, payload);
      if payload.messages != [] {
        RestoredIsSound(bus.run, bus.log);
        CarriedRestored(bus.run, bus.log, bus.view, payload);
      }
      GoodAfterAppend(bus, payload, bus.view.(inboxes := DeliverAll(bus.view.inboxes, payload.messages)));
    }
  }

  lemma AcknowledgeKeepsGood(bus: Bus, context: Context, agent: AgentId, id: string)
    requires Good(bus)
    ensures Good(Acknowledge(bus, context, agent, id).0)
  {
    var bus' := Acknowledge(bus, context, agent, id).0;
    if bus' != bus {
      GoodAfterAppend(bus, Acknowledged(agent, id, context.now), bus'.view);
    }
  }

  lemma ClaimKeepsGood(bus: Bus, context: Context, agent: AgentId, claimId: string)
    requires Good(bus)
    ensures Good(Claim(bus, context, agent, claimId).0)
  {
    var bus' := Claim(bus, context, agent, claimId).0;
    if bus' != bus {
      var ids := Ids(Claimable(Inbox(bus.view.inboxes, agent), bus.run, bus.view.claims));
      GoodAfterAppend(bus, Claimed(agent, claimId, ids), bus'.view);
    }
  }

  lemma DrainKeepsGood(bus: Bus, context: Context, agent: AgentId)
    requires Good(bus)
    ensures Good(Drain(bus, context, agent).0)
  {
    var bus' := Drain(bus, context, agent).0;
    if bus' != bus {
      GoodAfterAppend(bus, Dequeued(agent, Ids(OfRun(Inbox(bus.view.inboxes, agent), bus.run))), bus'.view);
    }
  }

  lemma StepKeepsGood(bus: Bus, event: Event)
    requires Good(bus) && Apart(bus.log, event.operation)
    ensures Good(Step(bus, event))
  {
    match event.operation {
      case OpSend(request) => SendKeepsGood(bus, event.context, request);
      case OpBroadcast(request) => BroadcastKeepsGood(bus, event.context, request);
      case OpReplaySend(request) => ReplayKeepsGood(bus, event);
      case OpReplayBroadcast(request) => ReplayKeepsGood(bus, event);
      case OpClaim(agent, claimId) => ClaimKeepsGood(bus, event.context, agent, claimId);
      case OpAcknowledge(agent, id) => AcknowledgeKeepsGood(bus, event.context, agent, id);
      case OpDrain(agent) => DrainKeepsGood(bus, event.context, agent);
      case _ => QuietStepKeepsGood(bus, event);
    }
  }

  lemma ReplayKeepsGood(bus: Bus, event: Event)
    requires Good(bus) && (event.operation.OpReplaySend? || event.operation.OpReplayBroadcast?)
    ensures Step(bus, event) == bus
  {
    if event.operation.OpReplaySend? {
      var request := event.operation.request;
      var k := Find(bus.log, DeliveryOf(request.id));
      if k < |bus.log| {
        RepeatedSend(bus, event.context, request, k);
      }
    } else {
      var request := event.operation.broadcast;
      var k := Find(bus.log, BroadcastOf(request.id));
      if k < |bus.log| {
        RepeatedBroadcast(bus, event.context, request, None, k);
      }
    }
  }

  lemma QuietStepKeepsGood(bus: Bus, event: Event)
    requires Good(bus) && (event.operation.OpForeign? || event.operation.OpOtherRun? || event.operation.OpRestart?)
    ensures Good(Step(bus, event))
  {
    if event.operation.OpForeign? {
      GoodAfterAppend(bus, Foreign(event.operation.text), bus.view);
    }
  }

  lemma StepKeepsRun(bus: Bus, event: Event)
    ensures Step(bus, event).run == bus.run
  {
  }

  lemma {:induction false} RunKeepsRun(run: RunId, events: seq<Event>)
    ensures Run(NewBus(run), events).run == run
  {
    if events != [] {
      RunKeepsRun(run, Init(events));
      StepKeepsRun(Run(NewBus(run), Init(events)), Last(events));
    }
  }

  lemma ApartInit(run: RunId, events: seq<Event>)
    requires ApartRun(run, events) && events != []
    ensures ApartRun(run, Init(events)) && Apart(Run(NewBus(run), Init(events)).log, Last(events).operation)
  {
    assert events[..|events| - 1] == Init(events);
    forall k | 0 <= k < |Init(events)| ensures Apart(Run(NewBus(run), Init(events)[..k]).log, Init(events)[k].operation) {
      assert Init(events)[..k] == events[..k] && Init(events)[k] == events[k];
    }
  }

  lemma {:induction false} RunsAreGood(run: RunId, events: seq<Event>)
    requires ApartRun(run, events)
    ensures Good(Run(NewBus(run), events)) && Run(NewBus(run), events).run == run
  {
    if events != [] {
      ApartInit(run, events);
      RunsAreGood(run, Init(events));
      StepKeepsGood(Run(NewBus(run), Init(events)), Last(events));
    }
    RunKeepsRun(run, events);
  }

  /** After any run of live operations the restore routines, fed the Run's records
      in order, rebuild exactly the live mailboxes and claims. */
  lemma RestoreRebuildsLiveState(run: RunId, events: seq<Event>)
    requires ApartRun(run, events)
    ensures RestoreLog(Run(NewBus(run), events).log) == Run(NewBus(run), events).view
  {
    RunsAreGood(run, events);
  }

  // ----- a condition on the requests alone -----------------------------------------------

  /** No direct id of the run is the id of a copy of one of its broadcasts. */
  ghost predicate DisjointIds(events: seq<Event>) {
    forall e, f, k :: e in events && f in events && e.operation.OpSend? && f.operation.OpBroadcast? &&
                      0 <= k < |f.operation.broadcast.recipients| ==>
                        e.operation.request.id != BroadcastMessageId(f.operation.broadcast.id, k)
  }

  /** The event asks for the delivery this record makes, if it makes one. */
  ghost predicate Asks(e: Event, payload: Payload) {
    match payload
    case Delivered(m, _, _) => e.operation.OpSend? && e.operation.request.id == m.id
    case Broadcast(b, _, _, _, _, _, _, messages) =>
      && e.operation.OpBroadcast? && e.operation.broadcast.id == b
      && |messages| == |e.operation.broadcast.recipients|
      && forall k :: 0 <= k < |messages| ==> messages[k].id == BroadcastMessageId(b, k)
    case _ => true
  }

  /** A step leaves the log alone or adds one record that its event asked for. */
  ghost predicate Appends(before: Bus, after: Bus, event: Event) {
    || after.log == before.log
    || (|after.log| == |before.log| + 1 && Init(after.log) == before.log && Asks(event, Last(after.log).payload))
  }

  lemma StepAppends(bus: Bus, event: Event)
    ensures Appends(bus, Step(bus, event), event)
  {
    match event.operation
    case OpSend(request) =>
      var message := NewMessage(bus.run, request, event.context.now);
      InitOfAppend(bus.log, Record(bus.next + 1, Delivered(message, true, request.requested)));
    case OpBroadcast(request) =>
      InitOfAppend(bus.log, Record(bus.next + 1, BroadcastPayload(bus, event.context, request)));
    case _ => OtherAppends(bus, event);
  }

  lemma OtherAppends(bus: Bus, event: Event)
    requires !event.operation.OpSend? && !event.operation.OpBroadcast?
    ensures Appends(bus, Step(bus, event), event)
  {
    var after := Step(bus, event);
    if after.log != bus.log {
      InitOfAppend(bus.log, Last(after.log));
    }
  }

  ghost predicate AskedFor(payload: Payload, events: seq<Event>) {
    exists e :: e in events && Asks(e, payload)
  }

  lemma {:induction false} LogWasAskedFor(run: RunId, events: seq<Event>, i: int)
    requires 0 <= i < |Run(NewBus(run), events).log|
    ensures AskedFor(Run(NewBus(run), events).log[i].payload, events)
  {
    var before, after := Run(NewBus(run), Init(events)), Run(NewBus(run), events);
    StepAppends(before, Last(events));
    assert Last(events) in events;
    if i < |before.log| {
      LogWasAskedFor(run, Init(events), i);
      assert forall e :: e in Init(events) ==> e in events;
      assert after.log[i] == before.log[i];
    }
  }

  /** Disjoint ids keep every step of the run apart. */
  lemma DisjointIdsStayApart(run: RunId, events: seq<Event>)
    requires DisjointIds(events)
    ensures ApartRun(run, events)
  {
    forall k | 0 <= k < |events| ensures Apart(Run(NewBus(run), events[..k]).log, events[k].operation) {
      var log := Run(NewBus(run), events[..k]).log;
      assert events[k] in events && forall e :: e in events[..k] ==> e in events;
      forall i | 0 <= i < |log| ensures AskedFor(log[i].payload, events) {
        LogWasAskedFor(run, events[..k], i);
      }
      match events[k].operation
      case OpSend(request) =>
        forall i, l | CarriedAt(log, i, l) && log[i].payload.Broadcast?
          ensures CarriedMessage(log, i, l).id != request.id
        {
          assert AskedFor(log[i].payload, events);
        }
      case OpBroadcast(request) =>
        forall i, l | 0 <= i < |log| && log[i].payload.Delivered? && 0 <= l < |request.recipients|
          ensures log[i].payload.message.id != BroadcastMessageId(request.id, l)
        {
          assert AskedFor(log[i].payload, events);
        }
      case _ =>
    }
  }
}
