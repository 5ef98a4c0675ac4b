/** What the mailbox operations answer, told by the messages a mailbox holds: which of
    them a drain or a claim hands out and in which order, what is written for it, and
    what an acknowledgement answers. */
module BusAnswers {
  import opened Prelude
  import opened BusState
  import opened BusLog
  import opened BusTheorems
  import opened BusRuns
  import opened BusConservation

  // ----- picking messages in order --------------------------------------------------------

  datatype Which =
    | In(run: RunId)
    | NotNamed(ids: seq<string>)
    | Unclaimed(run: RunId, claims: map<string, string>)
    | StillOpen(ids: seq<string>)
    | Addressed(to: AgentId)

  predicate Fits(which: Which, m: Message) {
    match which
    case In(run) => m.run == run
    case NotNamed(ids) => m.id !in ids
    case Unclaimed(run, claims) => m.run == run && m.ackedAt.None? && m.id !in claims
    case StillOpen(ids) => m.ackedAt.None? && m.id in ids
    case Addressed(to) => m.to == to
  }

  /** `chosen` is `all` at the positions `at`, which are in order and are exactly those of
      the messages that fit. */
  ghost predicate PickedAt(all: seq<Message>, chosen: seq<Message>, which: Which, at: seq<nat>) {
    && |at| == |chosen|
    && (forall i, j :: 0 <= i < j < |at| ==> at[i] < at[j])
    && (forall i :: 0 <= i < |at| ==> at[i] < |all| && chosen[i] == all[at[i]])
    && (forall p: nat :: p < |all| ==> (p in at <==> Fits(which, all[p])))
  }

  ghost predicate Picked(all: seq<Message>, chosen: seq<Message>, which: Which) {
    exists at :: PickedAt(all, chosen, which, at)
  }

  lemma PickNothing(which: Which)
    ensures Picked([], [], which)
  {
    assert PickedAt([], [], which, []);
  }

  lemma PickWanted(all: seq<Message>, chosen: seq<Message>, which: Which, at: seq<nat>)
    requires all != [] && PickedAt(Init(all), chosen, which, at) && Fits(which, Last(all))
    ensures PickedAt(all, chosen + [Last(all)], which, at + [|all| - 1])
  {
    forall p: nat | p < |all| ensures p in at + [|all| - 1] <==> Fits(which, all[p]) {
      assert p < |all| - 1 ==> Init(all)[p] == all[p];
    }
  }

  lemma PickUnwanted(all: seq<Message>, chosen: seq<Message>, which: Which, at: seq<nat>)
    requires all != [] && PickedAt(Init(all), chosen, which, at) && !Fits(which, Last(all))
    ensures PickedAt(all, chosen, which, at)
  {
    forall p: nat | p < |all| ensures p in at <==> Fits(which, all[p]) {
      assert p < |all| - 1 ==> Init(all)[p] == all[p];
    }
  }

  lemma PickOneMore(all: seq<Message>, chosen: seq<Message>, which: Which)
    requires all != [] && Picked(Init(all), chosen, which)
    ensures Picked(all, chosen + if Fits(which, Last(all)) then [Last(all)] else [], which)
  {
    var at: seq<nat> :| PickedAt(Init(all), chosen, which, at);
    if Fits(which, Last(all)) {
      PickWanted(all, chosen, which, at);
    } else {
      PickUnwanted(all, chosen, which, at);
      assert chosen + [] == chosen;
    }
  }

  lemma {:induction false} OfRunPicks(box: seq<Message>, run: RunId)
    ensures Picked(box, OfRun(box, run), In(run))
  {
    if box == [] {
      PickNothing(In(run));
    } else {
      OfRunPicks(Init(box), run);
      PickOneMore(box, OfRun(Init(box), run), In(run));
    }
  }

  lemma {:induction false} WithoutPicks(box: seq<Message>, ids: seq<string>)
    ensures Picked(box, Without(box, ids), NotNamed(ids))
  {
    if box == [] {
      PickNothing(NotNamed(ids));
    } else {
      WithoutPicks(Init(box), ids);
      PickOneMore(box, Without(Init(box), ids), NotNamed(ids));
    }
  }

  lemma {:induction false} ClaimablePicks(box: seq<Message>, run: RunId, claims: map<string, string>)
    ensures Picked(box, Claimable(box, run, claims), Unclaimed(run, claims))
  {
    if box == [] {
      PickNothing(Unclaimed(run, claims));
    } else {
      ClaimablePicks(Init(box), run, claims);
      PickOneMore(box, Claimable(Init(box), run, claims), Unclaimed(run, claims));
    }
  }

  lemma {:induction false} PendingAmongPicks(box: seq<Message>, ids: seq<string>)
    ensures Picked(box, PendingAmong(box, ids), StillOpen(ids))
  {
    if box == [] {
      PickNothing(StillOpen(ids));
    } else {
      PendingAmongPicks(Init(box), ids);
      PickOneMore(box, PendingAmong(Init(box), ids), StillOpen(ids));
    }
  }

  lemma {:induction false} AddressedPicks(messages: seq<Message>, agent: AgentId)
    ensures Picked(messages, AddressedTo(messages, agent), Addressed(agent))
  {
    if messages == [] {
      PickNothing(Addressed(agent));
    } else {
      AddressedPicks(Init(messages), agent);
      PickOneMore(messages, AddressedTo(Init(messages), agent), Addressed(agent));
    }
  }

  /** A list of ids names these messages, one by one. */
  ghost predicate Names(ids: seq<string>, messages: seq<Message>) {
    |ids| == |messages| && forall i :: 0 <= i < |ids| ==> ids[i] == messages[i].id
  }

  predicate Registered(context: Context, run: RunId, agent: AgentId) {
    agent in context.registry.agents && context.registry.agents[agent] == run
  }

  /** The operation wrote one record, with the next number. */
  ghost predicate Wrote(bus: Bus, bus': Bus, payload: Payload) {
    bus'.run == bus.run && bus'.log == bus.log + [Record(bus.next + 1, payload)] && bus'.next == bus.next + 1
  }

  ghost predicate OtherInboxesKept(bus: Bus, bus': Bus, agent: AgentId) {
    forall a :: a != agent ==> Inbox(bus'.view.inboxes, a) == Inbox(bus.view.inboxes, a)
  }

  // ----- drain --------------------------------------------------------------------------------

  /** The record of a drain names what it handed out, and the mailbox keeps exactly the
      messages the record does not name, in order. */
  ghost predicate HandedOut(bus: Bus, bus': Bus, agent: AgentId, handed: seq<Message>, ids: seq<string>) {
    && Wrote(bus, bus', Dequeued(agent, ids)) && Names(ids, handed)
    && Picked(Inbox(bus.view.inboxes, agent), Inbox(bus'.view.inboxes, agent), NotNamed(ids))
    && OtherInboxesKept(bus, bus', agent)
    && bus'.view.claims == bus.view.claims
  }

  lemma DequeueLeaves(bus: Bus, bus': Bus, agent: AgentId, handed: seq<Message>)
    requires Wrote(bus, bus', Dequeued(agent, Ids(handed)))
    requires bus'.view == bus.view.(inboxes := RestoreDequeue(bus.view.inboxes, agent, Ids(handed)))
    ensures HandedOut(bus, bus', agent, handed, Ids(handed))
  {
    var ids := Ids(handed);
    WithoutPicks(Inbox(bus.view.inboxes, agent), ids);
    DequeueInbox(bus.view.inboxes, agent, ids, agent);
    forall a | a != agent ensures Inbox(bus'.view.inboxes, a) == Inbox(bus.view.inboxes, a) {
      DequeueInbox(bus.view.inboxes, agent, ids, a);
    }
  }

  /** On every bus, a drain hands out exactly the mailbox's messages of the Run, in mailbox
      order. If there are any, it writes one record and takes them out of the mailbox. */
  lemma DrainHandsOut(bus: Bus, context: Context, agent: AgentId)
    requires Registered(context, bus.run, agent) && context.ledgerUp
    ensures var (bus', answer) := Drain(bus, context, agent);
            && answer.Ok? && Picked(Inbox(bus.view.inboxes, agent), answer.value, In(bus.run))
            && (answer.value == [] ==> bus' == bus)
            && (answer.value != [] ==> exists ids :: HandedOut(bus, bus', agent, answer.value, ids))
  {
    var handed := OfRun(Inbox(bus.view.inboxes, agent), bus.run);
    OfRunPicks(Inbox(bus.view.inboxes, agent), bus.run);
    if handed != [] {
      DequeueLeaves(bus, Drain(bus, context, agent).0, agent, handed);
    }
  }

  /** Otherwise a drain changes nothing, and the answer says why; with the ledger down it
      still succeeds on a mailbox without messages of the Run. */
  lemma DrainRefuses(bus: Bus, context: Context, agent: AgentId)
    requires !Registered(context, bus.run, agent) || !context.ledgerUp
    ensures Drain(bus, context, agent) ==
            (bus, if agent !in context.registry.agents then Err(UnknownAgent)
                  else if context.registry.agents[agent] != bus.run then Err(WrongRun)
                  else if exists m :: m in Inbox(bus.view.inboxes, agent) && m.run == bus.run then Err(LedgerFailed)
                  else Ok([]))
  {
    OfRunEmpty(Inbox(bus.view.inboxes, agent), bus.run);
  }

  lemma {:induction false} OfRunEmpty(box: seq<Message>, run: RunId)
    ensures OfRun(box, run) == [] <==> !exists m :: m in box && m.run == run
  {
    if box != [] {
      OfRunEmpty(Init(box), run);
      assert Last(box) in box;
      assert forall m :: m in box <==> m in Init(box) || m == Last(box);
    }
  }

  // ----- claim -------------------------------------------------------------------------------------

  predicate ClaimRecord(payload: Payload, claimId: string, agent: AgentId) {
    payload.Claimed? && payload.claimId == claimId && payload.agent == agent
  }

  lemma FoundIsStored(log: seq<Record>, query: Query)
    ensures Find(log, query) < |log| ==> exists r :: r in log && Answers(r.payload, query)
  {
    if Find(log, query) < |log| {
      assert log[Find(log, query)] in log;
    }
  }

  /** The record of a claim names what it handed out, and these ids and no others become
      bound to the claim. */
  ghost predicate Bound(bus: Bus, bus': Bus, agent: AgentId, claimId: string, handed: seq<Message>, ids: seq<string>) {
    && Wrote(bus, bus', Claimed(agent, claimId, ids)) && Names(ids, handed)
    && bus'.view.inboxes == bus.view.inboxes
    && (forall id :: id in bus'.view.claims <==> id in bus.view.claims || id in ids)
    && (forall id :: id in bus'.view.claims ==>
                       bus'.view.claims[id] == if id in ids then claimId else bus.view.claims[id])
  }

  /** A first claim hands out exactly the Run's open messages that nobody claimed, in
      mailbox order. If there are any, it writes one record and binds them to the claim. */
  lemma FirstClaimExactly(bus: Bus, context: Context, agent: AgentId, claimId: string)
    requires Registered(context, bus.run, agent) && context.ledgerUp
    requires forall r :: r in bus.log ==> !ClaimRecord(r.payload, claimId, agent)
    ensures var (bus', answer) := Claim(bus, context, agent, claimId);
            && answer.Ok?
            && Picked(Inbox(bus.view.inboxes, agent), answer.value, Unclaimed(bus.run, bus.view.claims))
            && (answer.value == [] ==> bus' == bus)
            && (answer.value != [] ==> exists ids :: Bound(bus, bus', agent, claimId, answer.value, ids))
  {
    FoundIsStored(bus.log, ClaimBy(claimId, agent));
    var handed := Claimable(Inbox(bus.view.inboxes, agent), bus.run, bus.view.claims);
    ClaimablePicks(Inbox(bus.view.inboxes, agent), bus.run, bus.view.claims);
    if handed != [] {
      assert Bound(bus, Claim(bus, context, agent, claimId).0, agent, claimId, handed, Ids(handed));
    }
  }

  /** Otherwise a first claim changes nothing, and the answer says why. */
  lemma FirstClaimRefuses(bus: Bus, context: Context, agent: AgentId, claimId: string)
    requires !Registered(context, bus.run, agent) || !context.ledgerUp
    requires forall r :: r in bus.log ==> !ClaimRecord(r.payload, claimId, agent)
    ensures Claim(bus, context, agent, claimId) ==
            (bus, if agent !in context.registry.agents then Err(UnknownAgent)
                  else if context.registry.agents[agent] != bus.run then Err(WrongRun)
                  else if exists m :: m in Inbox(bus.view.inboxes, agent) && Fits(Unclaimed(bus.run, bus.view.claims), m)
                  then Err(LedgerFailed)
                  else Ok([]))
  {
    FoundIsStored(bus.log, ClaimBy(claimId, agent));
    ClaimableEmpty(Inbox(bus.view.inboxes, agent), bus.run, bus.view.claims);
  }

  lemma {:induction false} ClaimableEmpty(box: seq<Message>, run: RunId, claims: map<string, string>)
    ensures Claimable(box, run, claims) == [] <==> !exists m :: m in box && Fits(Unclaimed(run, claims), m)
  {
    if box != [] {
      ClaimableEmpty(Init(box), run, claims);
      assert Last(box) in box;
      assert forall m :: m in box <==> m in Init(box) || m == Last(box);
    }
  }

  lemma FirstFound(log: seq<Record>, query: Query, j: nat)
    requires j < |log| && Answers(log[j].payload, query)
    requires forall i :: 0 <= i < j ==> !Answers(log[i].payload, query)
    ensures Find(log, query) == j
  {
  }

  /** On every bus, a repeated claim hands out the messages its first record names that are
      still open, in mailbox order, and changes nothing. */
  lemma RepeatedClaimExactly(bus: Bus, context: Context, agent: AgentId, claimId: string, j: nat)
    requires Registered(context, bus.run, agent) && j < |bus.log| && ClaimRecord(bus.log[j].payload, claimId, agent)
    requires forall i :: 0 <= i < j ==> !ClaimRecord(bus.log[i].payload, claimId, agent)
    ensures var (bus', answer) := Claim(bus, context, agent, claimId);
            bus' == bus && answer.Ok? && Picked(Inbox(bus.view.inboxes, agent), answer.value, StillOpen(bus.log[j].payload.ids))
  {
    FirstFound(bus.log, ClaimBy(claimId, agent), j);
    PendingAmongPicks(Inbox(bus.view.inboxes, agent), bus.log[j].payload.ids);
  }

  // ----- acknowledge -----------------------------------------------------------------------------------

  /** A mailbox that does not hold the id answers false. */
  lemma AcknowledgeAbsent(bus: Bus, context: Context, agent: AgentId, id: string)
    requires Registered(context, bus.run, agent) && Absent(Inbox(bus.view.inboxes, agent), id)
    ensures Acknowledge(bus, context, agent, id) == (bus, Ok(false))
  {
    LookupAbsent(Inbox(bus.view.inboxes, agent), id);
  }

  /** The first message under the id decides: one that is not the agent's own in this Run
      is refused, one acknowledged before answers true again, and any other is stamped,
      alone, by one record. */
  lemma AcknowledgeExactly(bus: Bus, context: Context, agent: AgentId, id: string, k: nat)
    requires var box := Inbox(bus.view.inboxes, agent);
             k < |box| && box[k].id == id && forall j :: 0 <= j < k ==> box[j].id != id
    requires Registered(context, bus.run, agent)
    ensures var (bus', answer) := Acknowledge(bus, context, agent, id);
            var box, box' := Inbox(bus.view.inboxes, agent), Inbox(bus'.view.inboxes, agent);
            if box[k].run != bus.run || box[k].to != agent then bus' == bus && answer == Err(NotTheRecipient)
            else if box[k].ackedAt.Some? then bus' == bus && answer == Ok(true)
            else if !context.ledgerUp then bus' == bus && answer == Err(LedgerFailed)
            else
              && answer == Ok(true) && Wrote(bus, bus', Acknowledged(agent, id, context.now))
              && |box'| == |box| && (forall j :: 0 <= j < |box| && j != k ==> box'[j] == box[j])
              && box'[k] == box[k].(ackedAt := Some(context.now))
              && OtherInboxesKept(bus, bus', agent) && bus'.view.claims == bus.view.claims
  {
    var box := Inbox(bus.view.inboxes, agent);
    assert IndexOf(box, id) == k;
  }

  // ----- messages over whole runs ---------------------------------------------------------------------------

  /** The event is a drain that hands out a message under this id. */
  ghost predicate HandsOut(bus: Bus, event: Event, id: string) {
    && event.operation.OpDrain?
    && var answer := Drain(bus, event.context, event.operation.agent).1;
       answer.Ok? && exists m :: m in answer.value && m.id == id
  }

  ghost function Handouts(run: RunId, events: seq<Event>, id: string): nat {
    if events == [] then 0
    else Handouts(run, Init(events), id) + if HandsOut(Run(NewBus(run), Init(events)), Last(events), id) then 1 else 0
  }

  lemma OnlyDrainsDequeue(bus: Bus, event: Event)
    requires !event.operation.OpDrain?
    ensures var after := Step(bus, event);
            after.log == bus.log ||
            (|after.log| == |bus.log| + 1 && Init(after.log) == bus.log && !Last(after.log).payload.Dequeued?)
  {
    StepAppends(bus, event);
  }

  lemma StepDequeues(bus: Bus, event: Event, id: string)
    ensures DequeueCount(Step(bus, event).log, id) == DequeueCount(bus.log, id) + if HandsOut(bus, event, id) then 1 else 0
  {
    if event.operation.OpDrain? {
      var drained := OfRun(Inbox(bus.view.inboxes, event.operation.agent), bus.run);
      IdsMembers(drained, id);
      InitOfAppend(bus.log, Record(bus.next + 1, Dequeued(event.operation.agent, Ids(drained))));
    } else {
      OnlyDrainsDequeue(bus, event);
    }
  }

  lemma {:induction false} HandoutsAreDequeues(run: RunId, events: seq<Event>, id: string)
    ensures Handouts(run, events, id) == DequeueCount(Run(NewBus(run), events).log, id)
  {
    if events != [] {
      HandoutsAreDequeues(run, Init(events), id);
      StepDequeues(Run(NewBus(run), Init(events)), Last(events), id);
    }
  }

  /** No mailbox holds the id. */
  ghost predicate Gone(bus: Bus, id: string) {
    forall a :: Absent(Inbox(bus.view.inboxes, a), id)
  }

  lemma GoneIsDequeued(bus: Bus, i: int, k: int)
    requires Good(bus) && CarriedAt(bus.log, i, k)
    ensures var id := CarriedMessage(bus.log, i, k).id; DequeueCount(bus.log, id) == if Gone(bus, id) then 1 else 0
  {
    var d := CarriedMessage(bus.log, i, k);
    MessagesAreConserved(bus.run, bus.log, i, k);
    if DequeueCount(bus.log, d.id) == 1 {
      assert forall a :: Absent(Inbox(RestoreLog(bus.log).inboxes, a), d.id);
      assert Gone(bus, d.id);
    } else {
      assert !Absent(Inbox(bus.view.inboxes, d.to), d.id);
    }
  }

  /** Every message of a run is handed out by exactly one drain once no mailbox holds it,
      and by none as long as one does. */
  lemma HandedOutOnce(run: RunId, events: seq<Event>, i: int, k: int)
    requires ApartRun(run, events) && CarriedAt(Run(NewBus(run), events).log, i, k)
    ensures var bus := Run(NewBus(run), events);
            var id := CarriedMessage(bus.log, i, k).id;
            Handouts(run, events, id) == if Gone(bus, id) then 1 else 0
  {
    var bus := Run(NewBus(run), events);
    RunsAreGood(run, events);
    GoneIsDequeued(bus, i, k);
    HandoutsAreDequeues(run, events, CarriedMessage(bus.log, i, k).id);
  }

  lemma {:induction false} LogGrows(run: RunId, events: seq<Event>, e: nat)
    requires e <= |events|
    ensures Run(NewBus(run), events[..e]).log <= Run(NewBus(run), events).log
  {
    if e == |events| {
      assert events[..e] == events;
    } else {
      assert Init(events)[..e] == events[..e];
      LogGrows(run, Init(events), e);
      StepAppends(Run(NewBus(run), Init(events)), Last(events));
    }
  }

  lemma {:induction false} ApartPrefix(run: RunId, events: seq<Event>, e: nat)
    requires ApartRun(run, events) && e <= |events|
    ensures ApartRun(run, events[..e])
  {
    forall k | 0 <= k < e ensures Apart(Run(NewBus(run), events[..e][..k]).log, events[..e][k].operation) {
      assert events[..e][..k] == events[..k] && events[..e][k] == events[k];
    }
  }

  /** Whenever a drain of a run hands out a message, it goes to its addressee with the
      content it was delivered with; only the acknowledgement may differ. */
  lemma HandedOutUnchanged(run: RunId, events: seq<Event>, e: nat, m: Message, i: int, k: int)
    requires ApartRun(run, events) && CarriedAt(Run(NewBus(run), events).log, i, k)
    requires e < |events| && events[e].operation.OpDrain?
    requires var answer := Drain(Run(NewBus(run), events[..e]), events[e].context, events[e].operation.agent).1;
             answer.Ok? && m in answer.value
    requires m.id == CarriedMessage(Run(NewBus(run), events).log, i, k).id
    ensures var d := CarriedMessage(Run(NewBus(run), events).log, i, k);
            m == d.(ackedAt := m.ackedAt) && events[e].operation.agent == d.to
  {
    var bus, earlier, agent := Run(NewBus(run), events), Run(NewBus(run), events[..e]), events[e].operation.agent;
    ApartPrefix(run, events, e);
    RunsAreGood(run, events);
    RunsAreGood(run, events[..e]);
    LogGrows(run, events, e);
    DrainedHasOrigin(earlier, events[e].context, agent, m);
    var j, l :| CarriedAt(earlier.log, j, l) && SameContent(CarriedMessage(earlier.log, j, l), m);
    assert CarriedAt(bus.log, j, l) && CarriedMessage(bus.log, j, l) == CarriedMessage(earlier.log, j, l);
    UniqueDelivery(run, bus.log, i, k, j, l);
  }

  lemma DrainedHasOrigin(bus: Bus, context: Context, agent: AgentId, m: Message)
    requires Good(bus)
    requires var answer := Drain(bus, context, agent).1; answer.Ok? && m in answer.value
    ensures HasOrigin(bus.log, m) && m.to == agent
  {
    var box := Inbox(bus.view.inboxes, agent);
    RestoredIsSound(bus.run, bus.log);
    OfRunIsAll(box, bus.run);
  }
}
