/** Exactly when a send or a broadcast of a new id is accepted, what it then writes and
    delivers, and exactly which repetitions of it are accepted later. */
module BusAcceptance {
  import opened Prelude
  import opened BusState
  import opened BusLog
  import opened BusRuns
  import opened BusAnswers

  // ----- the limits ----------------------------------------------------------------------

  /** Positions of the messages nobody acknowledged. */
  function OpenPositions(box: seq<Message>): set<nat> {
    set p: nat | p < |box| && box[p].ackedAt.None?
  }

  lemma {:induction false} PendingIsOpen(box: seq<Message>)
    ensures |Pending(box)| == |OpenPositions(box)|
  {
    if box != [] {
      PendingIsOpen(Init(box));
      var here := if Last(box).ackedAt.None? then {|box| - 1} else {};
      assert OpenPositions(box) == OpenPositions(Init(box)) + here;
    }
  }

  function Waiting(bus: Bus, agent: AgentId): nat {
    |OpenPositions(Inbox(bus.view.inboxes, agent))|
  }

  /** The team's settings are within those a mailbox has without a team. */
  predicate Bounded(team: Team) {
    1 <= team.maxPending <= 64 && 1 <= team.maxBytes <= 65_536
  }

  /** Both agents belong to the team, and the team to the Run. */
  predicate Teammates(bus: Bus, team: Team, from: AgentId, to: AgentId) {
    team.run == bus.run && from in team.members && to in team.members
  }

  /** A direct message is held to its team's limits, or to 64 open messages and 65 536
      bytes without a team. */
  predicate Sendable(bus: Bus, context: Context, request: SendRequest) {
    && Registered(context, bus.run, request.from) && Registered(context, bus.run, request.to)
    && match request.effective
       case None => |request.body| <= 65_536 && Waiting(bus, request.to) < 64
       case Some(id) =>
         && id in context.registry.teams
         && var team := context.registry.teams[id];
         && Bounded(team) && Teammates(bus, team, request.from, request.to)
         && |request.body| <= team.maxBytes && Waiting(bus, request.to) < team.maxPending
  }

  /** A broadcast needs every recipient in the team, and room for all the copies a
      recipient is listed for. */
  predicate Broadcastable(bus: Bus, context: Context, request: BroadcastRequest) {
    && Registered(context, bus.run, request.from)
    && request.team in context.registry.teams
    && var team := context.registry.teams[request.team];
    && Bounded(team) && team.run == bus.run && request.from in team.members
    && (forall to :: to in request.recipients ==> Registered(context, bus.run, to) && to in team.members)
    && |request.body| <= team.maxBytes
    && forall to :: to in request.recipients ==> Waiting(bus, to) + multiset(request.recipients)[to] <= team.maxPending
  }

  // ----- sends -------------------------------------------------------------------------------

  predicate SendRecord(payload: Payload, id: string) {
    payload.Delivered? && payload.message.id == id
  }

  lemma SendableExactly(bus: Bus, context: Context, request: SendRequest)
    ensures SendError(bus, context, request).None? <==> Sendable(bus, context, request) && context.ledgerUp
  {
    PendingIsOpen(Inbox(bus.view.inboxes, request.to));
  }

  /** A send of a new id is accepted exactly when its agents, team, size and mailbox allow
      it and the ledger is up. It writes one record and puts the message at the end of the
      recipient's mailbox; a refused one changes nothing. */
  lemma SendsExactly(bus: Bus, context: Context, request: SendRequest)
    requires forall r :: r in bus.log ==> !SendRecord(r.payload, request.id)
    ensures var (bus', answer) := Send(bus, context, request);
            var m := Message(request.id, bus.run, request.effective, request.from, request.to, request.kind,
                             request.body, context.now, None);
            if Sendable(bus, context, request) && context.ledgerUp then
              && answer == Ok(Sent(m, true))
              && Wrote(bus, bus', Delivered(m, true, request.requested))
              && Inbox(bus'.view.inboxes, request.to) == Inbox(bus.view.inboxes, request.to) + [m]
              && OtherInboxesKept(bus, bus', request.to) && bus'.view.claims == bus.view.claims
            else bus' == bus && answer.Err?
  {
    FoundIsStored(bus.log, DeliveryOf(request.id));
    SendableExactly(bus, context, request);
  }

  /** The first check that fails names the error. */
  lemma SendRefusedBecause(bus: Bus, context: Context, request: SendRequest)
    requires forall r :: r in bus.log ==> !SendRecord(r.payload, request.id)
    requires Registered(context, bus.run, request.from) && Registered(context, bus.run, request.to)
    ensures var answer := Send(bus, context, request).1;
            match request.effective
            case None =>
              && (|request.body| > 65_536 ==> answer == Err(BodyTooLarge))
              && (|request.body| <= 65_536 && Waiting(bus, request.to) >= 64 ==> answer == Err(MailboxFull))
            case Some(id) =>
              && (id !in context.registry.teams ==> answer == Err(UnknownTeam))
              && (id in context.registry.teams ==>
                    var team := context.registry.teams[id];
                    var member := Bounded(team) && Teammates(bus, team, request.from, request.to);
                    && (!Bounded(team) ==> answer == Err(InvalidLimits))
                    && (Bounded(team) && !Teammates(bus, team, request.from, request.to) ==> answer == Err(NotAMember))
                    && (member && |request.body| > team.maxBytes ==> answer == Err(BodyTooLarge))
                    && (member && |request.body| <= team.maxBytes && Waiting(bus, request.to) >= team.maxPending ==>
                          answer == Err(MailboxFull)))
  {
    FoundIsStored(bus.log, DeliveryOf(request.id));
    PendingIsOpen(Inbox(bus.view.inboxes, request.to));
  }

  /** Why a request that names this agent is refused. */
  predicate AgentRefused(context: Context, run: RunId, agent: AgentId, error: BusError) {
    error == if agent !in context.registry.agents then UnknownAgent else WrongRun
  }

  /** Agents are checked before anything else, the sender first. */
  lemma UnregisteredRefused(bus: Bus, context: Context, request: SendRequest)
    requires forall r :: r in bus.log ==> !SendRecord(r.payload, request.id)
    requires !Registered(context, bus.run, request.from) || !Registered(context, bus.run, request.to)
    ensures var (bus', answer) := Send(bus, context, request);
            && bus' == bus && answer.Err?
            && AgentRefused(context, bus.run,
                            if Registered(context, bus.run, request.from) then request.to else request.from, answer.error)
  {
    FoundIsStored(bus.log, DeliveryOf(request.id));
  }

  predicate SameSend(first: SendRequest, again: SendRequest) {
    && again.requested == first.requested && again.from == first.from && again.to == first.to
    && again.kind == first.kind && again.body == first.body
  }

  /** Once a send is in the log, a later request under its id gets the original message
      back exactly when it asks for the same team, agents, kind and body. */
  lemma RepeatedSendExactly(bus: Bus, context: Context, first: SendRequest, again: SendRequest, now: int, k: nat)
    requires Good(bus) && again.id == first.id && k < |bus.log|
    requires bus.log[k].payload ==
             Delivered(Message(first.id, bus.run, first.effective, first.from, first.to, first.kind, first.body, now, None),
                       true, first.requested)
    ensures Send(bus, context, again) ==
            (bus, if SameSend(first, again) then Ok(Sent(bus.log[k].payload.message, false)) else Err(DifferentContent))
    ensures ReplaySend(bus, again) == (bus, Some(Send(bus, context, again).1))
  {
    RepeatedSend(bus, context, again, k);
  }

  /** A record of an earlier version does not say which team was requested: the request
      must then name none or the message's own team. */
  lemma RepeatedOldSendExactly(bus: Bus, context: Context, again: SendRequest, m: Message, k: nat)
    requires Good(bus) && again.id == m.id && m.run == bus.run && k < |bus.log|
    requires bus.log[k].payload.Delivered? && bus.log[k].payload.message == m && !bus.log[k].payload.requestedKnown
    ensures Send(bus, context, again) ==
            (bus, if (again.requested == None || again.requested == m.team) && again.from == m.from && again.to == m.to
                     && again.kind == m.kind && again.body == m.body
                  then Ok(Sent(m, false)) else Err(DifferentContent))
  {
    RepeatedSend(bus, context, again, k);
  }

  // ----- broadcasts ------------------------------------------------------------------------------

  predicate BroadcastRecord(payload: Payload, id: string) {
    payload.Broadcast? && payload.broadcastId == id
  }

  lemma {:induction false} RecipientsExactly(registry: Registry, run: RunId, team: Team, recipients: seq<AgentId>)
    ensures RecipientError(registry, run, team, recipients).None? <==>
            forall to :: to in recipients ==> to in registry.agents && registry.agents[to] == run && to in team.members
    decreases |recipients|
  {
    if recipients != [] {
      RecipientsExactly(registry, run, team, recipients[1..]);
      assert recipients[0] in recipients;
      assert forall to :: to in recipients <==> to == recipients[0] || to in recipients[1..];
    }
  }

  lemma OverflowsExactly(bus: Bus, recipients: seq<AgentId>, limit: nat)
    ensures !Overflows(bus.view.inboxes, recipients, limit) <==>
            forall to :: to in recipients ==> Waiting(bus, to) + multiset(recipients)[to] <= limit
  {
    forall to ensures PendingCount(bus.view.inboxes, to) == Waiting(bus, to) {
      PendingIsOpen(Inbox(bus.view.inboxes, to));
    }
  }

  lemma BroadcastableExactly(bus: Bus, context: Context, request: BroadcastRequest)
    ensures BroadcastError(bus, context, request).None? <==> Broadcastable(bus, context, request) && context.ledgerUp
  {
    if request.team in context.registry.teams {
      var team := context.registry.teams[request.team];
      RecipientsExactly(context.registry, bus.run, team, request.recipients);
      OverflowsExactly(bus, request.recipients, team.maxPending);
      assert forall to :: Registered(context, bus.run, to) <==>
                          to in context.registry.agents && context.registry.agents[to] == bus.run;
    }
  }

  /** One copy per listed recipient, in order, numbered from zero. */
  ghost predicate Copies(messages: seq<Message>, run: RunId, request: BroadcastRequest, now: int) {
    && |messages| == |request.recipients|
    && forall i :: 0 <= i < |messages| ==>
                     messages[i] == Message(request.id + ":" + Decimal(i), run, Some(request.team), request.from,
                                            request.recipients[i], request.kind, request.body, now, None)
  }

  /** Every mailbox got the copies addressed to it, in order, at its end. */
  ghost predicate Spread(bus: Bus, bus': Bus, messages: seq<Message>) {
    forall a :: Inbox(bus'.view.inboxes, a) == Inbox(bus.view.inboxes, a) + AddressedTo(messages, a)
                && Picked(messages, AddressedTo(messages, a), Addressed(a))
  }

  lemma DeliveriesSpread(bus: Bus, bus': Bus, messages: seq<Message>)
    requires bus'.view.inboxes == DeliverAll(bus.view.inboxes, messages)
    ensures Spread(bus, bus', messages)
  {
    forall a ensures Inbox(bus'.view.inboxes, a) == Inbox(bus.view.inboxes, a) + AddressedTo(messages, a)
                     && Picked(messages, AddressedTo(messages, a), Addressed(a))
    {
      DeliverAllInbox(bus.view.inboxes, messages, a);
      AddressedPicks(messages, a);
    }
  }

  /** What an accepted broadcast did. */
  ghost predicate BroadcastDone(bus: Bus, bus': Bus, request: BroadcastRequest, now: int, messages: seq<Message>) {
    && Copies(messages, bus.run, request, now)
    && Wrote(bus, bus', Broadcast(request.id, bus.run, request.team, request.from, request.recipients, request.kind,
                                  request.body, messages))
    && Spread(bus, bus', messages)
    && bus'.view.claims == bus.view.claims
  }

  /** A broadcast of a new id is accepted, as a whole, exactly when its sender, team, size
      and all its recipients allow it and the ledger is up; a refused one changes nothing. */
  lemma BroadcastsExactly(bus: Bus, context: Context, request: BroadcastRequest)
    requires forall r :: r in bus.log ==> !BroadcastRecord(r.payload, request.id)
    ensures var (bus', answer) := BroadcastAll(bus, context, request);
            if Broadcastable(bus, context, request) && context.ledgerUp then
              && answer.Ok? && answer.value.appended
              && BroadcastDone(bus, bus', request, context.now, answer.value.messages)
            else bus' == bus && answer.Err?
  {
    FoundIsStored(bus.log, BroadcastOf(request.id));
    BroadcastableExactly(bus, context, request);
    if Broadcastable(bus, context, request) && context.ledgerUp {
      DeliveriesSpread(bus, BroadcastAll(bus, context, request).0, NewBroadcastMessages(bus.run, request, context.now));
    }
  }

  /** The first recipient that is not a registered teammate names the error. */
  lemma {:induction false} RecipientRefused(registry: Registry, run: RunId, team: Team, recipients: seq<AgentId>, i: nat)
    requires i < |recipients|
    requires forall j :: 0 <= j < i ==>
               recipients[j] in registry.agents && registry.agents[recipients[j]] == run && recipients[j] in team.members
    requires !(recipients[i] in registry.agents && registry.agents[recipients[i]] == run && recipients[i] in team.members)
    ensures RecipientError(registry, run, team, recipients) ==
            Some(if recipients[i] !in registry.agents then UnknownAgent
                 else if registry.agents[recipients[i]] != run then WrongRun
                 else NotAMember)
    decreases i
  {
    if i > 0 {
      assert recipients[0] in registry.agents && registry.agents[recipients[0]] == run && recipients[0] in team.members;
      RecipientRefused(registry, run, team, recipients[1..], i - 1);
    }
  }

  /** A broadcast from a member whose recipients are all teammates is refused for its size
      before it is refused for want of room. */
  lemma BroadcastRefusedBecause(bus: Bus, context: Context, request: BroadcastRequest)
    requires forall r :: r in bus.log ==> !BroadcastRecord(r.payload, request.id)
    requires Registered(context, bus.run, request.from)
    ensures var (bus', answer) := BroadcastAll(bus, context, request);
            && (request.team !in context.registry.teams ==> answer == Err(UnknownTeam))
            && (request.team in context.registry.teams ==>
                  var team := context.registry.teams[request.team];
                  var member := Bounded(team) && team.run == bus.run && request.from in team.members;
                  var reachable := forall to :: to in request.recipients ==>
                                     Registered(context, bus.run, to) && to in team.members;
                  && (!Bounded(team) ==> answer == Err(InvalidLimits))
                  && (Bounded(team) && !member ==> answer == Err(NotAMember))
                  && (member && reachable && |request.body| > team.maxBytes ==> answer == Err(BodyTooLarge))
                  && (member && reachable && |request.body| <= team.maxBytes && !Broadcastable(bus, context, request) ==>
                        answer == Err(MailboxFull)))
  {
    FoundIsStored(bus.log, BroadcastOf(request.id));
    if request.team in context.registry.teams {
      var team := context.registry.teams[request.team];
      RecipientsExactly(context.registry, bus.run, team, request.recipients);
      OverflowsExactly(bus, request.recipients, team.maxPending);
    }
  }

  predicate SameOffer(first: BroadcastRequest, again: BroadcastRequest) {
    again.team == first.team && again.from == first.from && again.kind == first.kind && again.body == first.body
  }

  /** Once a broadcast is in the log, a later request under its id gets the original copies
      back exactly when it asks for the same team, sender, kind, body and recipients; where
      the caller does not know the recipients, they do not matter. */
  lemma RepeatedBroadcastExactly(bus: Bus, context: Context, first: BroadcastRequest, again: BroadcastRequest, k: nat)
    requires Good(bus) && again.id == first.id && k < |bus.log| && bus.log[k].payload.Broadcast?
    requires bus.log[k].payload ==
             Broadcast(first.id, bus.run, first.team, first.from, first.recipients, first.kind, first.body,
                       bus.log[k].payload.messages)
    ensures var original := Ok(Broadcasted(bus.log[k].payload.messages, false));
            && BroadcastAll(bus, context, again) ==
               (bus, if SameOffer(first, again) && again.recipients == first.recipients then original else Err(DifferentContent))
            && ReplayBroadcast(bus, again, None) ==
               (bus, Some(if SameOffer(first, again) then original else Err(DifferentContent)))
  {
    RepeatedBroadcast(bus, context, again, Some(again.recipients), k);
    RepeatedBroadcast(bus, context, again, None, k);
  }

  // ----- numbering -----------------------------------------------------------------------------------

  /** The number a string of decimal digits stands for. */
  function Value(digits: string): int {
    if digits == [] then 0 else 10 * Value(Init(digits)) + (Last(digits) as int - '0' as int)
  }

  lemma {:induction false} DecimalStandsFor(n: nat)
    ensures Value(Decimal(n)) == n
  {
    if n < 10 {
      assert Init([Digit(n)]) == [];
    } else {
      DecimalStandsFor(n / 10);
      InitOfAppend(Decimal(n / 10), Digit(n % 10));
    }
  }
}
