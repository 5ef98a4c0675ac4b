/** The message bus of one Run as a value: its mailboxes, its claims and the
    ledger records that the bus reads back. Every live operation and every
    restore routine is a function on this value; `MessageBus.dfy` holds the
    object that is updated in place. */
module BusState {
  import opened Prelude

  type RunId = string
  type AgentId = string
  type TeamId = string

  /** A body is its serialized text, so its size is its length. */
  datatype Message = Message(id: string, run: RunId, team: Option<TeamId>, from: AgentId, to: AgentId,
                             kind: string, body: string, createdAt: int, ackedAt: Option<int>)

  datatype Payload =
    | Delivered(message: Message, requestedKnown: bool, requested: Option<TeamId>)
    | Broadcast(broadcastId: string, run: RunId, team: TeamId, from: AgentId, recipients: seq<AgentId>,
                kind: string, body: string, messages: seq<Message>)
    | Claimed(agent: AgentId, claimId: string, ids: seq<string>)
    | Acknowledged(agent: AgentId, messageId: string, at: int)
    | Dequeued(agent: AgentId, ids: seq<string>)
    | Foreign(text: string)  // a record some other component wrote under the same Run

  datatype Record = Record(number: nat, payload: Payload)

  type Inboxes = map<AgentId, seq<Message>>

  datatype View = View(inboxes: Inboxes, claims: map<string, string>)

  datatype Bus = Bus(run: RunId, view: View, log: seq<Record>, next: nat)

  const EmptyView := View(map[], map[])

  datatype Team = Team(run: RunId, maxPending: nat, maxBytes: nat, members: set<AgentId>)

  /** What the agent and team registries hold when an operation runs. */
  datatype Registry = Registry(agents: map<AgentId, RunId>, teams: map<TeamId, Team>)

  /** Registries, clock and ledger availability at the time of one call. */
  datatype Context = Context(registry: Registry, now: int, ledgerUp: bool)

  datatype BusError =
    | DifferentContent | ProjectionConflict | UnknownAgent | WrongRun | UnknownTeam
    | InvalidLimits | NotAMember | NotTheRecipient | BodyTooLarge | MailboxFull | LedgerFailed

  const DEFAULT_MAX_PENDING_MESSAGES: nat := 64
  const DEFAULT_MAX_MESSAGE_BYTES: nat := 65_536

  // ----- mailboxes ---------------------------------------------------------

  function Inbox(inboxes: Inboxes, agent: AgentId): seq<Message> {
    if agent in inboxes then inboxes[agent] else []
  }

  function Ids(messages: seq<Message>): (r: seq<string>)
    ensures |r| == |messages|
  {
    seq(|messages|, i requires 0 <= i < |messages| => messages[i].id)
  }

  function IndexOf(messages: seq<Message>, id: string): (k: nat)
    ensures k <= |messages|
    ensures k < |messages| ==> messages[k].id == id
    ensures forall j :: 0 <= j < k ==> messages[j].id != id
  {
    if messages == [] || messages[0].id == id then 0 else 1 + IndexOf(messages[1..], id)
  }

  function Pending(messages: seq<Message>): seq<Message> {
    if messages == [] then []
    else Pending(Init(messages)) + if Last(messages).ackedAt.None? then [Last(messages)] else []
  }

  /** The unacknowledged messages an earlier claim named. */
  function PendingAmong(messages: seq<Message>, ids: seq<string>): seq<Message> {
    if messages == [] then []
    else PendingAmong(Init(messages), ids) +
         if Last(messages).ackedAt.None? && Last(messages).id in ids then [Last(messages)] else []
  }

  predicate IsClaimable(message: Message, run: RunId, claims: map<string, string>) {
    message.run == run && message.ackedAt.None? && message.id !in claims
  }

  function Claimable(messages: seq<Message>, run: RunId, claims: map<string, string>): seq<Message> {
    if messages == [] then []
    else Claimable(Init(messages), run, claims) +
         if IsClaimable(Last(messages), run, claims) then [Last(messages)] else []
  }

  function OfRun(messages: seq<Message>, run: RunId): seq<Message> {
    if messages == [] then []
    else OfRun(Init(messages), run) + if Last(messages).run == run then [Last(messages)] else []
  }

  function Without(messages: seq<Message>, ids: seq<string>): seq<Message> {
    if messages == [] then []
    else Without(Init(messages), ids) + if Last(messages).id in ids then [] else [Last(messages)]
  }

  /** A mailbox that becomes empty is removed from the table. */
  function Store(inboxes: Inboxes, agent: AgentId, messages: seq<Message>): Inboxes {
    if messages == [] then inboxes - {agent} else inboxes[agent := messages]
  }

  function Deliver(inboxes: Inboxes, message: Message): Inboxes {
    inboxes[message.to := Inbox(inboxes, message.to) + [message]]
  }

  function DeliverAll(inboxes: Inboxes, messages: seq<Message>): Inboxes {
    if messages == [] then inboxes else Deliver(DeliverAll(inboxes, Init(messages)), Last(messages))
  }

  // ----- restoring a view from the log --------------------------------------

  function RestoreMessage(inboxes: Inboxes, message: Message): Inboxes {
    if message.id in Ids(Inbox(inboxes, message.to)) then inboxes else Deliver(inboxes, message)
  }

  function RestoreMessages(inboxes: Inboxes, messages: seq<Message>): Inboxes {
    if messages == [] then inboxes else RestoreMessage(RestoreMessages(inboxes, Init(messages)), Last(messages))
  }

  function RestoreClaim(claims: map<string, string>, claimId: string, ids: seq<string>): map<string, string> {
    claims + map id | id in ids :: claimId
  }

  function RestoreAcknowledgement(inboxes: Inboxes, agent: AgentId, id: string, at: int): Inboxes {
    var messages := Inbox(inboxes, agent);
    var k := IndexOf(messages, id);
    if k < |messages| then inboxes[agent := messages[k := messages[k].(ackedAt := Some(at))]] else inboxes
  }

  function RestoreDequeue(inboxes: Inboxes, agent: AgentId, ids: seq<string>): Inboxes {
    if agent in inboxes then Store(inboxes, agent, Without(inboxes[agent], ids)) else inboxes
  }

  function Restore(view: View, payload: Payload): View {
    match payload
    case Delivered(message, _, _) => view.(inboxes := RestoreMessage(view.inboxes, message))
    case Broadcast(_, _, _, _, _, _, _, messages) => view.(inboxes := RestoreMessages(view.inboxes, messages))
    case Claimed(_, claimId, ids) => view.(claims := RestoreClaim(view.claims, claimId, ids))
    case Acknowledged(agent, id, at) => view.(inboxes := RestoreAcknowledgement(view.inboxes, agent, id, at))
    case Dequeued(agent, ids) => view.(inboxes := RestoreDequeue(view.inboxes, agent, ids))
    case Foreign(_) => view
  }

  /** Feeds the records in order to the restore routines of an empty bus. */
  function RestoreLog(log: seq<Record>): View {
    if log == [] then EmptyView else Restore(RestoreLog(Init(log)), Last(log).payload)
  }

  // ----- looking records up --------------------------------------------------

  datatype Query = DeliveryOf(id: string) | BroadcastOf(id: string) | ClaimBy(claimId: string, agent: AgentId)

  predicate Answers(payload: Payload, query: Query) {
    match query
    case DeliveryOf(id) => payload.Delivered? && payload.message.id == id
    case BroadcastOf(id) => payload.Broadcast? && payload.broadcastId == id
    case ClaimBy(claimId, agent) => payload.Claimed? && payload.claimId == claimId && payload.agent == agent
  }

  function Find(log: seq<Record>, query: Query): (k: nat)
    ensures k <= |log|
    ensures k < |log| ==> Answers(log[k].payload, query)
    ensures forall j :: 0 <= j < k ==> !Answers(log[j].payload, query)
  {
    if log == [] || Answers(log[0].payload, query) then 0 else 1 + Find(log[1..], query)
  }

  // ----- repairing messages whose in-memory delivery may be missing ----------

  datatype Status = Status(ackedAt: Option<int>, claim: Option<string>, dequeued: bool)

  function Observe(status: Status, id: string, payload: Payload): Status {
    match payload
    case Acknowledged(_, messageId, at) => if messageId == id then status.(ackedAt := Some(at)) else status
    case Claimed(_, claimId, ids) => if id in ids then status.(claim := Some(claimId)) else status
    case Dequeued(_, ids) => if id in ids then status.(dequeued := true) else status
    case _ => status
  }

  /** What the records after number `after` say happened to `message`. */
  function StatusAfter(message: Message, log: seq<Record>, after: nat): Status {
    if log == [] then Status(message.ackedAt, None, false)
    else
      var status := StatusAfter(message, Init(log), after);
      if Last(log).number > after then Observe(status, message.id, Last(log).payload) else status
  }

  predicate SameContent(left: Message, right: Message) {
    left.(ackedAt := None) == right.(ackedAt := None)
  }

  function RepairMessage(view: View, message: Message, status: Status): (View, bool) {
    var claims := if status.claim.Some? then view.claims[message.id := status.claim.value] else view.claims;
    var messages := Inbox(view.inboxes, message.to);
    var k := IndexOf(messages, message.id);
    if status.dequeued then
      (View(Store(view.inboxes, message.to, Without(messages, [message.id])), claims), true)
    else if k == |messages| then
      (View(Deliver(view.inboxes, message.(ackedAt := status.ackedAt)), claims), true)
    else if SameContent(messages[k], message) then
      (View(view.inboxes[message.to := messages[k := messages[k].(ackedAt := status.ackedAt)]], claims), true)
    else
      (View(view.inboxes, claims), false)
  }

  function Repair(view: View, messages: seq<Message>, after: nat, log: seq<Record>): (View, bool)
    decreases |messages|
  {
    if messages == [] then (view, true)
    else
      var (view', ok) := RepairMessage(view, messages[0], StatusAfter(messages[0], log, after));
      if ok then Repair(view', messages[1..], after, log) else (view', false)
  }

  // ----- validation ----------------------------------------------------------

  function AgentError(registry: Registry, run: RunId, agent: AgentId): Option<BusError> {
    if agent !in registry.agents then Some(UnknownAgent)
    else if registry.agents[agent] != run then Some(WrongRun)
    else None
  }

  predicate LimitsValid(team: Team) {
    1 <= team.maxPending <= DEFAULT_MAX_PENDING_MESSAGES && 1 <= team.maxBytes <= DEFAULT_MAX_MESSAGE_BYTES
  }

  datatype Limits = Limits(pending: nat, bytes: nat)

  function SendLimits(registry: Registry, run: RunId, team: Option<TeamId>, from: AgentId, to: AgentId):
    Result<Limits, BusError>
  {
    if team.None? then Ok(Limits(DEFAULT_MAX_PENDING_MESSAGES, DEFAULT_MAX_MESSAGE_BYTES))
    else if team.value !in registry.teams then Err(UnknownTeam)
    else
      var t := registry.teams[team.value];
      if !LimitsValid(t) then Err(InvalidLimits)
      else if t.run != run || from !in t.members || to !in t.members then Err(NotAMember)
      else Ok(Limits(t.maxPending, t.maxBytes))
  }

  function RecipientError(registry: Registry, run: RunId, team: Team, recipients: seq<AgentId>): Option<BusError> {
    if recipients == [] then None
    else
      var agent := AgentError(registry, run, recipients[0]);
      if agent.Some? then agent
      else if recipients[0] !in team.members then Some(NotAMember)
      else RecipientError(registry, run, team, recipients[1..])
  }

  function PendingCount(inboxes: Inboxes, agent: AgentId): nat {
    |Pending(Inbox(inboxes, agent))|
  }

  function Occurrences(recipients: seq<AgentId>, agent: AgentId): nat {
    multiset(recipients)[agent]
  }

  predicate Overflows(inboxes: Inboxes, recipients: seq<AgentId>, limit: nat) {
    exists agent | agent in recipients :: PendingCount(inboxes, agent) + Occurrences(recipients, agent) > limit
  }

  // ----- live operations ------------------------------------------------------

  function Append(bus: Bus, payload: Payload): Bus {
    bus.(log := bus.log + [Record(bus.next + 1, payload)], next := bus.next + 1)
  }

  datatype SendRequest = SendRequest(id: string, requested: Option<TeamId>, effective: Option<TeamId>,
                                     from: AgentId, to: AgentId, kind: string, body: string)

  datatype Sent = Sent(message: Message, appended: bool)

  predicate SameRequest(run: RunId, durable: Payload, request: SendRequest)
    requires durable.Delivered?
  {
    && durable.message.run == run
    && (durable.requestedKnown ==> durable.requested == request.requested)
    && (!durable.requestedKnown && request.requested.Some? ==> durable.message.team == request.requested)
    && durable.message.from == request.from
    && durable.message.to == request.to
    && durable.message.kind == request.kind
    && durable.message.body == request.body
  }

  function NewMessage(run: RunId, request: SendRequest, now: int): Message {
    Message(request.id, run, request.effective, request.from, request.to, request.kind, request.body, now, None)
  }

  /** Why a send of a new id is refused, checks in the order they are made. */
  function SendError(bus: Bus, context: Context, request: SendRequest): Option<BusError> {
    var from := AgentError(context.registry, bus.run, request.from);
    var to := AgentError(context.registry, bus.run, request.to);
    var limits := SendLimits(context.registry, bus.run, request.effective, request.from, request.to);
    if from.Some? then from
    else if to.Some? then to
    else if limits.Err? then Some(limits.error)
    else if |request.body| > limits.value.bytes then Some(BodyTooLarge)
    else if PendingCount(bus.view.inboxes, request.to) >= limits.value.pending then Some(MailboxFull)
    else if !context.ledgerUp then Some(LedgerFailed)
    else None
  }

  /** Answers a request whose id was delivered before, and nothing otherwise. */
  function ReplaySend(bus: Bus, request: SendRequest): (Bus, Option<Result<Sent, BusError>>) {
    var k := Find(bus.log, DeliveryOf(request.id));
    if k == |bus.log| then (bus, None)
    else
      var durable := bus.log[k].payload;
      if !SameRequest(bus.run, durable, request) then (bus, Some(Err(DifferentContent)))
      else
        var (view, ok) := Repair(bus.view, [durable.message], bus.log[k].number, bus.log);
        (bus.(view := view), Some(if ok then Ok(Sent(durable.message, false)) else Err(ProjectionConflict)))
  }

  function Send(bus: Bus, context: Context, request: SendRequest): (Bus, Result<Sent, BusError>) {
    var (repaired, replay) := ReplaySend(bus, request);
    if replay.Some? then (repaired, replay.value)
    else
      var error := SendError(bus, context, request);
      if error.Some? then (bus, Err(error.value))
      else
        var message := NewMessage(bus.run, request, context.now);
        var written := Append(bus, Delivered(message, true, request.requested));
        (written.(view := bus.view.(inboxes := Deliver(bus.view.inboxes, message))), Ok(Sent(message, true)))
  }

  datatype BroadcastRequest = BroadcastRequest(id: string, team: TeamId, from: AgentId, recipients: seq<AgentId>,
                                               kind: string, body: string)

  datatype Broadcasted = Broadcasted(messages: seq<Message>, appended: bool)

  function Digit(n: nat): char
    requires n < 10
  {
    ('0' as int + n) as char
  }

  function Decimal(n: nat): string {
    if n < 10 then [Digit(n)] else Decimal(n / 10) + [Digit(n % 10)]
  }

  function BroadcastMessageId(broadcastId: string, index: nat): string {
    broadcastId + ":" + Decimal(index)
  }

  /** Recipients are compared only where the caller knows them. */
  predicate SameBroadcast(run: RunId, durable: Payload, request: BroadcastRequest, recipients: Option<seq<AgentId>>)
    requires durable.Broadcast?
  {
    && durable.run == run
    && durable.team == request.team
    && durable.from == request.from
    && (recipients.Some? ==> durable.recipients == recipients.value)
    && durable.kind == request.kind
    && durable.body == request.body
  }

  function NewBroadcastMessage(run: RunId, request: BroadcastRequest, now: int, index: nat): Message
    requires index < |request.recipients|
  {
    Message(BroadcastMessageId(request.id, index), run, Some(request.team), request.from,
            request.recipients[index], request.kind, request.body, now, None)
  }

  function NewBroadcastMessages(run: RunId, request: BroadcastRequest, now: int): seq<Message> {
    seq(|request.recipients|, i requires 0 <= i < |request.recipients| => NewBroadcastMessage(run, request, now, i))
  }

  function BroadcastError(bus: Bus, context: Context, request: BroadcastRequest): Option<BusError> {
    var from := AgentError(context.registry, bus.run, request.from);
    if from.Some? then from
    else if request.team !in context.registry.teams then Some(UnknownTeam)
    else
      var team := context.registry.teams[request.team];
      if !LimitsValid(team) then Some(InvalidLimits)
      else if team.run != bus.run || request.from !in team.members then Some(NotAMember)
      else
        var recipient := RecipientError(context.registry, bus.run, team, request.recipients);
        if recipient.Some? then recipient
        else if |request.body| > team.maxBytes then Some(BodyTooLarge)
        else if Overflows(bus.view.inboxes, request.recipients, team.maxPending) then Some(MailboxFull)
        else if !context.ledgerUp then Some(LedgerFailed)
        else None
  }

  /** Answers a broadcast whose id was used before, and nothing otherwise. */
  function ReplayBroadcast(bus: Bus, request: BroadcastRequest, recipients: Option<seq<AgentId>>):
    (Bus, Option<Result<Broadcasted, BusError>>)
  {
    var k := Find(bus.log, BroadcastOf(request.id));
    if k == |bus.log| then (bus, None)
    else
      var durable := bus.log[k].payload;
      if !SameBroadcast(bus.run, durable, request, recipients) then (bus, Some(Err(DifferentContent)))
      else
        var (view, ok) := Repair(bus.view, durable.messages, bus.log[k].number, bus.log);
        (bus.(view := view), Some(if ok then Ok(Broadcasted(durable.messages, false)) else Err(ProjectionConflict)))
  }

  function BroadcastAll(bus: Bus, context: Context, request: BroadcastRequest): (Bus, Result<Broadcasted, BusError>) {
    var (repaired, replay) := ReplayBroadcast(bus, request, Some(request.recipients));
    if replay.Some? then (repaired, replay.value)
    else
      var error := BroadcastError(bus, context, request);
      if error.Some? then (bus, Err(error.value))
      else
        var messages := NewBroadcastMessages(bus.run, request, context.now);
        var written := Append(bus, Broadcast(request.id, bus.run, request.team, request.from, request.recipients,
                                             request.kind, request.body, messages));
        (written.(view := bus.view.(inboxes := DeliverAll(bus.view.inboxes, messages))),
         Ok(Broadcasted(messages, true)))
  }

  function Claim(bus: Bus, context: Context, agent: AgentId, claimId: string): (Bus, Result<seq<Message>, BusError>) {
    var error := AgentError(context.registry, bus.run, agent);
    var k := Find(bus.log, ClaimBy(claimId, agent));
    var messages := Claimable(Inbox(bus.view.inboxes, agent), bus.run, bus.view.claims);
    if error.Some? then (bus, Err(error.value))
    else if k < |bus.log| then (bus, Ok(PendingAmong(Inbox(bus.view.inboxes, agent), bus.log[k].payload.ids)))
    else if messages == [] then (bus, Ok([]))
    else if !context.ledgerUp then (bus, Err(LedgerFailed))
    else
      var written := Append(bus, Claimed(agent, claimId, Ids(messages)));
      (written.(view := bus.view.(claims := RestoreClaim(bus.view.claims, claimId, Ids(messages)))), Ok(messages))
  }

  /** Answers whether the message is acknowledged once the call returns. */
  function Acknowledge(bus: Bus, context: Context, agent: AgentId, id: string): (Bus, Result<bool, BusError>) {
    var error := AgentError(context.registry, bus.run, agent);
    var messages := Inbox(bus.view.inboxes, agent);
    var k := IndexOf(messages, id);
    if error.Some? then (bus, Err(error.value))
    else if k == |messages| then (bus, Ok(false))
    else if messages[k].run != bus.run || messages[k].to != agent then (bus, Err(NotTheRecipient))
    else if messages[k].ackedAt.Some? then (bus, Ok(true))
    else if !context.ledgerUp then (bus, Err(LedgerFailed))
    else
      var written := Append(bus, Acknowledged(agent, id, context.now));
      var acked := messages[k := messages[k].(ackedAt := Some(context.now))];
      (written.(view := bus.view.(inboxes := bus.view.inboxes[agent := acked])), Ok(true))
  }

  function Drain(bus: Bus, context: Context, agent: AgentId): (Bus, Result<seq<Message>, BusError>) {
    var error := AgentError(context.registry, bus.run, agent);
    var drained := OfRun(Inbox(bus.view.inboxes, agent), bus.run);
    if error.Some? then (bus, Err(error.value))
    else if drained == [] then (bus, Ok([]))
    else if !context.ledgerUp then (bus, Err(LedgerFailed))
    else
      var written := Append(bus, Dequeued(agent, Ids(drained)));
      (written.(view := bus.view.(inboxes := RestoreDequeue(bus.view.inboxes, agent, Ids(drained)))), Ok(drained))
  }

  // ----- whole runs -----------------------------------------------------------

  datatype Operation =
    | OpSend(request: SendRequest)
    | OpBroadcast(broadcast: BroadcastRequest)
    | OpReplaySend(request: SendRequest)                // looks for an earlier send only
    | OpReplayBroadcast(broadcast: BroadcastRequest)  // looks for an earlier broadcast, recipients unknown
    | OpClaim(agent: AgentId, claimId: string)
    | OpAcknowledge(agent: AgentId, messageId: string)
    | OpDrain(agent: AgentId)
    | OpForeign(text: string)  // another component appends under this Run
    | OpOtherRun(count: nat)   // records of other Runs consume sequence numbers
    | OpRestart                // the process ends; a new one restores the log

  datatype Event = Event(context: Context, operation: Operation)

  function Step(bus: Bus, event: Event): Bus {
    match event.operation
    case OpSend(request) => Send(bus, event.context, request).0
    case OpBroadcast(request) => BroadcastAll(bus, event.context, request).0
    case OpReplaySend(request) => ReplaySend(bus, request).0
    case OpReplayBroadcast(request) => ReplayBroadcast(bus, request, None).0
    case OpClaim(agent, claimId) => Claim(bus, event.context, agent, claimId).0
    case OpAcknowledge(agent, id) => Acknowledge(bus, event.context, agent, id).0
    case OpDrain(agent) => Drain(bus, event.context, agent).0
    case OpForeign(text) => Append(bus, Foreign(text))
    case OpOtherRun(count) => bus.(next := bus.next + count)
    case OpRestart => bus.(view := RestoreLog(bus.log))
  }

  function Run(bus: Bus, events: seq<Event>): Bus {
    if events == [] then bus else Step(Run(bus, Init(events)), Last(events))
  }

  function NewBus(run: RunId): Bus {
    Bus(run, EmptyView, [], 0)
  }
}
