/** The message bus as the object that is updated in place. Each method is proved
    equal to the function of the same name in `BusState`. */
module MessageBusObject {
  import opened Prelude
  import opened BusState

  class MessageBus {
    const run: RunId
    var inboxes: Inboxes
    var claims: map<string, string>
    var records: seq<Record>
    var lastSequence: nat

    ghost function State(): Bus
      reads this
    {
      Bus(run, View(inboxes, claims), records, lastSequence)
    }

    constructor (run: RunId)
      ensures State() == NewBus(run)
    {
      this.run := run;
      inboxes, claims, records, lastSequence := map[], map[], [], 0;
    }

    /** The ledger accepts a record or fails without a trace. */
    method AppendRecord(payload: Payload, ledgerUp: bool) returns (ok: bool)
      modifies this`records, this`lastSequence
      ensures ok == ledgerUp
      ensures State() == if ok then Append(old(State()), payload) else old(State())
    {
      if ledgerUp {
        lastSequence := lastSequence + 1;
        records := records + [Record(lastSequence, payload)];
      }
      return ledgerUp;
    }

    method Project(message: Message, after: nat) returns (status: Status)
      ensures status == StatusAfter(message, records, after)
    {
      status := Status(message.ackedAt, None, false);
      for i := 0 to |records|
        invariant status == StatusAfter(message, records[..i], after)
      {
        assert records[..i + 1] == records[..i] + [records[i]];
        InitOfAppend(records[..i], records[i]);
        if records[i].number > after {
          match records[i].payload {
            case Acknowledged(_, messageId, at) =>
              if messageId == message.id { status := status.(ackedAt := Some(at)); }
            case Claimed(_, claimId, ids) =>
              if message.id in ids { status := status.(claim := Some(claimId)); }
            case Dequeued(_, ids) =>
              if message.id in ids { status := status.(dequeued := true); }
            case _ =>
          }
        }
      }
      assert records[..|records|] == records;
    }

    method RepairDurableMessages(messages: seq<Message>, after: nat) returns (ok: bool)
      modifies this`inboxes, this`claims
      ensures (State().view, ok) == Repair(old(State()).view, messages, after, records)
    {
      assert messages[0..] == messages;
      for i := 0 to |messages|
        invariant Repair(old(State()).view, messages, after, records) ==
                  Repair(State().view, messages[i..], after, records)
      {
        ghost var view := State().view;
        var durable := messages[i];
        assert messages[i..][0] == durable && messages[i..][1..] == messages[i + 1..];
        var status := Project(durable, after);
        if status.claim.Some? {
          claims := claims[durable.id := status.claim.value];
        }
        var mailbox := Inbox(inboxes, durable.to);
        if status.dequeued {
          inboxes := Store(inboxes, durable.to, Without(mailbox, [durable.id]));
        } else {
          var k := IndexOf(mailbox, durable.id);
          if k < |mailbox| {
            if !SameContent(mailbox[k], durable) {
              assert (State().view, false) == RepairMessage(view, durable, status);
              return false;
            }
            inboxes := inboxes[durable.to := mailbox[k := mailbox[k].(ackedAt := status.ackedAt)]];
          } else {
            inboxes := inboxes[durable.to := mailbox + [durable.(ackedAt := status.ackedAt)]];
          }
        }
        assert (State().view, true) == RepairMessage(view, durable, status);
      }
      return true;
    }

    method ReplaySendWithId(request: SendRequest) returns (answer: Option<Result<Sent, BusError>>)
      modifies this`inboxes, this`claims
      ensures (State(), answer) == ReplaySend(old(State()), request)
    {
      var k := Find(records, DeliveryOf(request.id));
      if k == |records| { return None; }
      var durable := records[k].payload;
      if !SameRequest(run, durable, request) { return Some(Err(DifferentContent)); }
      var repaired := RepairDurableMessages([durable.message], records[k].number);
      return Some(if repaired then Ok(Sent(durable.message, false)) else Err(ProjectionConflict));
    }

    method SendWithId(context: Context, request: SendRequest) returns (answer: Result<Sent, BusError>)
      modifies this
      ensures (State(), answer) == Send(old(State()), context, request)
    {
      var replay := ReplaySendWithId(request);
      if replay.Some? { return replay.value; }
      var error := AgentError(context.registry, run, request.from);
      if error.Some? { return Err(error.value); }
      error := AgentError(context.registry, run, request.to);
      if error.Some? { return Err(error.value); }
      var limits := SendLimits(context.registry, run, request.effective, request.from, request.to);
      if limits.Err? { return Err(limits.error); }
      if |request.body| > limits.value.bytes { return Err(BodyTooLarge); }
      if |Pending(Inbox(inboxes, request.to))| >= limits.value.pending { return Err(MailboxFull); }
      var message := NewMessage(run, request, context.now);
      var appended := AppendRecord(Delivered(message, true, request.requested), context.ledgerUp);
      if !appended { return Err(LedgerFailed); }
      inboxes := inboxes[request.to := Inbox(inboxes, request.to) + [message]];
      return Ok(Sent(message, true));
    }

    method ValidateRecipients(registry: Registry, team: Team, recipients: seq<AgentId>)
      returns (error: Option<BusError>)
      ensures error == RecipientError(registry, run, team, recipients)
    {
      assert recipients[0..] == recipients;
      for i := 0 to |recipients|
        invariant RecipientError(registry, run, team, recipients) ==
                  RecipientError(registry, run, team, recipients[i..])
      {
        assert recipients[i..][0] == recipients[i] && recipients[i..][1..] == recipients[i + 1..];
        error := AgentError(registry, run, recipients[i]);
        if error.Some? { return; }
        if recipients[i] !in team.members { return Some(NotAMember); }
      }
      return None;
    }

    method ExceedsPendingLimit(recipients: seq<AgentId>, limit: nat) returns (exceeds: bool)
      ensures exceeds == Overflows(inboxes, recipients, limit)
    {
      var additions: map<AgentId, nat> := map[];
      for i := 0 to |recipients|
        invariant additions.Keys == set a | a in recipients[..i]
        invariant forall a :: a in additions ==> additions[a] == Occurrences(recipients[..i], a)
      {
        assert recipients[..i + 1] == recipients[..i] + [recipients[i]];
        var seen := if recipients[i] in additions then additions[recipients[i]] else 0;
        assert recipients[i] !in additions ==> Occurrences(recipients[..i], recipients[i]) == 0;
        additions := additions[recipients[i] := seen + 1];
      }
      assert recipients[..|recipients|] == recipients;
      var unchecked := additions.Keys;
      while unchecked != {}
        invariant unchecked <= additions.Keys
        invariant forall a :: a in additions && a !in unchecked ==> PendingCount(inboxes, a) + additions[a] <= limit
      {
        var agent :| agent in unchecked;
        if |Pending(Inbox(inboxes, agent))| + additions[agent] > limit {
          assert PendingCount(inboxes, agent) + Occurrences(recipients, agent) > limit;
          return true;
        }
        unchecked := unchecked - {agent};
      }
      return false;
    }

    method ReplayBroadcastWithId(request: BroadcastRequest, recipients: Option<seq<AgentId>>)
      returns (answer: Option<Result<Broadcasted, BusError>>)
      modifies this`inboxes, this`claims
      ensures (State(), answer) == ReplayBroadcast(old(State()), request, recipients)
    {
      var k := Find(records, BroadcastOf(request.id));
      if k == |records| { return None; }
      var durable := records[k].payload;
      if !SameBroadcast(run, durable, request, recipients) { return Some(Err(DifferentContent)); }
      var repaired := RepairDurableMessages(durable.messages, records[k].number);
      return Some(if repaired then Ok(Broadcasted(durable.messages, false)) else Err(ProjectionConflict));
    }

    method BroadcastWithId(context: Context, request: BroadcastRequest) returns (answer: Result<Broadcasted, BusError>)
      modifies this
      ensures (State(), answer) == BroadcastAll(old(State()), context, request)
    {
      var replay := ReplayBroadcastWithId(request, Some(request.recipients));
      if replay.Some? { return replay.value; }
      var error := AgentError(context.registry, run, request.from);
      if error.Some? { return Err(error.value); }
      if request.team !in context.registry.teams { return Err(UnknownTeam); }
      var team := context.registry.teams[request.team];
      if !LimitsValid(team) { return Err(InvalidLimits); }
      if team.run != run || request.from !in team.members { return Err(NotAMember); }
      error := ValidateRecipients(context.registry, team, request.recipients);
      if error.Some? { return Err(error.value); }
      if |request.body| > team.maxBytes { return Err(BodyTooLarge); }
      var exceeds := ExceedsPendingLimit(request.recipients, team.maxPending);
      if exceeds { return Err(MailboxFull); }
      var messages := NewBroadcastMessages(run, request, context.now);
      var appended := AppendRecord(
        Broadcast(request.id, run, request.team, request.from, request.recipients, request.kind, request.body, messages),
        context.ledgerUp);
      if !appended { return Err(LedgerFailed); }
      PushAll(messages);
      return Ok(Broadcasted(messages, true));
    }

    method PushAll(messages: seq<Message>)
      modifies this`inboxes
      ensures inboxes == DeliverAll(old(inboxes), messages)
    {
      for i := 0 to |messages|
        invariant inboxes == DeliverAll(old(inboxes), messages[..i])
      {
        assert messages[..i + 1] == messages[..i] + [messages[i]];
        InitOfAppend(messages[..i], messages[i]);
        inboxes := inboxes[messages[i].to := Inbox(inboxes, messages[i].to) + [messages[i]]];
      }
      assert messages[..|messages|] == messages;
    }

    method ClaimMessages(context: Context, agent: AgentId, claimId: string)
      returns (answer: Result<seq<Message>, BusError>)
      modifies this
      ensures (State(), answer) == Claim(old(State()), context, agent, claimId)
    {
      var error := AgentError(context.registry, run, agent);
      if error.Some? { return Err(error.value); }
      var k := Find(records, ClaimBy(claimId, agent));
      if k < |records| {
        return Ok(PendingAmong(Inbox(inboxes, agent), records[k].payload.ids));
      }
      var messages := Claimable(Inbox(inboxes, agent), run, claims);
      if messages == [] { return Ok([]); }
      var appended := AppendRecord(Claimed(agent, claimId, Ids(messages)), context.ledgerUp);
      if !appended { return Err(LedgerFailed); }
      BindClaim(claimId, Ids(messages));
      return Ok(messages);
    }

    /** Also the routine that restores a claim record. */
    method BindClaim(claimId: string, ids: seq<string>)
      modifies this`claims
      ensures claims == RestoreClaim(old(claims), claimId, ids)
    {
      for i := 0 to |ids|
        invariant claims == RestoreClaim(old(claims), claimId, ids[..i])
      {
        NextClaim(old(claims), claimId, ids, i);
        claims := claims[ids[i] := claimId];
      }
      assert ids[..|ids|] == ids;
    }

    method AcknowledgeMessage(context: Context, agent: AgentId, id: string) returns (answer: Result<bool, BusError>)
      modifies this
      ensures (State(), answer) == Acknowledge(old(State()), context, agent, id)
    {
      var error := AgentError(context.registry, run, agent);
      if error.Some? { return Err(error.value); }
      var mailbox := Inbox(inboxes, agent);
      var k := IndexOf(mailbox, id);
      if k == |mailbox| { return Ok(false); }
      if mailbox[k].run != run || mailbox[k].to != agent { return Err(NotTheRecipient); }
      if mailbox[k].ackedAt.Some? { return Ok(true); }
      var appended := AppendRecord(Acknowledged(agent, id, context.now), context.ledgerUp);
      if !appended { return Err(LedgerFailed); }
      inboxes := inboxes[agent := mailbox[k := mailbox[k].(ackedAt := Some(context.now))]];
      return Ok(true);
    }

    method DrainMailbox(context: Context, agent: AgentId) returns (answer: Result<seq<Message>, BusError>)
      modifies this
      ensures (State(), answer) == Drain(old(State()), context, agent)
    {
      var error := AgentError(context.registry, run, agent);
      if error.Some? { return Err(error.value); }
      var drained := OfRun(Inbox(inboxes, agent), run);
      if drained == [] { return Ok([]); }
      var appended := AppendRecord(Dequeued(agent, Ids(drained)), context.ledgerUp);
      if !appended { return Err(LedgerFailed); }
      if agent in inboxes {
        inboxes := Store(inboxes, agent, Without(inboxes[agent], Ids(drained)));
      }
      return Ok(drained);
    }

    /** Replays the Run's records into an empty bus, as a new process does. */
    method RestoreFromRecords()
      modifies this`inboxes, this`claims
      ensures State() == old(State()).(view := RestoreLog(old(records)))
    {
      inboxes, claims := map[], map[];
      for i := 0 to |records|
        invariant View(inboxes, claims) == RestoreLog(records[..i])
      {
        assert records[..i + 1] == records[..i] + [records[i]];
        InitOfAppend(records[..i], records[i]);
        match records[i].payload {
          case Delivered(message, _, _) => RestoreOne(message);
          case Broadcast(_, _, _, _, _, _, _, messages) => RestoreAll(messages);
          case Claimed(_, claimId, ids) => BindClaim(claimId, ids);
          case Acknowledged(agent, id, at) => inboxes := RestoreAcknowledgement(inboxes, agent, id, at);
          case Dequeued(agent, ids) => inboxes := RestoreDequeue(inboxes, agent, ids);
          case Foreign(_) =>
        }
      }
      assert records[..|records|] == records;
    }

    method RestoreOne(message: Message)
      modifies this`inboxes
      ensures inboxes == RestoreMessage(old(inboxes), message)
    {
      var mailbox := Inbox(inboxes, message.to);
      if message.id !in Ids(mailbox) {
        inboxes := inboxes[message.to := mailbox + [message]];
      }
    }

    method RestoreAll(messages: seq<Message>)
      modifies this`inboxes
      ensures inboxes == RestoreMessages(old(inboxes), messages)
    {
      for i := 0 to |messages|
        invariant inboxes == RestoreMessages(old(inboxes), messages[..i])
      {
        assert messages[..i + 1] == messages[..i] + [messages[i]];
        InitOfAppend(messages[..i], messages[i]);
        RestoreOne(messages[i]);
      }
      assert messages[..|messages|] == messages;
    }
  }

  lemma NextClaim(claims: map<string, string>, claimId: string, ids: seq<string>, i: nat)
    requires i < |ids|
    ensures RestoreClaim(claims, claimId, ids[..i + 1]) == RestoreClaim(claims, claimId, ids[..i])[ids[i] := claimId]
  {
    assert ids[..i + 1] == ids[..i] + [ids[i]];
  }
}
