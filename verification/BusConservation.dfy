/** Conservation of messages and exclusiveness of claims. */
module BusConservation {
  import opened Prelude
  import opened BusState
  import opened BusLog
  import opened BusTheorems
  import opened BusRuns

  // ----- each message is in its mailbox or in one dequeue record ------------------------

  function DequeueCount(log: seq<Record>, id: string): nat {
    if log == [] then 0
    else DequeueCount(Init(log), id) +
         if Last(log).payload.Dequeued? && id in Last(log).payload.ids then 1 else 0
  }

  lemma {:induction false} NeverDequeued(run: RunId, log: seq<Record>, id: string)
    requires WellFormed(run, log)
    requires forall i, k :: CarriedAt(log, i, k) ==> CarriedMessage(log, i, k).id != id
    ensures DequeueCount(log, id) == 0
  {
    if log != [] {
      var before, payload := Init(log), Last(log).payload;
      forall i, k | CarriedAt(before, i, k) ensures CarriedMessage(before, i, k).id != id {
        assert CarriedAt(log, i, k) && CarriedMessage(log, i, k) == CarriedMessage(before, i, k);
      }
      NeverDequeued(run, before, id);
      if payload.Dequeued? {
        var box := Inbox(RestoreLog(before).inboxes, payload.agent);
        RestoredIsSound(run, before);
        OfRunIsAll(box, run);
        IdsMembers(box, id);
        forall m | m in box ensures m.id != id {
          var i, k :| CarriedAt(before, i, k) && SameContent(CarriedMessage(before, i, k), m);
        }
      }
    }
  }

  /** Every delivered message is held exactly once by its recipient and named by no
      dequeue record, or held by nobody and named by exactly one. */
  lemma {:induction false} MessagesAreConserved(run: RunId, log: seq<Record>, i: int, k: int)
    requires WellFormed(run, log) && CarriedAt(log, i, k)
    ensures var d := CarriedMessage(log, i, k);
            var inboxes := RestoreLog(log).inboxes;
            && DequeueCount(log, d.id) <= 1
            && (DequeueCount(log, d.id) == 1 ==> forall a :: Absent(Inbox(inboxes, a), d.id))
            && (DequeueCount(log, d.id) == 0 ==>
                  && DistinctIds(Inbox(inboxes, d.to)) && !Absent(Inbox(inboxes, d.to), d.id)
                  && forall a :: a != d.to ==> Absent(Inbox(inboxes, a), d.id))
  {
    var d := CarriedMessage(log, i, k);
    var inboxes := RestoreLog(log).inboxes;
    DequeuedAtMostOnce(run, log, i, k);
    RestoredIsSound(run, log);
    LookupAbsent(Inbox(inboxes, d.to), d.id);
    forall a | a != d.to ensures Absent(Inbox(inboxes, a), d.id) {
      forall m | m in Inbox(inboxes, a) ensures m.id != d.id {
        if m.id == d.id {
          SameAgent(run, log, i, k, a, m);
        }
      }
    }
  }

  lemma {:induction false} DequeuedAtMostOnce(run: RunId, log: seq<Record>, i: int, k: int)
    requires WellFormed(run, log) && CarriedAt(log, i, k)
    ensures var d := CarriedMessage(log, i, k);
            DequeueCount(log, d.id) == if Lookup(Inbox(RestoreLog(log).inboxes, d.to), d.id).None? then 1 else 0
  {
    var before, payload := Init(log), Last(log).payload;
    InitLast(log);
    var d := CarriedMessage(log, i, k);
    StatusDecidesEntry(run, log, i, k);
    if i == |log| - 1 {
      forall j, l | CarriedAt(before, j, l) ensures CarriedMessage(before, j, l).id != d.id {
        FreshId(run, before, payload, k, j, l);
      }
      NeverDequeued(run, before, d.id);
      StatusUntouched(d, log, log[i].number);
    } else {
      assert CarriedMessage(before, i, k) == d;
      DequeuedAtMostOnce(run, before, i, k);
      StatusDecidesEntry(run, before, i, k);
      if payload.Dequeued? && d.id in payload.ids {
        DequeuedFromRecipient(run, before, payload, i, k);
      }
    }
  }

  // ----- claims --------------------------------------------------------------------------

  lemma {:induction false} ClaimsPersist(log: seq<Record>, i: nat, id: string)
    requires i < |log| && log[i].payload.Claimed? && id in log[i].payload.ids
    ensures id in RestoreLog(log).claims
  {
    if i < |log| - 1 {
      ClaimsPersist(Init(log), i, id);
    }
  }

  lemma {:induction false} RepairKeepsClaims(view: View, messages: seq<Message>, after: nat, log: seq<Record>)
    ensures view.claims.Keys <= Repair(view, messages, after, log).0.claims.Keys
    decreases |messages|
  {
    if messages != [] {
      RepairKeepsClaims(RepairMessage(view, messages[0], StatusAfter(messages[0], log, after)).0, messages[1..], after, log);
    }
  }

  ghost predicate ClaimedBy(log: seq<Record>, i: int, id: string) {
    0 <= i < |log| && log[i].payload.Claimed? && id in log[i].payload.ids
  }

  /** Every claimed id is in the claim table and in one claim record only. */
  ghost predicate Exclusive(bus: Bus) {
    && (forall i, id :: ClaimedBy(bus.log, i, id) ==> id in bus.view.claims)
    && (forall i, j, id :: ClaimedBy(bus.log, i, id) && ClaimedBy(bus.log, j, id) ==> i == j)
  }

  lemma ClaimKeepsExclusive(bus: Bus, context: Context, agent: AgentId, claimId: string)
    requires Exclusive(bus)
    ensures Exclusive(Claim(bus, context, agent, claimId).0)
  {
    var after := Claim(bus, context, agent, claimId).0;
    var box := Inbox(bus.view.inboxes, agent);
    var messages := Claimable(box, bus.run, bus.view.claims);
    if after.log != bus.log {
      forall i, id | ClaimedBy(after.log, i, id) && i < |bus.log| ensures ClaimedBy(bus.log, i, id) {
        assert after.log[i] == bus.log[i];
      }
      forall id | id in Ids(messages) ensures id !in bus.view.claims {
        IdsMembers(messages, id);
        var m :| m in messages && m.id == id;
        ClaimableMembers(box, bus.run, bus.view.claims, m);
      }
    }
  }

  /** A step that appends no claim and loses none keeps claims exclusive. */
  lemma OtherKeepsExclusive(bus: Bus, after: Bus)
    requires Exclusive(bus) && bus.view.claims.Keys <= after.view.claims.Keys
    requires after.log == bus.log || (|after.log| == |bus.log| + 1 && Init(after.log) == bus.log && !Last(after.log).payload.Claimed?)
    ensures Exclusive(after)
  {
    forall i, id | ClaimedBy(after.log, i, id) ensures ClaimedBy(bus.log, i, id) {
      assert i < |bus.log| ==> after.log[i] == bus.log[i];
    }
  }

  lemma RestartKeepsExclusive(bus: Bus)
    requires Exclusive(bus)
    ensures Exclusive(bus.(view := RestoreLog(bus.log)))
  {
    forall i, id | ClaimedBy(bus.log, i, id) ensures id in RestoreLog(bus.log).claims {
      ClaimsPersist(bus.log, i, id);
    }
  }

  lemma ReplaySendKeepsClaims(bus: Bus, request: SendRequest)
    ensures bus.view.claims.Keys <= ReplaySend(bus, request).0.view.claims.Keys
  {
    var k := Find(bus.log, DeliveryOf(request.id));
    if k < |bus.log| {
      RepairKeepsClaims(bus.view, [bus.log[k].payload.message], bus.log[k].number, bus.log);
    }
  }

  lemma ReplayBroadcastKeepsClaims(bus: Bus, request: BroadcastRequest, recipients: Option<seq<AgentId>>)
    ensures bus.view.claims.Keys <= ReplayBroadcast(bus, request, recipients).0.view.claims.Keys
  {
    var k := Find(bus.log, BroadcastOf(request.id));
    if k < |bus.log| {
      RepairKeepsClaims(bus.view, bus.log[k].payload.messages, bus.log[k].number, bus.log);
    }
  }

  lemma StepKeepsClaims(bus: Bus, event: Event)
    requires !event.operation.OpClaim? && !event.operation.OpRestart?
    ensures var after := Step(bus, event);
            && bus.view.claims.Keys <= after.view.claims.Keys
            && (after.log == bus.log ||
                (|after.log| == |bus.log| + 1 && Init(after.log) == bus.log && !Last(after.log).payload.Claimed?))
  {
    StepAppends(bus, event);
    match event.operation
    case OpSend(request) => ReplaySendKeepsClaims(bus, request);
    case OpBroadcast(request) => ReplayBroadcastKeepsClaims(bus, request, Some(request.recipients));
    case OpReplaySend(request) => ReplaySendKeepsClaims(bus, request);
    case OpReplayBroadcast(request) => ReplayBroadcastKeepsClaims(bus, request, None);
    case _ =>
  }

  lemma {:induction false} RunsAreExclusive(run: RunId, events: seq<Event>)
    ensures Exclusive(Run(NewBus(run), events))
  {
    if events != [] {
      var bus, event := Run(NewBus(run), Init(events)), Last(events);
      RunsAreExclusive(run, Init(events));
      match event.operation
      case OpClaim(agent, claimId) => ClaimKeepsExclusive(bus, event.context, agent, claimId);
      case OpRestart => RestartKeepsExclusive(bus);
      case _ =>
        StepKeepsClaims(bus, event);
        OtherKeepsExclusive(bus, Step(bus, event));
    }
  }

  /** In any run at all, whatever ids it uses, no message is named by two claim records. */
  lemma ClaimsAreExclusive(run: RunId, events: seq<Event>, i: nat, j: nat, id: string)
    requires var log := Run(NewBus(run), events).log; ClaimedBy(log, i, id) && ClaimedBy(log, j, id)
    ensures i == j
  {
    RunsAreExclusive(run, events);
  }

  /** The elements of `a` that also occur in `b`, in the order of `a`. */
  function Keep(a: seq<string>, b: seq<string>): seq<string> {
    if a == [] then [] else Keep(Init(a), b) + if Last(a) in b then [Last(a)] else []
  }

  function Drop(a: seq<string>, x: string): seq<string> {
    if a == [] then [] else Drop(Init(a), x) + if Last(a) == x then [] else [Last(a)]
  }

  lemma {:induction false} DropMembers(a: seq<string>, x: string, y: string)
    ensures y in Drop(a, x) <==> y in a && y != x
  {
    if a != [] {
      DropMembers(Init(a), x, y);
      InitLast(a);
    }
  }

  lemma {:induction false} DropAppend(a: seq<string>, b: seq<string>, x: string)
    ensures Drop(a + b, x) == Drop(a, x) + Drop(b, x)
  {
    if b == [] {
      assert a + b == a;
    } else {
      assert Init(a + b) == a + Init(b) && Last(a + b) == Last(b);
      DropAppend(a, Init(b), x);
    }
  }

  lemma {:induction false} KeepAppend(a: seq<string>, b: seq<string>, c: seq<string>)
    ensures Keep(a + b, c) == Keep(a, c) + Keep(b, c)
  {
    if b == [] {
      assert a + b == a;
    } else {
      assert Init(a + b) == a + Init(b) && Last(a + b) == Last(b);
      KeepAppend(a, Init(b), c);
    }
  }

  lemma DropOne(y: string, x: string)
    ensures Drop([y], x) == if y == x then [] else [y]
  {
    assert Init([y]) == [];
  }

  lemma {:induction false} KeepOfDrop(a: seq<string>, b: seq<string>, x: string)
    ensures Keep(Drop(a, x), b) == Drop(Keep(a, b), x)
  {
    if a != [] {
      KeepOfDrop(Init(a), b, x);
      var kept := if Last(a) in b then [Last(a)] else [];
      DropAppend(Keep(Init(a), b), kept, x);
      DropOne(Last(a), x);
      if Last(a) != x {
        InitOfAppend(Drop(Init(a), x), Last(a));
      } else {
        assert Drop(a, x) == Drop(Init(a), x);
      }
    }
  }

  lemma {:induction false} KeepFromDrop(a: seq<string>, b: seq<string>, x: string)
    ensures Keep(a, Drop(b, x)) == Drop(Keep(a, b), x)
  {
    if a != [] {
      KeepFromDrop(Init(a), b, x);
      DropMembers(b, x, Last(a));
      DropAppend(Keep(Init(a), b), if Last(a) in b then [Last(a)] else [], x);
      DropOne(Last(a), x);
    }
  }

  lemma {:induction false} KeepNothing(a: seq<string>, b: seq<string>)
    requires forall x :: x in a ==> x !in b
    ensures Keep(a, b) == []
  {
    if a != [] {
      assert forall x :: x in Init(a) ==> x in a;
      KeepNothing(Init(a), b);
    }
  }

  lemma {:induction false} KeepIgnores(a: seq<string>, b: seq<string>, c: seq<string>)
    requires forall x :: x in c ==> x !in a
    ensures Keep(a, b + c) == Keep(a, b)
  {
    if a != [] {
      assert forall x :: x in Init(a) ==> x in a;
      KeepIgnores(Init(a), b, c);
    }
  }

  /** Ids of the unacknowledged messages, in mailbox order. */
  function Open(messages: seq<Message>): seq<string> {
    Ids(Pending(messages))
  }

  lemma IdsAppend(s: seq<Message>, t: seq<Message>)
    ensures Ids(s + t) == Ids(s) + Ids(t)
  {
  }

  lemma OpenStep(messages: seq<Message>)
    requires messages != []
    ensures Open(messages) ==
            Open(Init(messages)) + if Last(messages).ackedAt.None? then [Last(messages).id] else []
  {
    assert Pending(Init(messages)) + [] == Pending(Init(messages));
  }

  lemma {:induction false} PendingAmongIsKeep(messages: seq<Message>, ids: seq<string>)
    ensures Ids(PendingAmong(messages, ids)) == Keep(Open(messages), ids)
  {
    if messages != [] {
      PendingAmongIsKeep(Init(messages), ids);
      OpenStep(messages);
      var m := Last(messages);
      var kept := if m.ackedAt.None? && m.id in ids then [m] else [];
      IdsAppend(PendingAmong(Init(messages), ids), kept);
      if m.ackedAt.None? {
        InitOfAppend(Open(Init(messages)), m.id);
        assert Ids(kept) == if m.id in ids then [m.id] else [];
      } else {
        assert Open(messages) == Open(Init(messages));
        assert Ids(kept) == [];
      }
    }
  }

  lemma {:induction false} PendingAppend(s: seq<Message>, t: seq<Message>)
    ensures Pending(s + t) == Pending(s) + Pending(t)
  {
    if t == [] {
      assert s + t == s;
    } else {
      assert Init(s + t) == s + Init(t) && Last(s + t) == Last(t);
      PendingAppend(s, Init(t));
    }
  }

  lemma {:induction false} PendingMembers(s: seq<Message>, m: Message)
    ensures m in Pending(s) <==> m in s && m.ackedAt.None?
  {
    if s != [] {
      PendingMembers(Init(s), m);
      InitLast(s);
    }
  }

  lemma {:induction false} OpenAfterAcknowledgement(s: seq<Message>, k: nat, at: int)
    requires DistinctIds(s) && k < |s|
    ensures Open(s[k := s[k].(ackedAt := Some(at))]) == Drop(Open(s), s[k].id)
  {
    var s' := s[k := s[k].(ackedAt := Some(at))];
    var id := s[k].id;
    if k == |s| - 1 {
      assert Init(s') == Init(s);
      assert id !in Open(Init(s)) by {
        IdsMembers(Pending(Init(s)), id);
        forall m | m in Pending(Init(s)) ensures m.id != id { PendingMembers(Init(s), m); }
      }
      DropAbsent(Open(Init(s)), id);
      OpenStep(s);
      OpenStep(s');
      if s[k].ackedAt.None? {
        InitOfAppend(Open(Init(s)), id);
      } else {
        assert Open(s) == Open(Init(s));
      }
    } else {
      assert Init(s') == Init(s)[k := s[k].(ackedAt := Some(at))];
      OpenAfterAcknowledgement(Init(s), k, at);
      OpenStep(s);
      OpenStep(s');
      if Last(s).ackedAt.None? {
        InitOfAppend(Open(Init(s)), Last(s).id);
      } else {
        assert Open(s) == Open(Init(s)) && Open(s') == Open(Init(s'));
      }
    }
  }

  lemma {:induction false} DropAbsent(a: seq<string>, x: string)
    requires x !in a
    ensures Drop(a, x) == a
  {
    if a != [] {
      DropAbsent(Init(a), x);
      InitLast(a);
    }
  }

  lemma {:induction false} ClaimableIsKept(messages: seq<Message>, run: RunId, claims: map<string, string>,
                                           all: seq<string>)
    requires DistinctIds(messages)
    requires forall m :: m in messages ==> (m.id in all <==> IsClaimable(m, run, claims))
    ensures Keep(Open(messages), all) == Ids(Claimable(messages, run, claims))
  {
    if messages != [] {
      InitLast(messages);
      assert forall m :: m in Init(messages) ==> m in messages;
      ClaimableIsKept(Init(messages), run, claims, all);
      OpenStep(messages);
      var m := Last(messages);
      var chosen := if IsClaimable(m, run, claims) then [m] else [];
      IdsAppend(Claimable(Init(messages), run, claims), chosen);
      if m.ackedAt.None? {
        InitOfAppend(Open(Init(messages)), m.id);
        assert Ids(chosen) == if m.id in all then [m.id] else [];
      } else {
        assert Open(messages) == Open(Init(messages));
        assert Ids(chosen) == [];
      }
    }
  }

  lemma {:induction false} KeepAll(a: seq<string>, b: seq<string>)
    requires forall x :: x in a ==> x in b
    ensures Keep(a, b) == a
  {
    if a != [] {
      assert forall x :: x in Init(a) ==> x in a;
      KeepAll(Init(a), b);
      InitLast(a);
    }
  }

  /** Right after a claim both orders agree: the claim names every claimable message. */
  lemma FreshClaimOrder(run: RunId, log: seq<Record>, payload: Payload)
    requires WellFormed(run, log) && Admissible(run, log, payload) && payload.Claimed?
    ensures var open := Open(Inbox(RestoreLog(log).inboxes, payload.agent));
            Keep(open, payload.ids) == Keep(payload.ids, open)
  {
    var view := RestoreLog(log);
    var box := Inbox(view.inboxes, payload.agent);
    RestoredIsSound(run, log);
    var chosen := Claimable(box, run, view.claims);
    forall m | m in box ensures m.id in payload.ids <==> IsClaimable(m, run, view.claims) {
      IdsMembers(chosen, m.id);
      ClaimableMembers(box, run, view.claims, m);
      if m.id in payload.ids {
        var other :| other in chosen && other.id == m.id;
        ClaimableMembers(box, run, view.claims, other);
        LookupFinds(box, m);
        LookupFinds(box, other);
      }
    }
    ClaimableIsKept(box, run, view.claims, payload.ids);
    forall x | x in payload.ids ensures x in Open(box) {
      IdsMembers(chosen, x);
      var m :| m in chosen && m.id == x;
      ClaimableMembers(box, run, view.claims, m);
      PendingMembers(box, m);
      IdsMembers(Pending(box), x);
    }
    KeepAll(payload.ids, Open(box));
  }

  lemma OpenAfterDelivery(box: seq<Message>, added: seq<Message>, ids: seq<string>)
    requires forall m :: m in added ==> m.id !in ids
    ensures Keep(Open(box + added), ids) == Keep(Open(box), ids) && Keep(ids, Open(box + added)) == Keep(ids, Open(box))
  {
    PendingAppend(box, added);
    IdsAppend(Pending(box), Pending(added));
    forall x | x in Open(added) ensures x !in ids {
      IdsMembers(Pending(added), x);
      var m :| m in Pending(added) && m.id == x;
      PendingMembers(added, m);
    }
    KeepAppend(Open(box), Open(added), ids);
    KeepNothing(Open(added), ids);
    KeepIgnores(ids, Open(box), Open(added));
  }

  lemma OrderAfterDelivery(run: RunId, log: seq<Record>, payload: Payload, agent: AgentId, ids: seq<string>)
    requires WellFormed(run, log) && Admissible(run, log, payload) && Carried(payload) != []
    requires forall m :: m in Carried(payload) ==> m.id !in ids
    ensures var open, open' := Open(Inbox(RestoreLog(log).inboxes, agent)),
                               Open(Inbox(Restore(RestoreLog(log), payload).inboxes, agent));
            Keep(open', ids) == Keep(open, ids) && Keep(ids, open') == Keep(ids, open)
  {
    var view := RestoreLog(log);
    var added := AddressedTo(Carried(payload), agent);
    RestoredIsSound(run, log);
    CarriedRestored(run, log, view, payload);
    DeliverAllInbox(view.inboxes, Carried(payload), agent);
    forall m | m in added ensures m.id !in ids {
      AddressedMembers(Carried(payload), agent, m);
    }
    OpenAfterDelivery(Inbox(view.inboxes, agent), added, ids);
  }

  lemma OrderAfterAcknowledgement(run: RunId, log: seq<Record>, payload: Payload, agent: AgentId, ids: seq<string>)
    requires WellFormed(run, log) && payload.Acknowledged? && Admissible(run, log, payload)
    requires var open := Open(Inbox(RestoreLog(log).inboxes, agent)); Keep(open, ids) == Keep(ids, open)
    ensures var open := Open(Inbox(Restore(RestoreLog(log), payload).inboxes, agent));
            Keep(open, ids) == Keep(ids, open)
  {
    var box := Inbox(RestoreLog(log).inboxes, agent);
    if payload.agent == agent {
      RestoredIsSound(run, log);
      var k := IndexOf(box, payload.messageId);
      OpenAfterAcknowledgement(box, k, payload.at);
      KeepOfDrop(Open(box), ids, payload.messageId);
      KeepFromDrop(ids, Open(box), payload.messageId);
    }
  }

  lemma OrderAfterDequeue(run: RunId, log: seq<Record>, payload: Payload, agent: AgentId, ids: seq<string>)
    requires WellFormed(run, log) && payload.Dequeued? && Admissible(run, log, payload)
    requires var open := Open(Inbox(RestoreLog(log).inboxes, agent)); Keep(open, ids) == Keep(ids, open)
    ensures var open := Open(Inbox(Restore(RestoreLog(log), payload).inboxes, agent));
            Keep(open, ids) == Keep(ids, open)
  {
    var inboxes := RestoreLog(log).inboxes;
    DequeueInbox(inboxes, payload.agent, payload.ids, agent);
    if payload.agent == agent {
      var box := Inbox(inboxes, agent);
      RestoredIsSound(run, log);
      OfRunIsAll(box, run);
      var rest := Without(box, payload.ids);
      if rest != [] {
        WithoutMembers(box, payload.ids, rest[0]);
        IdsMembers(box, rest[0].id);
      }
      KeepNothing(ids, Open(rest));
    }
  }

  /** At every later point, the open messages a claim named stand in the mailbox in
      the order in which the claim listed them. */
  lemma {:induction false} ClaimOrderSurvives(run: RunId, log: seq<Record>, j: nat)
    requires WellFormed(run, log) && j < |log| && log[j].payload.Claimed?
    ensures var ids := log[j].payload.ids;
            var open := Open(Inbox(RestoreLog(log).inboxes, log[j].payload.agent));
            Keep(open, ids) == Keep(ids, open)
  {
    var before, payload := Init(log), Last(log).payload;
    var ids, agent := log[j].payload.ids, log[j].payload.agent;
    if j == |log| - 1 {
      FreshClaimOrder(run, before, payload);
    } else {
      ClaimOrderSurvives(run, before, j);
      if Carried(payload) != [] {
        forall m | m in Carried(payload) ensures m.id !in ids {
          if m.id in ids {
            ClaimsPersist(before, j, m.id);
            ClaimedWasDelivered(run, before, m.id);
          }
        }
        OrderAfterDelivery(run, before, payload, agent, ids);
      }
      match payload {
        case Acknowledged(_, _, _) => OrderAfterAcknowledgement(run, before, payload, agent, ids);
        case Dequeued(_, _) => OrderAfterDequeue(run, before, payload, agent, ids);
        case _ =>
      }
    }
  }

  lemma UniqueClaim(run: RunId, log: seq<Record>, i: nat, j: nat)
    requires WellFormed(run, log) && i <= j < |log| && log[j].payload.Claimed?
    requires Answers(log[i].payload, ClaimBy(log[j].payload.claimId, log[j].payload.agent))
    ensures i == j
  {
    WellFormedAt(run, log, j);
    assert forall k :: 0 <= k < j ==> log[..j][k] == log[k];
  }

  /** Repeating a claim id answers with exactly the messages of the original claim
      that are still unacknowledged, in the original order, and changes nothing. */
  lemma RepeatedClaim(bus: Bus, context: Context, agent: AgentId, claimId: string, j: nat)
    requires Good(bus) && AgentError(context.registry, bus.run, agent).None?
    requires j < |bus.log| && Answers(bus.log[j].payload, ClaimBy(claimId, agent))
    ensures var (bus', answer) := Claim(bus, context, agent, claimId);
            && bus' == bus && answer.Ok?
            && Ids(answer.value) == Keep(bus.log[j].payload.ids, Open(Inbox(bus.view.inboxes, agent)))
  {
    var found := Find(bus.log, ClaimBy(claimId, agent));
    UniqueClaim(bus.run, bus.log, found, j);
    ClaimOrderSurvives(bus.run, bus.log, j);
    PendingAmongIsKeep(Inbox(bus.view.inboxes, agent), bus.log[j].payload.ids);
  }
}
