/** What holds of every log a live bus writes and of the view restored from it. */
module BusTheorems {
  import opened Prelude
  import opened BusState
  import opened BusLog

  // ----- restored mailboxes are sound --------------------------------------------

  lemma {:induction false} DeliverAllNonEmpty(inboxes: Inboxes, messages: seq<Message>)
    requires forall agent :: agent in inboxes ==> inboxes[agent] != []
    ensures forall agent :: agent in DeliverAll(inboxes, messages) ==> DeliverAll(inboxes, messages)[agent] != []
  {
    if messages != [] {
      DeliverAllNonEmpty(inboxes, Init(messages));
    }
  }

  lemma SoundLonger(run: RunId, log: seq<Record>, record: Record, inboxes: Inboxes)
    requires SoundInboxes(run, log, inboxes)
    ensures SoundInboxes(run, log + [record], inboxes)
  {
    forall agent, m | agent in inboxes && m in inboxes[agent] ensures HasOrigin(log + [record], m) {
      OriginSurvives(log, record, m);
    }
  }

  lemma SoundAfterDelivery(run: RunId, log: seq<Record>, record: Record, inboxes: Inboxes)
    requires WellFormed(run, log) && Admissible(run, log, record.payload) && SoundInboxes(run, log, inboxes)
    ensures SoundInboxes(run, log + [record], DeliverAll(inboxes, Carried(record.payload)))
  {
    var messages := Carried(record.payload);
    var inboxes' := DeliverAll(inboxes, messages);
    SoundLonger(run, log, record, inboxes);
    DeliverAllNonEmpty(inboxes, messages);
    CarriedDistinct(run, log, record.payload);
    forall agent | agent in inboxes' ensures SoundInbox(run, log + [record], agent, inboxes'[agent]) {
      DeliverAllInbox(inboxes, messages, agent);
      AddressedDistinct(messages, agent);
      forall m | m in AddressedTo(messages, agent)
        ensures m.to == agent && m.run == run && HasOrigin(log + [record], m) && Absent(Inbox(inboxes, agent), m.id)
      {
        AddressedMembers(messages, agent, m);
        var l :| 0 <= l < |messages| && messages[l] == m;
        assert CarriedAt(log + [record], |log|, l) && CarriedMessage(log + [record], |log|, l) == m;
        CarriedAbsent(run, log, inboxes, record.payload, m, agent);
      }
    }
  }

  lemma SoundAfterAcknowledgement(run: RunId, log: seq<Record>, inboxes: Inboxes, agent: AgentId, id: string, at: int)
    requires SoundInboxes(run, log, inboxes)
    ensures SoundInboxes(run, log, RestoreAcknowledgement(inboxes, agent, id, at))
  {
    var messages := Inbox(inboxes, agent);
    var k := IndexOf(messages, id);
    if k < |messages| {
      var acked := messages[k].(ackedAt := Some(at));
      assert messages[k] in messages;
      var i, j :| CarriedAt(log, i, j) && SameContent(CarriedMessage(log, i, j), messages[k]);
      assert HasOrigin(log, acked) by {
        assert SameContent(CarriedMessage(log, i, j), acked);
      }
      forall m | m in messages[k := acked] ensures m == acked || m in messages {}
    }
  }

  lemma SoundAfterDequeue(run: RunId, log: seq<Record>, inboxes: Inboxes, agent: AgentId, ids: seq<string>)
    requires SoundInboxes(run, log, inboxes)
    ensures SoundInboxes(run, log, RestoreDequeue(inboxes, agent, ids))
  {
    if agent in inboxes {
      WithoutDistinct(inboxes[agent], ids);
      forall m | m in Without(inboxes[agent], ids) ensures m in inboxes[agent] {
        WithoutMembers(inboxes[agent], ids, m);
      }
    }
  }

  /** Restored mailboxes are non-empty, hold each id once, and hold only messages
      that some record delivered to that agent. */
  lemma {:induction false} RestoredIsSound(run: RunId, log: seq<Record>)
    requires WellFormed(run, log)
    ensures SoundInboxes(run, log, RestoreLog(log).inboxes)
  {
    if log != [] {
      var before, record := Init(log), Last(log);
      InitLast(log);
      RestoredIsSound(run, before);
      var view := RestoreLog(before);
      SoundLonger(run, before, record, view.inboxes);
      if Carried(record.payload) != [] {
        CarriedRestored(run, before, view, record.payload);
        SoundAfterDelivery(run, before, record, view.inboxes);
      }
      match record.payload {
        case Acknowledged(agent, id, at) => SoundAfterAcknowledgement(run, log, view.inboxes, agent, id, at);
        case Dequeued(agent, ids) => SoundAfterDequeue(run, log, view.inboxes, agent, ids);
        case _ =>
      }
    }
  }

  // ----- the records about one message decide where it is --------------------------

  lemma {:induction false} StatusUntouched(m: Message, log: seq<Record>, after: nat)
    requires forall i :: 0 <= i < |log| ==> log[i].number <= after
    ensures StatusAfter(m, log, after) == Status(m.ackedAt, None, false)
  {
    if log != [] {
      StatusUntouched(m, Init(log), after);
    }
  }

  function ClaimOf(claims: map<string, string>, id: string): Option<string> {
    if id in claims then Some(claims[id]) else None
  }

  /** The mailbox entry and claim that a message's status stands for. */
  function Entry(m: Message, status: Status): Option<Message> {
    if status.dequeued then None else Some(m.(ackedAt := status.ackedAt))
  }

  ghost predicate Tracks(view: View, m: Message, status: Status) {
    Lookup(Inbox(view.inboxes, m.to), m.id) == Entry(m, status) && ClaimOf(view.claims, m.id) == status.claim
  }

  lemma LookupInAppend(s: seq<Message>, t: seq<Message>, id: string)
    ensures Absent(t, id) ==> Lookup(s + t, id) == Lookup(s, id)
    ensures Absent(s, id) ==> Lookup(s + t, id) == Lookup(t, id)
    decreases s
  {
    if s == [] {
      assert s + t == t;
      LookupAbsent(t, id);
    } else {
      assert (s + t)[1..] == s[1..] + t;
      assert forall m :: m in s[1..] ==> m in s;
      assert s[0] in s;
      LookupInAppend(s[1..], t, id);
    }
  }

  lemma TracksAfterDelivery(run: RunId, log: seq<Record>, payload: Payload, m: Message, status: Status)
    requires WellFormed(run, log) && Admissible(run, log, payload) && Carried(payload) != []
    requires forall x :: x in Carried(payload) ==> x.id != m.id
    requires Tracks(RestoreLog(log), m, status)
    ensures Tracks(Restore(RestoreLog(log), payload), m, status)
  {
    var view := RestoreLog(log);
    RestoredIsSound(run, log);
    CarriedRestored(run, log, view, payload);
    DeliverAllInbox(view.inboxes, Carried(payload), m.to);
    forall x | x in AddressedTo(Carried(payload), m.to) ensures x.id != m.id {
      AddressedMembers(Carried(payload), m.to, x);
    }
    LookupInAppend(Inbox(view.inboxes, m.to), AddressedTo(Carried(payload), m.to), m.id);
  }

  lemma TracksWhenDelivered(run: RunId, log: seq<Record>, payload: Payload, m: Message)
    requires WellFormed(run, log) && Admissible(run, log, payload) && m in Carried(payload)
    ensures Tracks(Restore(RestoreLog(log), payload), m, Status(None, None, false))
  {
    var view := RestoreLog(log);
    RestoredIsSound(run, log);
    CarriedRestored(run, log, view, payload);
    CarriedDistinct(run, log, payload);
    DeliverAllInbox(view.inboxes, Carried(payload), m.to);
    CarriedAbsent(run, log, view.inboxes, payload, m, m.to);
    LookupInAppend(Inbox(view.inboxes, m.to), AddressedTo(Carried(payload), m.to), m.id);
    AddressedDistinct(Carried(payload), m.to);
    AddressedMembers(Carried(payload), m.to, m);
    LookupFinds(AddressedTo(Carried(payload), m.to), m);
    if m.id in view.claims {
      ClaimedWasDelivered(run, log, m.id);
    }
  }

  /** Only delivered messages are ever claimed. */
  lemma {:induction false} ClaimedWasDelivered(run: RunId, log: seq<Record>, id: string)
    requires WellFormed(run, log) && id in RestoreLog(log).claims
    ensures CarriesId(log, id)
  {
    var before, payload := Init(log), Last(log).payload;
    InitLast(log);
    var view := RestoreLog(before);
    var m: Message;
    if id in view.claims {
      ClaimedWasDelivered(run, before, id);
      var i, k :| CarriedAt(before, i, k) && CarriedMessage(before, i, k).id == id;
      assert CarriedAt(log, i, k) && CarriedMessage(log, i, k).id == id;
    } else {
      var box := Inbox(view.inboxes, payload.agent);
      IdsMembers(Claimable(box, run, view.claims), id);
      m :| m in Claimable(box, run, view.claims) && m.id == id;
      ClaimableMembers(box, run, view.claims, m);
      RestoredIsSound(run, before);
      var i, k :| CarriedAt(before, i, k) && SameContent(CarriedMessage(before, i, k), m);
      assert CarriedAt(log, i, k) && CarriedMessage(log, i, k).id == id;
    }
  }

  lemma {:induction false} LookupAfterUpdate(s: seq<Message>, id: string, at: int, other: string)
    requires IndexOf(s, id) < |s|
    ensures var k := IndexOf(s, id);
            var s' := s[k := s[k].(ackedAt := Some(at))];
            && Lookup(s', id) == Some(s[k].(ackedAt := Some(at)))
            && (other != id ==> Lookup(s', other) == Lookup(s, other))
  {
    var k := IndexOf(s, id);
    var s' := s[k := s[k].(ackedAt := Some(at))];
    if k > 0 {
      assert s'[1..] == s[1..][k - 1 := s[k].(ackedAt := Some(at))];
      LookupAfterUpdate(s[1..], id, at, other);
    } else {
      assert s'[1..] == s[1..];
    }
  }

  lemma SameAgent(run: RunId, log: seq<Record>, i: int, k: int, agent: AgentId, m: Message)
    requires WellFormed(run, log) && CarriedAt(log, i, k)
    requires m in Inbox(RestoreLog(log).inboxes, agent) && m.id == CarriedMessage(log, i, k).id
    ensures agent == CarriedMessage(log, i, k).to && SameContent(CarriedMessage(log, i, k), m)
  {
    RestoredIsSound(run, log);
    var j, l :| CarriedAt(log, j, l) && SameContent(CarriedMessage(log, j, l), m);
    UniqueDelivery(run, log, i, k, j, l);
  }

  lemma TracksAfterAcknowledgement(run: RunId, log: seq<Record>, payload: Payload, i: int, k: int, status: Status)
    requires WellFormed(run, log) && payload.Acknowledged? && Admissible(run, log, payload) && CarriedAt(log, i, k)
    requires Tracks(RestoreLog(log), CarriedMessage(log, i, k), status)
    ensures Tracks(Restore(RestoreLog(log), payload), CarriedMessage(log, i, k),
                   Observe(status, CarriedMessage(log, i, k).id, payload))
  {
    var view, d := RestoreLog(log), CarriedMessage(log, i, k);
    var box := Inbox(view.inboxes, payload.agent);
    var p := IndexOf(box, payload.messageId);
    LookupAfterUpdate(box, payload.messageId, payload.at, d.id);
    if payload.messageId == d.id {
      SameAgent(run, log, i, k, payload.agent, box[p]);
    }
  }

  lemma {:induction false} LookupWithout(s: seq<Message>, ids: seq<string>, id: string)
    requires DistinctIds(s)
    ensures Lookup(Without(s, ids), id) == if id in ids then None else Lookup(s, id)
  {
    var t := Without(s, ids);
    WithoutDistinct(s, ids);
    LookupAbsent(t, id);
    LookupAbsent(s, id);
    if Lookup(t, id).Some? {
      var m :| m in t && m.id == id;
      WithoutMembers(s, ids, m);
      LookupFinds(t, m);
      LookupFinds(s, m);
    } else if Lookup(s, id).Some? {
      WithoutMembers(s, ids, Lookup(s, id).value);
    }
  }

  lemma DequeueInbox(inboxes: Inboxes, agent: AgentId, ids: seq<string>, a: AgentId)
    ensures Inbox(RestoreDequeue(inboxes, agent, ids), a) ==
            if a == agent then Without(Inbox(inboxes, a), ids) else Inbox(inboxes, a)
  {
  }

  /** A dequeue record that names a delivered message empties its recipient's mailbox. */
  lemma DequeuedFromRecipient(run: RunId, log: seq<Record>, payload: Payload, i: int, k: int)
    requires WellFormed(run, log) && payload.Dequeued? && Admissible(run, log, payload) && CarriedAt(log, i, k)
    requires CarriedMessage(log, i, k).id in payload.ids
    ensures payload.agent == CarriedMessage(log, i, k).to
    ensures Lookup(Inbox(RestoreLog(log).inboxes, payload.agent), CarriedMessage(log, i, k).id).Some?
  {
    var d := CarriedMessage(log, i, k);
    var box := Inbox(RestoreLog(log).inboxes, payload.agent);
    RestoredIsSound(run, log);
    OfRunIsAll(box, run);
    IdsMembers(box, d.id);
    LookupAbsent(box, d.id);
    var m :| m in box && m.id == d.id;
    SameAgent(run, log, i, k, payload.agent, m);
  }

  lemma TracksAfterDequeue(run: RunId, log: seq<Record>, payload: Payload, i: int, k: int, status: Status)
    requires WellFormed(run, log) && payload.Dequeued? && Admissible(run, log, payload) && CarriedAt(log, i, k)
    requires Tracks(RestoreLog(log), CarriedMessage(log, i, k), status)
    ensures Tracks(Restore(RestoreLog(log), payload), CarriedMessage(log, i, k),
                   Observe(status, CarriedMessage(log, i, k).id, payload))
  {
    var inboxes, d := RestoreLog(log).inboxes, CarriedMessage(log, i, k);
    if d.id in payload.ids {
      DequeuedFromRecipient(run, log, payload, i, k);
    }
    DequeueInbox(inboxes, payload.agent, payload.ids, d.to);
    assert DistinctIds(Inbox(inboxes, d.to)) by { RestoredIsSound(run, log); }
    LookupWithout(Inbox(inboxes, d.to), payload.ids, d.id);
  }

  /** For every delivered message, the mailbox entry and the claim in the restored
      view are exactly what the later records about that message dictate. */
  lemma {:induction false} StatusDecidesEntry(run: RunId, log: seq<Record>, i: int, k: int)
    requires WellFormed(run, log) && CarriedAt(log, i, k)
    ensures Tracks(RestoreLog(log), CarriedMessage(log, i, k),
                   StatusAfter(CarriedMessage(log, i, k), log, log[i].number))
  {
    var before, record := Init(log), Last(log);
    InitLast(log);
    var d := CarriedMessage(log, i, k);
    if i == |log| - 1 {
      StatusUntouched(d, log, log[i].number);
      TracksWhenDelivered(run, before, record.payload, d);
    } else {
      assert CarriedMessage(before, i, k) == d;
      StatusDecidesEntry(run, before, i, k);
      var status := StatusAfter(d, before, log[i].number);
      if Carried(record.payload) != [] {
        forall l | 0 <= l < |Carried(record.payload)| ensures Carried(record.payload)[l].id != d.id {
          FreshId(run, before, record.payload, l, i, k);
        }
        TracksAfterDelivery(run, before, record.payload, d, status);
      }
      match record.payload {
        case Acknowledged(_, _, _) => TracksAfterAcknowledgement(run, before, record.payload, i, k, status);
        case Dequeued(_, _) => TracksAfterDequeue(run, before, record.payload, i, k, status);
        case _ =>
      }
    }
  }
}
