/** Facts about the logs a live bus writes: which records may follow which, that
    message ids never repeat, and what the restored mailboxes hold. */
module BusLog {
  import opened Prelude
  import opened BusState

  // ----- message ids ----------------------------------------------------------

  lemma {:induction false} DecimalIsDigits(n: nat, k: nat)
    requires k < |Decimal(n)|
    ensures '0' <= Decimal(n)[k] <= '9'
  {
    if n >= 10 && k < |Decimal(n / 10)| {
      DecimalIsDigits(n / 10, k);
    }
  }

  lemma {:induction false} DecimalInjective(m: nat, n: nat)
    requires Decimal(m) == Decimal(n)
    ensures m == n
  {
    assert Last(Decimal(m)) == Last(Decimal(n));
    if m >= 10 && n >= 10 {
      assert Init(Decimal(m)) == Decimal(m / 10) && Init(Decimal(n)) == Decimal(n / 10);
      DecimalInjective(m / 10, n / 10);
    }
  }

  lemma ShorterIndex(b: string, i: nat, c: string, j: nat)
    requires BroadcastMessageId(b, i) == BroadcastMessageId(c, j)
    ensures |Decimal(j)| <= |Decimal(i)|
  {
    var s, d, e := BroadcastMessageId(b, i), Decimal(i), Decimal(j);
    assert s[|b|] == ':';
    assert |d| < |e| ==> s[|b|] == e[|e| - |d| - 1];
    if |d| < |e| {
      DecimalIsDigits(j, |e| - |d| - 1);
    }
  }

  /** Distinct (broadcast, index) pairs never share a message id. */
  lemma BroadcastMessageIdInjective(b: string, i: nat, c: string, j: nat)
    requires BroadcastMessageId(b, i) == BroadcastMessageId(c, j)
    ensures b == c && i == j
  {
    ShorterIndex(b, i, c, j);
    ShorterIndex(c, j, b, i);
    var s := BroadcastMessageId(b, i);
    assert s[..|b|] == b && s[..|c|] == c;
    assert s[|b| + 1..] == Decimal(i) && s[|c| + 1..] == Decimal(j);
    DecimalInjective(i, j);
  }

  // ----- which records a live bus can write next --------------------------------

  function Carried(payload: Payload): seq<Message> {
    match payload
    case Delivered(message, _, _) => [message]
    case Broadcast(_, _, _, _, _, _, _, messages) => messages
    case _ => []
  }

  /** Some record delivers a message under this id. */
  ghost predicate CarriesId(log: seq<Record>, id: string) {
    exists i, k :: CarriedAt(log, i, k) && CarriedMessage(log, i, k).id == id
  }

  /** The records a bus writes as long as no id is delivered twice. */
  ghost predicate Admissible(run: RunId, log: seq<Record>, payload: Payload) {
    var view := RestoreLog(log);
    match payload
    case Delivered(m, _, _) =>
      m.ackedAt.None? && m.run == run && !CarriesId(log, m.id)
    case Broadcast(b, _, _, _, _, _, _, messages) =>
      && Find(log, BroadcastOf(b)) == |log|
      && forall k :: 0 <= k < |messages| ==>
                       && messages[k].id == BroadcastMessageId(b, k) && !CarriesId(log, messages[k].id)
                       && messages[k].ackedAt.None? && messages[k].run == run
    case Claimed(agent, claimId, ids) =>
      && Find(log, ClaimBy(claimId, agent)) == |log|
      && ids == Ids(Claimable(Inbox(view.inboxes, agent), run, view.claims))
    case Acknowledged(agent, id, _) =>
      Lookup(Inbox(view.inboxes, agent), id).Some? && Lookup(Inbox(view.inboxes, agent), id).value.ackedAt.None?
    case Dequeued(agent, ids) => ids == Ids(OfRun(Inbox(view.inboxes, agent), run))
    case Foreign(_) => true
  }

  /** A log in which every record was one the bus could write at that point. */
  ghost predicate WellFormed(run: RunId, log: seq<Record>) {
    log != [] ==>
      && WellFormed(run, Init(log))
      && Admissible(run, Init(log), Last(log).payload)
      && forall i :: 0 <= i < |log| - 1 ==> log[i].number < Last(log).number
  }

  lemma {:induction false} WellFormedAt(run: RunId, log: seq<Record>, j: nat)
    requires WellFormed(run, log) && j < |log|
    ensures WellFormed(run, log[..j]) && Admissible(run, log[..j], log[j].payload)
    ensures forall i :: 0 <= i < j ==> log[i].number < log[j].number
  {
    if j < |log| - 1 {
      WellFormedAt(run, Init(log), j);
      assert Init(log)[..j] == log[..j];
    } else {
      assert Init(log) == log[..j];
    }
  }

  // ----- message ids never repeat ------------------------------------------------

  ghost predicate CarriedAt(log: seq<Record>, i: int, k: int) {
    0 <= i < |log| && 0 <= k < |Carried(log[i].payload)|
  }

  function CarriedMessage(log: seq<Record>, i: int, k: int): Message
    requires CarriedAt(log, i, k)
  {
    Carried(log[i].payload)[k]
  }

  /** A message about to be written has an id no earlier record carries. */
  lemma FreshId(run: RunId, log: seq<Record>, payload: Payload, l: int, i: int, k: int)
    requires WellFormed(run, log) && Admissible(run, log, payload)
    requires 0 <= l < |Carried(payload)| && CarriedAt(log, i, k)
    ensures CarriedMessage(log, i, k).id != Carried(payload)[l].id
  {
    assert CarriesId(log, CarriedMessage(log, i, k).id);
  }

  /** Two places of a well-formed log that carry one id are the same place. */
  lemma UniqueDelivery(run: RunId, log: seq<Record>, i: int, k: int, j: int, l: int)
    requires WellFormed(run, log) && CarriedAt(log, i, k) && CarriedAt(log, j, l)
    requires CarriedMessage(log, i, k).id == CarriedMessage(log, j, l).id
    ensures i == j && k == l
  {
    if i < j {
      WellFormedAt(run, log, j);
      assert CarriedMessage(log[..j], i, k) == CarriedMessage(log, i, k);
      FreshId(run, log[..j], log[j].payload, l, i, k);
    } else if j < i {
      WellFormedAt(run, log, i);
      assert CarriedMessage(log[..i], j, l) == CarriedMessage(log, j, l);
      FreshId(run, log[..i], log[i].payload, k, j, l);
    } else if log[i].payload.Broadcast? {
      WellFormedAt(run, log, i);
      BroadcastMessageIdInjective(log[i].payload.broadcastId, k, log[i].payload.broadcastId, l);
    }
  }

  // ----- mailboxes of a restored view ----------------------------------------------

  function Lookup(messages: seq<Message>, id: string): Option<Message> {
    var k := IndexOf(messages, id);
    if k < |messages| then Some(messages[k]) else None
  }

  ghost predicate DistinctIds(messages: seq<Message>) {
    forall i, j :: 0 <= i < j < |messages| ==> messages[i].id != messages[j].id
  }

  lemma LookupFinds(messages: seq<Message>, message: Message)
    requires DistinctIds(messages) && message in messages
    ensures Lookup(messages, message.id) == Some(message)
  {
    var k := IndexOf(messages, message.id);
    var j :| 0 <= j < |messages| && messages[j] == message;
    assert k <= j;
  }

  ghost predicate Absent(messages: seq<Message>, id: string) {
    forall m :: m in messages ==> m.id != id
  }

  lemma LookupAbsent(messages: seq<Message>, id: string)
    ensures Lookup(messages, id).None? <==> Absent(messages, id)
  {
    var k := IndexOf(messages, id);
    if k < |messages| {
      assert messages[k] in messages;
    } else {
      forall m | m in messages ensures m.id != id {
        var j :| 0 <= j < |messages| && messages[j] == m;
      }
    }
  }

  function AddressedTo(messages: seq<Message>, agent: AgentId): seq<Message> {
    if messages == [] then []
    else AddressedTo(Init(messages), agent) + if Last(messages).to == agent then [Last(messages)] else []
  }

  lemma {:induction false} DeliverAllInbox(inboxes: Inboxes, messages: seq<Message>, agent: AgentId)
    ensures Inbox(DeliverAll(inboxes, messages), agent) == Inbox(inboxes, agent) + AddressedTo(messages, agent)
  {
    if messages != [] {
      DeliverAllInbox(inboxes, Init(messages), agent);
    }
  }

  lemma {:induction false} AddressedMembers(messages: seq<Message>, agent: AgentId, m: Message)
    ensures m in AddressedTo(messages, agent) <==> m in messages && m.to == agent
  {
    if messages != [] {
      AddressedMembers(Init(messages), agent, m);
      InitLast(messages);
    }
  }

  lemma {:induction false} AddressedDistinct(messages: seq<Message>, agent: AgentId)
    requires DistinctIds(messages)
    ensures DistinctIds(AddressedTo(messages, agent))
  {
    if messages != [] {
      AddressedDistinct(Init(messages), agent);
      forall m | m in AddressedTo(Init(messages), agent) ensures m.id != Last(messages).id {
        AddressedMembers(Init(messages), agent, m);
      }
    }
  }

  lemma {:induction false} WithoutMembers(messages: seq<Message>, ids: seq<string>, m: Message)
    ensures m in Without(messages, ids) <==> m in messages && m.id !in ids
  {
    if messages != [] {
      WithoutMembers(Init(messages), ids, m);
      InitLast(messages);
    }
  }

  lemma {:induction false} WithoutDistinct(messages: seq<Message>, ids: seq<string>)
    requires DistinctIds(messages)
    ensures DistinctIds(Without(messages, ids))
  {
    if messages != [] {
      WithoutDistinct(Init(messages), ids);
      forall m | m in Without(Init(messages), ids) ensures m.id != Last(messages).id {
        WithoutMembers(Init(messages), ids, m);
      }
    }
  }

  lemma {:induction false} OfRunIsAll(messages: seq<Message>, run: RunId)
    requires forall m :: m in messages ==> m.run == run
    ensures OfRun(messages, run) == messages
  {
    if messages != [] {
      InitLast(messages);
      assert forall m :: m in Init(messages) ==> m in messages;
      OfRunIsAll(Init(messages), run);
    }
  }

  lemma {:induction false} ClaimableMembers(messages: seq<Message>, run: RunId, claims: map<string, string>, m: Message)
    ensures m in Claimable(messages, run, claims) <==> m in messages && IsClaimable(m, run, claims)
  {
    if messages != [] {
      ClaimableMembers(Init(messages), run, claims, m);
      InitLast(messages);
    }
  }

  lemma IdsMembers(messages: seq<Message>, id: string)
    ensures id in Ids(messages) <==> !Absent(messages, id)
  {
    if id in Ids(messages) {
      var k :| 0 <= k < |messages| && Ids(messages)[k] == id;
      assert messages[k] in messages;
    }
    if !Absent(messages, id) {
      var m :| m in messages && m.id == id;
      var k :| 0 <= k < |messages| && messages[k] == m;
      assert Ids(messages)[k] == id;
    }
  }

  /** Delivering messages whose ids their recipients do not hold is what
      restoring them does. */
  lemma {:induction false} RestoreDelivers(inboxes: Inboxes, messages: seq<Message>)
    requires DistinctIds(messages)
    requires forall m :: m in messages ==> Absent(Inbox(inboxes, m.to), m.id)
    ensures RestoreMessages(inboxes, messages) == DeliverAll(inboxes, messages)
  {
    if messages != [] {
      var m := Last(messages);
      InitLast(messages);
      assert forall x :: x in Init(messages) ==> x in messages;
      RestoreDelivers(inboxes, Init(messages));
      var so := DeliverAll(inboxes, Init(messages));
      DeliverAllInbox(inboxes, Init(messages), m.to);
      forall x | x in Inbox(so, m.to) ensures x.id != m.id {
        AddressedMembers(Init(messages), m.to, x);
      }
      IdsMembers(Inbox(so, m.to), m.id);
    }
  }

  /** Some record delivered this message, whatever its acknowledgement. */
  ghost predicate HasOrigin(log: seq<Record>, m: Message) {
    exists i, k :: CarriedAt(log, i, k) && SameContent(CarriedMessage(log, i, k), m)
  }

  ghost predicate SoundInbox(run: RunId, log: seq<Record>, agent: AgentId, messages: seq<Message>) {
    && DistinctIds(messages)
    && forall m :: m in messages ==> m.to == agent && m.run == run && HasOrigin(log, m)
  }

  ghost predicate SoundInboxes(run: RunId, log: seq<Record>, inboxes: Inboxes) {
    forall agent :: agent in inboxes ==> inboxes[agent] != [] && SoundInbox(run, log, agent, inboxes[agent])
  }

  lemma OriginSurvives(log: seq<Record>, record: Record, m: Message)
    requires HasOrigin(log, m)
    ensures HasOrigin(log + [record], m)
  {
    var i, k :| CarriedAt(log, i, k) && SameContent(CarriedMessage(log, i, k), m);
    assert CarriedAt(log + [record], i, k) && CarriedMessage(log + [record], i, k) == CarriedMessage(log, i, k);
  }

  lemma CarriedDistinct(run: RunId, log: seq<Record>, payload: Payload)
    requires WellFormed(run, log) && Admissible(run, log, payload)
    ensures DistinctIds(Carried(payload))
  {
    forall i, j | 0 <= i < j < |Carried(payload)| ensures Carried(payload)[i].id != Carried(payload)[j].id {
      if Carried(payload)[i].id == Carried(payload)[j].id {
        BroadcastMessageIdInjective(payload.broadcastId, i, payload.broadcastId, j);
      }
    }
  }

  /** No mailbox holds the id of a message about to be written. */
  lemma CarriedAbsent(run: RunId, log: seq<Record>, inboxes: Inboxes, payload: Payload, m: Message, agent: AgentId)
    requires WellFormed(run, log) && Admissible(run, log, payload) && SoundInboxes(run, log, inboxes)
    requires m in Carried(payload)
    ensures Absent(Inbox(inboxes, agent), m.id)
  {
    var l :| 0 <= l < |Carried(payload)| && Carried(payload)[l] == m;
    forall x | x in Inbox(inboxes, agent) ensures x.id != m.id {
      var i, k :| CarriedAt(log, i, k) && SameContent(CarriedMessage(log, i, k), x);
      FreshId(run, log, payload, l, i, k);
    }
  }

  lemma CarriedRestored(run: RunId, log: seq<Record>, view: View, payload: Payload)
    requires WellFormed(run, log) && Admissible(run, log, payload) && SoundInboxes(run, log, view.inboxes)
    requires Carried(payload) != []
    ensures Restore(view, payload) == view.(inboxes := DeliverAll(view.inboxes, Carried(payload)))
  {
    var messages := Carried(payload);
    CarriedDistinct(run, log, payload);
    forall m | m in messages ensures Absent(Inbox(view.inboxes, m.to), m.id) {
      CarriedAbsent(run, log, view.inboxes, payload, m, m.to);
    }
    RestoreDelivers(view.inboxes, messages);
    if payload.Delivered? {
      assert Init(messages) == [];
      assert DeliverAll(view.inboxes, messages) == Deliver(view.inboxes, messages[0]);
      IdsMembers(Inbox(view.inboxes, messages[0].to), messages[0].id);
    }
  }
}
