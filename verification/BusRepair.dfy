/** What repairing messages does to any mailboxes at all: exactly when it changes
    nothing, that it gives back lost deliveries, and how many messages it reopens. */
module BusRepair {
  import opened Prelude
  import opened BusState
  import opened BusLog
  import opened BusTheorems
  import opened BusRuns

  // ----- the entries under one id ---------------------------------------------------------

  function Under(messages: seq<Message>, id: string): seq<Message> {
    if messages == [] then []
    else Under(Init(messages), id) + if Last(messages).id == id then [Last(messages)] else []
  }

  lemma {:induction false} UnderAppend(s: seq<Message>, t: seq<Message>, id: string)
    ensures Under(s + t, id) == Under(s, id) + Under(t, id)
  {
    if t == [] {
      assert s + t == s;
    } else {
      UnderAppend(s, Init(t), id);
      assert Init(s + t) == s + Init(t);
    }
  }

  lemma {:induction false} UnderWithout(s: seq<Message>, ids: seq<string>, id: string)
    ensures Under(Without(s, ids), id) == if id in ids then [] else Under(s, id)
  {
    if s != [] {
      UnderWithout(Init(s), ids, id);
      if Last(s).id !in ids {
        InitOfAppend(Without(Init(s), ids), Last(s));
      } else {
        assert Without(s, ids) == Without(Init(s), ids);
      }
    }
  }

  lemma {:induction false} UnderUpdate(s: seq<Message>, k: nat, m: Message, id: string)
    requires k < |s| && s[k].id == m.id && m.id != id
    ensures Under(s[k := m], id) == Under(s, id)
  {
    var s' := s[k := m];
    if k < |s| - 1 {
      assert Init(s') == Init(s)[k := m];
      UnderUpdate(Init(s), k, m, id);
    } else {
      assert Init(s') == Init(s);
    }
  }

  /** The entry a lookup finds is the first under its id. */
  lemma {:induction false} LookupIsFirst(s: seq<Message>, id: string)
    ensures Lookup(s, id) == if Under(s, id) == [] then None else Some(Under(s, id)[0])
  {
    if s != [] {
      LookupIsFirst(Init(s), id);
      var p, q := IndexOf(Init(s), id), IndexOf(s, id);
      if p < |Init(s)| {
        assert s[p].id == id && q <= p;
        assert Init(s)[q] == s[q];
      } else {
        assert forall j :: 0 <= j < |s| - 1 ==> s[j] == Init(s)[j] && s[j].id != id;
      }
    }
  }

  // ----- one message ------------------------------------------------------------------------

  lemma {:induction false} LookupUpdated(s: seq<Message>, id: string, at: Option<int>)
    requires IndexOf(s, id) < |s|
    ensures var k := IndexOf(s, id);
            Lookup(s[k := s[k].(ackedAt := at)], id) == Some(s[k].(ackedAt := at))
  {
    var k := IndexOf(s, id);
    if k > 0 {
      assert s[k := s[k].(ackedAt := at)][1..] == s[1..][k - 1 := s[k].(ackedAt := at)];
      LookupUpdated(s[1..], id, at);
    }
  }

  /** The parts of a view that concern one id. */
  ghost predicate SameAt(x: View, y: View, id: string) {
    (forall a :: Under(Inbox(x.inboxes, a), id) == Under(Inbox(y.inboxes, a), id)) &&
    ClaimOf(x.claims, id) == ClaimOf(y.claims, id)
  }

  lemma RepairIsLocal(view: View, d: Message, status: Status)
    ensures var repaired := RepairMessage(view, d, status).0;
            && (forall a :: a != d.to ==> Inbox(repaired.inboxes, a) == Inbox(view.inboxes, a))
            && (forall id :: id != d.id ==> ClaimOf(repaired.claims, id) == ClaimOf(view.claims, id))
  {
  }

  /** The recipient's mailbox after a repair. */
  function RepairedBox(box: seq<Message>, d: Message, status: Status): seq<Message> {
    var p := IndexOf(box, d.id);
    if status.dequeued then Without(box, [d.id])
    else if p == |box| then box + [d.(ackedAt := status.ackedAt)]
    else if SameContent(box[p], d) then box[p := box[p].(ackedAt := status.ackedAt)]
    else box
  }

  lemma RepairedInbox(view: View, d: Message, status: Status, agent: AgentId)
    ensures Inbox(RepairMessage(view, d, status).0.inboxes, agent) ==
            if agent == d.to then RepairedBox(Inbox(view.inboxes, agent), d, status) else Inbox(view.inboxes, agent)
  {
  }

  lemma RepairKeepsOthers(view: View, d: Message, status: Status, id: string)
    requires id != d.id
    ensures SameAt(RepairMessage(view, d, status).0, view, id)
  {
    var box := Inbox(view.inboxes, d.to);
    var p := IndexOf(box, d.id);
    RepairIsLocal(view, d, status);
    UnderWithout(box, [d.id], id);
    UnderAppend(box, [d.(ackedAt := status.ackedAt)], id);
    assert Under([d.(ackedAt := status.ackedAt)], id) == [] by {
      assert Init([d.(ackedAt := status.ackedAt)]) == [];
    }
    if p < |box| {
      UnderUpdate(box, p, box[p].(ackedAt := status.ackedAt), id);
    }
  }

  ghost predicate NoEmptyMailbox(inboxes: Inboxes) {
    forall a :: a in inboxes ==> inboxes[a] != []
  }

  lemma RepairKeepsNonEmpty(view: View, d: Message, status: Status)
    requires NoEmptyMailbox(view.inboxes)
    ensures NoEmptyMailbox(RepairMessage(view, d, status).0.inboxes)
  {
  }

  predicate ClaimAgrees(view: View, d: Message, status: Status) {
    status.claim.Some? ==> ClaimOf(view.claims, d.id) == status.claim
  }

  /** The recipient holds another message under the id of a message it should hold. */
  predicate Conflicts(view: View, d: Message, status: Status) {
    var held := Lookup(Inbox(view.inboxes, d.to), d.id);
    !status.dequeued && held.Some? && !SameContent(held.value, d)
  }

  /** The first entry under the id is the message with the acknowledgement its records
      give it, or there is none if they dequeue it. */
  predicate EntryAgrees(view: View, d: Message, status: Status) {
    Lookup(Inbox(view.inboxes, d.to), d.id) == Entry(d, status)
  }

  /** Repairing a message leaves the view alone exactly when its claim agrees and its
      entry agrees or conflicts; it answers well exactly when there is no conflict. */
  lemma RepairMovesExactly(view: View, d: Message, status: Status)
    requires NoEmptyMailbox(view.inboxes)
    ensures RepairMessage(view, d, status).0 == view <==>
            ClaimAgrees(view, d, status) && (Conflicts(view, d, status) || EntryAgrees(view, d, status))
    ensures RepairMessage(view, d, status).1 <==> !Conflicts(view, d, status)
  {
    var box := Inbox(view.inboxes, d.to);
    var p := IndexOf(box, d.id);
    var repaired := RepairMessage(view, d, status).0;
    assert status.claim.Some? ==> (view.claims[d.id := status.claim.value] == view.claims <==> ClaimAgrees(view, d, status)) by {
      if status.claim.Some? && ClaimAgrees(view, d, status) {
        assert view.claims[d.id := status.claim.value] == view.claims;
      }
    }
    if status.dequeued {
      LookupAbsent(box, d.id);
      if Absent(box, d.id) {
        WithoutAbsent(box, d.id);
        StoreBack(view.inboxes, d.to);
      } else {
        UnderWithout(box, [d.id], d.id);
        LookupIsFirst(box, d.id);
        assert Inbox(repaired.inboxes, d.to) == Without(box, [d.id]);
      }
    } else if p == |box| {
      assert Inbox(repaired.inboxes, d.to) == box + [d.(ackedAt := status.ackedAt)];
    } else if SameContent(box[p], d) {
      var updated := box[p := box[p].(ackedAt := status.ackedAt)];
      assert Inbox(repaired.inboxes, d.to) == updated;
      assert box[p].ackedAt == status.ackedAt ==> updated == box && view.inboxes[d.to := updated] == view.inboxes;
      assert box[p].ackedAt != status.ackedAt ==> updated[p] != box[p];
    }
  }

  /** So a repair of one message is the identity exactly when entry and claim agree. */
  lemma RepairIsIdentityExactly(view: View, d: Message, status: Status)
    requires NoEmptyMailbox(view.inboxes)
    ensures RepairMessage(view, d, status) == (view, true) <==>
            ClaimAgrees(view, d, status) && EntryAgrees(view, d, status)
  {
    RepairMovesExactly(view, d, status);
  }

  // ----- the loop over the messages of a record -----------------------------------------------

  lemma {:induction false} LoopKeepsOthers(view: View, messages: seq<Message>, after: nat, log: seq<Record>, id: string)
    requires forall m :: m in messages ==> m.id != id
    ensures SameAt(Repair(view, messages, after, log).0, view, id)
    decreases |messages|
  {
    if messages != [] {
      var d, status := messages[0], StatusAfter(messages[0], log, after);
      assert d in messages && forall m :: m in messages[1..] ==> m in messages;
      RepairKeepsOthers(view, d, status, id);
      LoopKeepsOthers(RepairMessage(view, d, status).0, messages[1..], after, log, id);
    }
  }

  lemma RestDistinct(messages: seq<Message>)
    requires messages != [] && DistinctIds(messages)
    ensures DistinctIds(messages[1..]) && forall m :: m in messages[1..] ==> m.id != messages[0].id
  {
    forall m | m in messages[1..] ensures m.id != messages[0].id {
      var k :| 0 <= k < |messages[1..]| && messages[1..][k] == m;
      assert messages[k + 1] == m;
    }
  }

  /** No message of the list moves anything, up to the first that conflicts. */
  predicate MovesNothing(view: View, messages: seq<Message>, after: nat, log: seq<Record>)
    decreases |messages|
  {
    messages == [] ||
    (var status := StatusAfter(messages[0], log, after);
     && ClaimAgrees(view, messages[0], status)
     && (Conflicts(view, messages[0], status) ||
         (EntryAgrees(view, messages[0], status) && MovesNothing(view, messages[1..], after, log))))
  }

  /** A repair that moved something is seen at the id of the message it repaired. */
  lemma RepairShows(view: View, d: Message, status: Status)
    requires RepairMessage(view, d, status).1 && RepairMessage(view, d, status).0 != view
    requires NoEmptyMailbox(view.inboxes)
    ensures !SameAt(RepairMessage(view, d, status).0, view, d.id)
  {
    var repaired := RepairMessage(view, d, status).0;
    var box, box' := Inbox(view.inboxes, d.to), Inbox(repaired.inboxes, d.to);
    RepairMovesExactly(view, d, status);
    if SameAt(repaired, view, d.id) {
      LookupIsFirst(box, d.id);
      LookupIsFirst(box', d.id);
      assert Under(box', d.id) == Under(box, d.id);
      RepairedEntry(view, d, status);
    }
  }

  /** After a repair without conflict, entry and claim agree. */
  lemma RepairedEntry(view: View, d: Message, status: Status)
    requires RepairMessage(view, d, status).1
    ensures var repaired := RepairMessage(view, d, status).0;
            EntryAgrees(repaired, d, status) && ClaimAgrees(repaired, d, status)
  {
    var box := Inbox(view.inboxes, d.to);
    var p := IndexOf(box, d.id);
    if status.dequeued {
      UnderWithout(box, [d.id], d.id);
      LookupIsFirst(Without(box, [d.id]), d.id);
    } else if p == |box| {
      LookupAbsent(box, d.id);
      LookupInAppend(box, [d.(ackedAt := status.ackedAt)], d.id);
    } else {
      LookupUpdated(box, d.id, status.ackedAt);
    }
  }

  /** Repairing the messages of a record, whose ids differ, leaves the view alone
      exactly when none of them moves anything where it stands. */
  lemma {:induction false} LoopMovesExactly(view: View, messages: seq<Message>, after: nat, log: seq<Record>)
    requires NoEmptyMailbox(view.inboxes) && DistinctIds(messages)
    ensures Repair(view, messages, after, log).0 == view <==> MovesNothing(view, messages, after, log)
    decreases |messages|
  {
    if messages != [] {
      var d, status := messages[0], StatusAfter(messages[0], log, after);
      var (view', ok) := RepairMessage(view, d, status);
      RepairMovesExactly(view, d, status);
      RestDistinct(messages);
      if ok {
        if view' == view {
          LoopMovesExactly(view, messages[1..], after, log);
        } else {
          RepairShows(view, d, status);
          LoopKeepsOthers(view', messages[1..], after, log, d.id);
        }
      }
    }
  }

  ghost predicate AllAgree(view: View, messages: seq<Message>, after: nat, log: seq<Record>) {
    forall m :: m in messages ==>
                  ClaimAgrees(view, m, StatusAfter(m, log, after)) && EntryAgrees(view, m, StatusAfter(m, log, after))
  }

  /** And it is the identity with a good answer exactly when they all agree. */
  lemma {:induction false} LoopIsIdentityExactly(view: View, messages: seq<Message>, after: nat, log: seq<Record>)
    requires NoEmptyMailbox(view.inboxes) && DistinctIds(messages)
    ensures Repair(view, messages, after, log) == (view, true) <==> AllAgree(view, messages, after, log)
    decreases |messages|
  {
    if messages != [] {
      var d, status := messages[0], StatusAfter(messages[0], log, after);
      LoopMovesExactly(view, messages, after, log);
      RepairMovesExactly(view, d, status);
      RestDistinct(messages);
      LoopIsIdentityExactly(view, messages[1..], after, log);
      assert messages == [d] + messages[1..];
      assert AllAgree(view, messages, after, log) <==>
             ClaimAgrees(view, d, status) && EntryAgrees(view, d, status) && AllAgree(view, messages[1..], after, log);
    }
  }

  // ----- lost deliveries ------------------------------------------------------------------------

  lemma {:induction false} WithoutAppend(s: seq<Message>, t: seq<Message>, ids: seq<string>)
    ensures Without(s + t, ids) == Without(s, ids) + Without(t, ids)
  {
    if t == [] {
      assert s + t == s;
    } else {
      WithoutAppend(s, Init(t), ids);
      assert Init(s + t) == s + Init(t);
    }
  }

  lemma {:induction false} WithoutOneFirst(s: seq<Message>, id: string, ids: seq<string>)
    requires id in ids
    ensures Without(Without(s, [id]), ids) == Without(s, ids)
  {
    if s != [] {
      WithoutOneFirst(Init(s), id, ids);
      if Last(s).id != id {
        InitOfAppend(Without(Init(s), [id]), Last(s));
      } else {
        assert Without(s, [id]) == Without(Init(s), [id]);
      }
    }
  }

  lemma {:induction false} WithoutIgnores(s: seq<Message>, k: nat, m: Message, ids: seq<string>)
    requires k < |s| && s[k].id == m.id && m.id in ids
    ensures Without(s[k := m], ids) == Without(s, ids)
  {
    var s' := s[k := m];
    if k < |s| - 1 {
      assert Init(s') == Init(s)[k := m];
      WithoutIgnores(Init(s), k, m, ids);
    } else {
      assert Init(s') == Init(s);
    }
  }

  lemma RepairKeepsRest(view: View, d: Message, status: Status, ids: seq<string>, agent: AgentId)
    requires d.id in ids
    ensures Without(Inbox(RepairMessage(view, d, status).0.inboxes, agent), ids) == Without(Inbox(view.inboxes, agent), ids)
  {
    RepairedInbox(view, d, status, agent);
    BoxKeepsRest(Inbox(view.inboxes, agent), d, status, ids);
  }

  lemma BoxKeepsRest(box: seq<Message>, d: Message, status: Status, ids: seq<string>)
    requires d.id in ids
    ensures Without(RepairedBox(box, d, status), ids) == Without(box, ids)
  {
    var p := IndexOf(box, d.id);
    var pushed := d.(ackedAt := status.ackedAt);
    if status.dequeued {
      WithoutOneFirst(box, d.id, ids);
    } else if p == |box| {
      WithoutAppend(box, [pushed], ids);
      assert Without([pushed], ids) == [] by { assert Init([pushed]) == []; }
    } else {
      WithoutIgnores(box, p, box[p].(ackedAt := status.ackedAt), ids);
    }
  }

  /** Everything but the messages under these ids stays where it is. */
  lemma {:induction false} LoopKeepsRest(view: View, messages: seq<Message>, after: nat, log: seq<Record>,
                                         ids: seq<string>, agent: AgentId)
    requires forall m :: m in messages ==> m.id in ids
    ensures Without(Inbox(Repair(view, messages, after, log).0.inboxes, agent), ids) ==
            Without(Inbox(view.inboxes, agent), ids)
    decreases |messages|
  {
    if messages != [] {
      var d, status := messages[0], StatusAfter(messages[0], log, after);
      assert d in messages && forall m :: m in messages[1..] ==> m in messages;
      RepairKeepsRest(view, d, status, ids, agent);
      LoopKeepsRest(RepairMessage(view, d, status).0, messages[1..], after, log, ids, agent);
    }
  }

  ghost predicate NoConflict(view: View, messages: seq<Message>, after: nat, log: seq<Record>) {
    forall m :: m in messages ==> !Conflicts(view, m, StatusAfter(m, log, after))
  }

  lemma SameAtSame(x: View, y: View, d: Message, status: Status)
    requires SameAt(x, y, d.id)
    ensures Conflicts(x, d, status) <==> Conflicts(y, d, status)
    ensures EntryAgrees(x, d, status) <==> EntryAgrees(y, d, status)
    ensures ClaimAgrees(x, d, status) <==> ClaimAgrees(y, d, status)
  {
    assert Under(Inbox(x.inboxes, d.to), d.id) == Under(Inbox(y.inboxes, d.to), d.id);
    LookupIsFirst(Inbox(x.inboxes, d.to), d.id);
    LookupIsFirst(Inbox(y.inboxes, d.to), d.id);
  }

  lemma ConflictsStay(view: View, messages: seq<Message>, after: nat, log: seq<Record>)
    requires messages != [] && DistinctIds(messages)
    ensures var view' := RepairMessage(view, messages[0], StatusAfter(messages[0], log, after)).0;
            NoConflict(view', messages[1..], after, log) <==> NoConflict(view, messages[1..], after, log)
  {
    var d, status := messages[0], StatusAfter(messages[0], log, after);
    RestDistinct(messages);
    forall m | m in messages[1..]
      ensures Conflicts(RepairMessage(view, d, status).0, m, StatusAfter(m, log, after)) <==>
              Conflicts(view, m, StatusAfter(m, log, after))
    {
      RepairKeepsOthers(view, d, status, m.id);
      SameAtSame(RepairMessage(view, d, status).0, view, m, StatusAfter(m, log, after));
    }
  }

  /** The loop answers well exactly when no message conflicts, and then leaves every one
      of them with the entry and the claim its later records dictate. */
  lemma {:induction false} LoopEstablishes(view: View, messages: seq<Message>, after: nat, log: seq<Record>)
    requires DistinctIds(messages)
    ensures var (repaired, ok) := Repair(view, messages, after, log);
            && (ok <==> NoConflict(view, messages, after, log))
            && (ok ==> AllAgree(repaired, messages, after, log))
    decreases |messages|
  {
    if messages != [] {
      var d, status := messages[0], StatusAfter(messages[0], log, after);
      var view' := RepairMessage(view, d, status).0;
      RestDistinct(messages);
      assert messages == [d] + messages[1..];
      assert NoConflict(view, messages, after, log) <==>
             !Conflicts(view, d, status) && NoConflict(view, messages[1..], after, log);
      ConflictsStay(view, messages, after, log);
      if !Conflicts(view, d, status) {
        LoopEstablishes(view', messages[1..], after, log);
        RepairedEntry(view, d, status);
        LoopKeepsOthers(view', messages[1..], after, log, d.id);
        SameAtSame(Repair(view', messages[1..], after, log).0, view', d, status);
      }
    }
  }

  /** Repairing the messages of a record on any mailboxes answers well exactly when no
      recipient holds another message under one of their ids, and then gives each the
      entry and the claim a full restore gives it; nothing else moves. */
  lemma RepairAgreesWithRestore(run: RunId, log: seq<Record>, view: View, i: nat)
    requires WellFormed(run, log) && i < |log|
    ensures var messages, restored := Carried(log[i].payload), RestoreLog(log);
            var (repaired, ok) := Repair(view, messages, log[i].number, log);
            && (ok <==> NoConflict(view, messages, log[i].number, log))
            && (ok ==> forall m :: m in messages ==>
                         && Lookup(Inbox(repaired.inboxes, m.to), m.id) == Lookup(Inbox(restored.inboxes, m.to), m.id)
                         && (m.id in restored.claims ==> ClaimOf(repaired.claims, m.id) == ClaimOf(restored.claims, m.id)))
            && (forall id :: id !in Ids(messages) ==> ClaimOf(repaired.claims, id) == ClaimOf(view.claims, id))
            && (forall a :: Without(Inbox(repaired.inboxes, a), Ids(messages)) ==
                            Without(Inbox(view.inboxes, a), Ids(messages)))
  {
    var messages := Carried(log[i].payload);
    WellFormedAt(run, log, i);
    CarriedDistinct(run, log[..i], log[i].payload);
    LoopEstablishes(view, messages, log[i].number, log);
    forall m | m in messages
      ensures m.id in Ids(messages) && Tracks(RestoreLog(log), m, StatusAfter(m, log, log[i].number))
    {
      var k :| 0 <= k < |messages| && messages[k] == m;
      assert Ids(messages)[k] == m.id;
      StatusDecidesEntry(run, log, i, k);
    }
    LoopTouchesOnly(view, messages, log[i].number, log);
  }

  lemma LoopTouchesOnly(view: View, messages: seq<Message>, after: nat, log: seq<Record>)
    ensures var repaired := Repair(view, messages, after, log).0;
            && (forall id :: id !in Ids(messages) ==> ClaimOf(repaired.claims, id) == ClaimOf(view.claims, id))
            && (forall a :: Without(Inbox(repaired.inboxes, a), Ids(messages)) ==
                            Without(Inbox(view.inboxes, a), Ids(messages)))
  {
    var repaired := Repair(view, messages, after, log).0;
    forall m | m in messages ensures m.id in Ids(messages) {
      var k :| 0 <= k < |messages| && messages[k] == m;
      assert Ids(messages)[k] == m.id;
    }
    forall id | id !in Ids(messages) ensures ClaimOf(repaired.claims, id) == ClaimOf(view.claims, id) {
      LoopKeepsOthers(view, messages, after, log, id);
    }
    forall a ensures Without(Inbox(repaired.inboxes, a), Ids(messages)) == Without(Inbox(view.inboxes, a), Ids(messages)) {
      LoopKeepsRest(view, messages, after, log, Ids(messages), a);
    }
  }

  lemma {:induction false} RepairNeverDoubles(s: seq<Message>, k: nat, m: Message)
    requires k < |s| && s[k].id == m.id
    ensures |Under(s[k := m], m.id)| == |Under(s, m.id)|
  {
    var s' := s[k := m];
    if k < |s| - 1 {
      assert Init(s') == Init(s)[k := m];
      RepairNeverDoubles(Init(s), k, m);
    } else {
      assert Init(s') == Init(s);
    }
  }

  ghost predicate AtMostOne(view: View, id: string) {
    forall a :: |Under(Inbox(view.inboxes, a), id)| <= 1
  }

  lemma RepairKeepsSingle(view: View, d: Message, status: Status)
    requires AtMostOne(view, d.id)
    ensures AtMostOne(RepairMessage(view, d, status).0, d.id)
  {
    forall a ensures |Under(Inbox(RepairMessage(view, d, status).0.inboxes, a), d.id)| <= 1 {
      assert |Under(Inbox(view.inboxes, a), d.id)| <= 1;
      RepairedInbox(view, d, status, a);
      BoxKeepsSingle(Inbox(view.inboxes, a), d, status);
    }
  }

  lemma BoxKeepsSingle(box: seq<Message>, d: Message, status: Status)
    requires |Under(box, d.id)| <= 1
    ensures |Under(RepairedBox(box, d, status), d.id)| <= 1
  {
    var p := IndexOf(box, d.id);
    var pushed := d.(ackedAt := status.ackedAt);
    LookupIsFirst(box, d.id);
    if status.dequeued {
      UnderWithout(box, [d.id], d.id);
    } else if p == |box| {
      UnderAppend(box, [pushed], d.id);
      assert |Under([pushed], d.id)| <= 1 by { assert Init([pushed]) == []; }
    } else {
      RepairNeverDoubles(box, p, box[p].(ackedAt := status.ackedAt));
    }
  }

  lemma {:induction false} LoopKeepsSingle(view: View, messages: seq<Message>, after: nat, log: seq<Record>, id: string)
    requires AtMostOne(view, id)
    ensures AtMostOne(Repair(view, messages, after, log).0, id)
    decreases |messages|
  {
    if messages != [] {
      var d, status := messages[0], StatusAfter(messages[0], log, after);
      var view' := RepairMessage(view, d, status).0;
      if d.id == id {
        RepairKeepsSingle(view, d, status);
      } else {
        RepairKeepsOthers(view, d, status, id);
        forall a ensures |Under(Inbox(view'.inboxes, a), id)| <= 1 {
          assert Under(Inbox(view'.inboxes, a), id) == Under(Inbox(view.inboxes, a), id);
          assert |Under(Inbox(view.inboxes, a), id)| <= 1;
        }
      }
      LoopKeepsSingle(view', messages[1..], after, log, id);
    }
  }

  lemma {:induction false} LoopElsewhere(view: View, messages: seq<Message>, after: nat, log: seq<Record>, id: string,
                                         agent: AgentId)
    requires forall m :: m in messages && m.id == id ==> m.to != agent
    ensures Under(Inbox(Repair(view, messages, after, log).0.inboxes, agent), id) == Under(Inbox(view.inboxes, agent), id)
    decreases |messages|
  {
    if messages != [] {
      var d, status := messages[0], StatusAfter(messages[0], log, after);
      assert d in messages && forall m :: m in messages[1..] ==> m in messages;
      if d.id == id {
        RepairedInbox(view, d, status, agent);
      } else {
        RepairKeepsOthers(view, d, status, id);
      }
      LoopElsewhere(RepairMessage(view, d, status).0, messages[1..], after, log, id, agent);
    }
  }

  lemma {:induction false} LoopAddsNoClaim(view: View, messages: seq<Message>, after: nat, log: seq<Record>, id: string)
    requires forall m :: m in messages && m.id == id ==> StatusAfter(m, log, after).claim.None?
    ensures ClaimOf(Repair(view, messages, after, log).0.claims, id) == ClaimOf(view.claims, id)
    decreases |messages|
  {
    if messages != [] {
      var d, status := messages[0], StatusAfter(messages[0], log, after);
      assert d in messages && forall m :: m in messages[1..] ==> m in messages;
      RepairIsLocal(view, d, status);
      LoopAddsNoClaim(RepairMessage(view, d, status).0, messages[1..], after, log, id);
    }
  }

  /** The view is the restored one with any mailbox entries and any claims missing. */
  ghost predicate Lossy(view: View, restored: View) {
    && (forall a, id :: Under(Inbox(view.inboxes, a), id) in [[], Under(Inbox(restored.inboxes, a), id)])
    && (forall id :: ClaimOf(view.claims, id) in [None, ClaimOf(restored.claims, id)])
  }

  lemma {:induction false} DistinctUnder(s: seq<Message>, id: string)
    requires DistinctIds(s)
    ensures |Under(s, id)| <= 1
  {
    if s != [] {
      DistinctUnder(Init(s), id);
      LookupIsFirst(Init(s), id);
      LookupAbsent(Init(s), id);
      assert Last(s).id == id ==> Absent(Init(s), id);
    }
  }

  lemma RestoredUnder(run: RunId, log: seq<Record>, i: int, k: int, agent: AgentId)
    requires WellFormed(run, log) && CarriedAt(log, i, k)
    ensures var d := CarriedMessage(log, i, k);
            var under := Under(Inbox(RestoreLog(log).inboxes, agent), d.id);
            |under| <= 1 && (agent != d.to ==> under == [])
  {
    var d, box := CarriedMessage(log, i, k), Inbox(RestoreLog(log).inboxes, agent);
    RestoredIsSound(run, log);
    DistinctUnder(box, d.id);
    LookupIsFirst(box, d.id);
    LookupAbsent(box, d.id);
    if !Absent(box, d.id) {
      var m :| m in box && m.id == d.id;
      SameAgent(run, log, i, k, agent, m);
    }
  }

  lemma LossyHasNoConflict(run: RunId, log: seq<Record>, view: View, i: int, k: int)
    requires WellFormed(run, log) && CarriedAt(log, i, k) && Lossy(view, RestoreLog(log))
    ensures var d := CarriedMessage(log, i, k);
            !Conflicts(view, d, StatusAfter(d, log, log[i].number)) && AtMostOne(view, d.id)
  {
    var d, restored := CarriedMessage(log, i, k), RestoreLog(log);
    StatusDecidesEntry(run, log, i, k);
    assert Under(Inbox(view.inboxes, d.to), d.id) in [[], Under(Inbox(restored.inboxes, d.to), d.id)];
    LookupIsFirst(Inbox(view.inboxes, d.to), d.id);
    LookupIsFirst(Inbox(restored.inboxes, d.to), d.id);
    forall a ensures |Under(Inbox(view.inboxes, a), d.id)| <= 1 {
      RestoredUnder(run, log, i, k, a);
      assert Under(Inbox(view.inboxes, a), d.id) in [[], Under(Inbox(restored.inboxes, a), d.id)];
    }
  }

  /** Whatever was lost, a repair of the messages of a record brings each of them back
      as restored and touches nothing else. */
  ghost predicate BroughtBack(view: View, messages: seq<Message>, repaired: View, restored: View) {
    && (forall m :: m in messages ==> SameAt(repaired, restored, m.id))
    && (forall id :: id !in Ids(messages) ==> ClaimOf(repaired.claims, id) == ClaimOf(view.claims, id))
    && (forall a :: Without(Inbox(repaired.inboxes, a), Ids(messages)) == Without(Inbox(view.inboxes, a), Ids(messages)))
  }

  lemma CarriedOnce(run: RunId, log: seq<Record>, i: nat, k: nat, m: Message)
    requires WellFormed(run, log) && CarriedAt(log, i, k) && m in Carried(log[i].payload)
    requires m.id == CarriedMessage(log, i, k).id
    ensures m == CarriedMessage(log, i, k)
  {
    var l :| 0 <= l < |Carried(log[i].payload)| && Carried(log[i].payload)[l] == m;
    assert CarriedMessage(log, i, l) == m;
    UniqueDelivery(run, log, i, k, i, l);
  }

  lemma MessageComesBack(run: RunId, log: seq<Record>, view: View, i: nat, k: nat)
    requires WellFormed(run, log) && CarriedAt(log, i, k) && Lossy(view, RestoreLog(log))
    requires var repair := Repair(view, Carried(log[i].payload), log[i].number, log);
             repair.1 && AllAgree(repair.0, Carried(log[i].payload), log[i].number, log)
    ensures SameAt(Repair(view, Carried(log[i].payload), log[i].number, log).0, RestoreLog(log), CarriedMessage(log, i, k).id)
  {
    var messages, d, restored := Carried(log[i].payload), CarriedMessage(log, i, k), RestoreLog(log);
    var repaired := Repair(view, messages, log[i].number, log).0;
    LossyHasNoConflict(run, log, view, i, k);
    LoopKeepsSingle(view, messages, log[i].number, log, d.id);
    StatusDecidesEntry(run, log, i, k);
    assert d in messages;
    forall m | m in messages && m.id == d.id ensures m == d {
      CarriedOnce(run, log, i, k, m);
    }
    forall a ensures Under(Inbox(repaired.inboxes, a), d.id) == Under(Inbox(restored.inboxes, a), d.id) {
      RestoredUnder(run, log, i, k, a);
      assert |Under(Inbox(repaired.inboxes, a), d.id)| <= 1;
      if a == d.to {
        LookupIsFirst(Inbox(repaired.inboxes, a), d.id);
        LookupIsFirst(Inbox(restored.inboxes, a), d.id);
      } else {
        LoopElsewhere(view, messages, log[i].number, log, d.id, a);
        assert Under(Inbox(view.inboxes, a), d.id) in [[], Under(Inbox(restored.inboxes, a), d.id)];
      }
    }
    if StatusAfter(d, log, log[i].number).claim.None? {
      LoopAddsNoClaim(view, messages, log[i].number, log, d.id);
      assert ClaimOf(view.claims, d.id) in [None, ClaimOf(restored.claims, d.id)];
    }
  }

  lemma RecordComesBack(run: RunId, log: seq<Record>, view: View, i: nat)
    requires WellFormed(run, log) && i < |log| && Lossy(view, RestoreLog(log))
    ensures var messages := Carried(log[i].payload);
            var (repaired, ok) := Repair(view, messages, log[i].number, log);
            ok && BroughtBack(view, messages, repaired, RestoreLog(log))
  {
    var messages := Carried(log[i].payload);
    var repaired := Repair(view, messages, log[i].number, log).0;
    WellFormedAt(run, log, i);
    CarriedDistinct(run, log[..i], log[i].payload);
    forall m | m in messages ensures !Conflicts(view, m, StatusAfter(m, log, log[i].number)) {
      var k :| 0 <= k < |messages| && messages[k] == m;
      LossyHasNoConflict(run, log, view, i, k);
    }
    LoopEstablishes(view, messages, log[i].number, log);
    forall m | m in messages ensures SameAt(repaired, RestoreLog(log), m.id) {
      var k :| 0 <= k < |messages| && messages[k] == m;
      MessageComesBack(run, log, view, i, k);
    }
    LoopTouchesOnly(view, messages, log[i].number, log);
  }

  /** A repeated send on a bus that lost deliveries answers with the original message,
      appends nothing and brings that message back. */
  lemma RepeatedSendBringsBack(bus: Bus, context: Context, request: SendRequest, k: nat)
    requires WellFormed(bus.run, bus.log) && Lossy(bus.view, RestoreLog(bus.log))
    requires k < |bus.log| && bus.log[k].payload.Delivered? && bus.log[k].payload.message.id == request.id
    requires SameRequest(bus.run, bus.log[k].payload, request)
    ensures var (after, answer) := Send(bus, context, request);
            && answer == Ok(Sent(bus.log[k].payload.message, false)) && after == bus.(view := after.view)
            && BroughtBack(bus.view, [bus.log[k].payload.message], after.view, RestoreLog(bus.log))
  {
    var found := Find(bus.log, DeliveryOf(request.id));
    assert Answers(bus.log[k].payload, DeliveryOf(request.id));
    assert CarriedMessage(bus.log, found, 0).id == CarriedMessage(bus.log, k, 0).id;
    UniqueDelivery(bus.run, bus.log, found, 0, k, 0);
    RecordComesBack(bus.run, bus.log, bus.view, k);
  }

  /** The same for a broadcast: every lost copy comes back at once. */
  lemma RepeatedBroadcastBringsBack(bus: Bus, context: Context, request: BroadcastRequest,
                                    recipients: Option<seq<AgentId>>, k: nat)
    requires WellFormed(bus.run, bus.log) && Lossy(bus.view, RestoreLog(bus.log))
    requires k < |bus.log| && bus.log[k].payload.Broadcast? && bus.log[k].payload.broadcastId == request.id
    requires SameBroadcast(bus.run, bus.log[k].payload, request, recipients)
    ensures var (after, answer) := ReplayBroadcast(bus, request, recipients);
            && answer == Some(Ok(Broadcasted(bus.log[k].payload.messages, false))) && after == bus.(view := after.view)
            && BroughtBack(bus.view, bus.log[k].payload.messages, after.view, RestoreLog(bus.log))
            && (recipients == Some(request.recipients) ==> BroadcastAll(bus, context, request) == (after, answer.value))
  {
    var found := Find(bus.log, BroadcastOf(request.id));
    assert Answers(bus.log[k].payload, BroadcastOf(request.id));
    UniqueBroadcast(bus.run, bus.log, found, k);
    RecordComesBack(bus.run, bus.log, bus.view, k);
  }
}
