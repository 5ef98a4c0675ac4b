/** Runs in which a direct message takes the id of a broadcast copy, and what goes
    wrong in them. */
module BusExamples {
  import opened Prelude
  import opened BusState
  import opened BusLog
  import opened BusTheorems
  import opened BusRuns
  import opened BusRepair
  import opened BusConservation
  import opened BusCollisions
  import opened BusLoad

  const TEAM := Team("r", 1, 64, {"x"})
  const CONTEXT := Context(Registry(map["x" := "r"], map["t" := TEAM]), 5, true)

  /** The id of the first copy of broadcast `b`. */
  const ID := BroadcastMessageId("b", 0)

  const SEND := SendRequest(ID, Some("t"), Some("t"), "x", "x", "k", "")
  const CAST := BroadcastRequest("b", "t", "x", ["x"], "k", "")

  /** Both requests make this message. */
  const COPY := Message(ID, "r", Some("t"), "x", "x", "k", "", 5, None)

  function On(operation: Operation): Event {
    Event(CONTEXT, operation)
  }

  function With(box: seq<Message>, log: seq<Record>): Bus {
    Bus("r", View(if box == [] then map[] else map["x" := box], map[]), log, |log|)
  }

  const SENT := Record(1, Delivered(COPY, true, Some("t")))
  const DRAINED := Record(2, Dequeued("x", [ID]))
  const ACKED := Record(2, Acknowledged("x", ID, 5))
  const CASTED := Record(3, Broadcast("b", "r", "t", "x", ["x"], "k", "", [COPY]))
  const DONE := COPY.(ackedAt := Some(5))

  lemma CopyIsNew()
    ensures NewMessage("r", SEND, 5) == COPY && NewBroadcastMessages("r", CAST, 5) == [COPY]
    ensures Pending([]) == [] && Pending([COPY]) == [COPY] && Pending([DONE]) == []
  {
    assert Init([COPY]) == [] && Init([DONE]) == [];
    assert NewBroadcastMessage("r", CAST, 5, 0) == COPY;
  }

  lemma AfterSend()
    ensures Step(NewBus("r"), On(OpSend(SEND))) == With([COPY], [SENT])
  {
    CopyIsNew();
    var bus := NewBus("r");
    assert SendError(bus, CONTEXT, SEND).None?;
    assert Inbox(map[], "x") + [COPY] == [COPY];
    assert bus.log + [SENT] == [SENT];
  }

  lemma AfterDrain()
    ensures Step(With([COPY], [SENT]), On(OpDrain("x"))) == With([], [SENT, DRAINED])
  {
    var bus := With([COPY], [SENT]);
    assert Init([COPY]) == [];
    assert OfRun([COPY], "r") == [COPY] && Ids([COPY]) == [ID] && Without([COPY], [ID]) == [];
    assert [SENT] + [DRAINED] == [SENT, DRAINED];
    assert bus.view.inboxes - {"x"} == map[];
  }

  lemma AfterAcknowledge()
    ensures Step(With([COPY], [SENT]), On(OpAcknowledge("x", ID))) == With([DONE], [SENT, ACKED])
  {
    assert [COPY][0 := DONE] == [DONE];
    assert [SENT] + [ACKED] == [SENT, ACKED];
  }

  lemma AfterCast(box: seq<Message>, second: Record)
    requires (box == [] && second == DRAINED) || (box == [DONE] && second == ACKED)
    ensures Step(With(box, [SENT, second]), On(OpBroadcast(CAST))) == With(box + [COPY], [SENT, second, CASTED])
  {
    CopyIsNew();
    var bus := With(box, [SENT, second]);
    assert Find(bus.log, BroadcastOf("b")) == 2 by {
      assert !Answers(bus.log[0].payload, BroadcastOf("b")) && !Answers(bus.log[1].payload, BroadcastOf("b"));
    }
    assert !Overflows(bus.view.inboxes, ["x"], 1) by {
      assert multiset(["x"])["x"] == 1 && |Pending(box)| == 0;
    }
    assert RecipientError(CONTEXT.registry, "r", TEAM, ["x"]).None? by { assert ["x"][1..] == []; }
    assert BroadcastError(bus, CONTEXT, CAST).None?;
    assert Init([COPY]) == [];
    assert DeliverAll(bus.view.inboxes, [COPY]) == Deliver(bus.view.inboxes, COPY);
    assert bus.log + [CASTED] == [SENT, second, CASTED];
  }

  lemma Prefixes<T>(a: T, b: T, c: T, d: T)
    ensures Init([a]) == [] && Init([a, b]) == [a] && Init([a, b, c]) == [a, b] && Init([a, b, c, d]) == [a, b, c]
  {
  }

  lemma RunOf(box: seq<Message>, second: Record, middle: Operation)
    requires (box == [] && second == DRAINED && middle == OpDrain("x")) ||
             (box == [DONE] && second == ACKED && middle == OpAcknowledge("x", ID))
    ensures Run(NewBus("r"), [On(OpSend(SEND)), On(middle), On(OpBroadcast(CAST))]) ==
            With(box + [COPY], [SENT, second, CASTED])
  {
    var one, two, three := On(OpSend(SEND)), On(middle), On(OpBroadcast(CAST));
    Prefixes(one, two, three, three);
    AfterSend();
    AfterDrain();
    AfterAcknowledge();
    AfterCast(box, second);
    assert Run(NewBus("r"), []) == NewBus("r");
    assert Run(NewBus("r"), [one]) == With([COPY], [SENT]);
    assert Run(NewBus("r"), [one, two]) == With(box, [SENT, second]);
  }

  lemma LogSteps(second: Record)
    ensures RestoreLog([SENT]).inboxes == map["x" := [COPY]] && RestoreLog([SENT]).claims == map[]
    ensures RestoreLog([SENT, second, CASTED]) == Restore(Restore(RestoreLog([SENT]), second.payload), CASTED.payload)
  {
    Prefixes(SENT, second, CASTED, CASTED);
    assert Init([SENT]) == [] && RestoreLog([]) == EmptyView;
    assert Inbox(map[], "x") + [COPY] == [COPY];
    assert Init([SENT, second, CASTED]) == [SENT, second] && Init([SENT, second]) == [SENT];
  }

  lemma RestoreOne(inboxes: Inboxes)
    ensures RestoreMessages(inboxes, [COPY]) == RestoreMessage(inboxes, COPY)
  {
    assert Init([COPY]) == [];
  }

  lemma RestoredAfterDrain()
    ensures RestoreLog([SENT, DRAINED, CASTED]) == View(map["x" := [COPY]], map[])
  {
    LogSteps(DRAINED);
    assert Without([COPY], [ID]) == [] by { assert Init([COPY]) == []; }
    assert map["x" := [COPY]] - {"x"} == map[];
    RestoreOne(map[]);
    assert Inbox(map[], "x") + [COPY] == [COPY];
  }

  lemma RestoredAfterAcknowledge()
    ensures RestoreLog([SENT, ACKED, CASTED]) == View(map["x" := [DONE]], map[])
  {
    LogSteps(ACKED);
    assert [COPY][0 := DONE] == [DONE];
    RestoreOne(map["x" := [DONE]]);
    assert Ids([DONE])[0] == ID;
  }

  lemma Statuses(second: Record)
    requires second == DRAINED || second == ACKED
    ensures StatusAfter(COPY, [SENT, second, CASTED], 1).dequeued == (second == DRAINED)
    ensures StatusAfter(COPY, [SENT, second, CASTED], 1).claim.None?
    ensures StatusAfter(COPY, [SENT, second, CASTED], 3) == Status(None, None, false)
  {
    Prefixes(SENT, second, CASTED, CASTED);
    assert Init([SENT]) == [] && Init([SENT, second, CASTED]) == [SENT, second] && Init([SENT, second]) == [SENT];
    assert StatusAfter(COPY, [SENT], 1) == Status(None, None, false);
    assert StatusAfter(COPY, [SENT], 3) == Status(None, None, false);
    assert StatusAfter(COPY, [SENT, second], 1).dequeued == (second == DRAINED);
    assert StatusAfter(COPY, [SENT, second], 3) == Status(None, None, false);
  }

  /** A direct message and a later broadcast copy under one id: the copy is delivered
      live and not restored. */
  lemma CollisionBreaksRebuild()
    ensures !InStep(Run(NewBus("r"), [On(OpSend(SEND)), On(OpAcknowledge("x", ID)), On(OpBroadcast(CAST))]))
  {
    RunOf([DONE], ACKED, OpAcknowledge("x", ID));
    RestoredAfterAcknowledge();
    assert |[DONE] + [COPY]| == 2;
  }

  lemma SendRepeated(log: seq<Record>)
    requires log == [SENT, DRAINED, CASTED]
    ensures ReplaySend(With([COPY], log), SEND) == (With([], log), Some(Ok(Sent(COPY, false))))
  {
    var view := With([COPY], log).view;
    var status := StatusAfter(COPY, log, 1);
    Statuses(DRAINED);
    assert Find(log, DeliveryOf(ID)) == 0;
    assert Without([COPY], [ID]) == [] by { assert Init([COPY]) == []; }
    assert map["x" := [COPY]] - {"x"} == map[];
    assert RepairMessage(view, COPY, status) == (View(map[], map[]), true);
    assert [COPY][1..] == [];
    assert Repair(view, [COPY], 1, log) == (View(map[], map[]), true);
  }

  /** After a direct message was drained, a copy under its id is live and restored; the
      repeated direct send is answered well, appends nothing and deletes the copy. */
  lemma RepeatDeletesCopy()
    ensures var bus := Run(NewBus("r"), [On(OpSend(SEND)), On(OpDrain("x")), On(OpBroadcast(CAST))]);
            var (after, answer) := Send(bus, CONTEXT, SEND);
            && InStep(bus) && Inbox(bus.view.inboxes, "x") == [COPY]
            && answer == Ok(Sent(COPY, false)) && after.log == bus.log
            && Inbox(after.view.inboxes, "x") == [] && !InStep(after)
  {
    var log := [SENT, DRAINED, CASTED];
    RunOf([], DRAINED, OpDrain("x"));
    assert [] + [COPY] == [COPY];
    RestoredAfterDrain();
    SendRepeated(log);
  }

  lemma FindCast(log: seq<Record>, second: Record)
    requires log == [SENT, second, CASTED] && (second == DRAINED || second == ACKED)
    ensures Find(log, BroadcastOf("b")) == 2
  {
    assert Answers(log[2].payload, BroadcastOf("b"));
    assert !Answers(log[0].payload, BroadcastOf("b")) && !Answers(log[1].payload, BroadcastOf("b"));
  }

  lemma Reopened(box: seq<Message>)
    requires box == [DONE, COPY]
    ensures IndexOf(box, ID) == 0 && box[0] == DONE && box[0 := COPY] == [COPY, COPY]
  {
    assert box[0] == DONE && box[1] == COPY;
  }

  lemma CastRepeated(log: seq<Record>)
    requires log == [SENT, ACKED, CASTED]
    ensures ReplayBroadcast(With([DONE, COPY], log), CAST, Some(["x"])).0 == With([COPY, COPY], log)
    ensures ReplayBroadcast(With([DONE, COPY], log), CAST, Some(["x"])).1.Some?
  {
    var view := With([DONE, COPY], log).view;
    FindCast(log, ACKED);
    Statuses(ACKED);
    Reopened([DONE, COPY]);
    assert RepairMessage(view, COPY, Status(None, None, false)).0.inboxes == map["x" := [COPY, COPY]];
    assert [COPY][1..] == [];
    assert Repair(view, [COPY], 3, log) == (View(map["x" := [COPY, COPY]], map[]), true);
  }

  lemma Counts()
    ensures |Pending([DONE, COPY])| == 1 && |Pending([COPY, COPY])| == 2
  {
    CopyIsNew();
    assert Init([DONE, COPY]) == [DONE] && Init([COPY, COPY]) == [COPY];
  }

  /** After a direct message was acknowledged and a copy of the same content delivered
      under its id, repeating the broadcast reopens the first: two unacknowledged
      messages under a limit of one. */
  lemma RepeatReopens()
    ensures var bus := Run(NewBus("r"), [On(OpSend(SEND)), On(OpAcknowledge("x", ID)), On(OpBroadcast(CAST))]);
            var after := Step(bus, On(OpBroadcast(CAST)));
            && LimitsWithin(On(OpSend(SEND)), 1) && LimitsWithin(On(OpBroadcast(CAST)), 1)
            && Bounded(bus.view.inboxes, 1) && PendingCount(after.view.inboxes, "x") == 2
  {
    RunOf([DONE], ACKED, OpAcknowledge("x", ID));
    assert [DONE] + [COPY] == [DONE, COPY];
    CastReopens([SENT, ACKED, CASTED]);
  }

  lemma CastReopens(log: seq<Record>)
    requires log == [SENT, ACKED, CASTED]
    ensures Bounded(With([DONE, COPY], log).view.inboxes, 1)
    ensures PendingCount(Step(With([DONE, COPY], log), On(OpBroadcast(CAST))).view.inboxes, "x") == 2
  {
    CastRepeated(log);
    Counts();
    assert Pending([]) == [];
  }
}
