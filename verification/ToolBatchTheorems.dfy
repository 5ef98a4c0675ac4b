/** What every round of tool calls keeps: one result per call, at most one execution
    per call, results in call order and no start after an unknown outcome, the last
    two exactly when two guards of the loop let nothing through. */
module ToolBatchTheorems {
  import opened Prelude
  import opened ToolBatch

  // ----- one result for every call, at most one execution --------------------------------

  ghost predicate DistinctSlots(slots: seq<Slot>) {
    forall i, j :: 0 <= i < j < |slots| ==> slots[i].position != slots[j].position
  }

  ghost predicate Labelled(s: Slot, calls: seq<Call>) {
    s.position < |calls| && calls[s.position].ToolUse? && s.entry.id == calls[s.position].id
  }

  ghost predicate HasSlot(slots: seq<Slot>, position: nat) {
    exists s :: s in slots && s.position == position
  }

  /** Each tool use is recorded or waiting, once and under its own id, and nothing else is. */
  ghost predicate Faithful(taken: seq<Slot>, calls: seq<Call>, complete: bool) {
    && DistinctSlots(taken)
    && (forall s :: s in taken ==> Labelled(s, calls))
    && (complete ==> forall p: nat :: p < |calls| && calls[p].ToolUse? ==> HasSlot(taken, p))
  }

  /** No call starts twice, and a started call is a recorded one. */
  ghost predicate StartedOnce(log: seq<Event>) {
    Distinct(Starts(log)) && forall p :: p in Starts(log) ==> HasSlot(Records(log), p)
  }

  ghost predicate Sound(b: Batch, calls: seq<Call>) {
    Faithful(Taken(b), calls, !b.quit) && StartedOnce(b.log)
  }

  lemma DecidedEntry(b: Batch, call: Call)
    ensures Decide(b, call).Ignore? <==> call.Other?
    ensures Decide(b, call).Answer? ==> Decide(b, call).entry.id == call.id
  {
  }

  /** The slot an action adds. */
  function Fresh(position: nat, call: Call, action: Action): Slot
    requires call.ToolUse?
  {
    match action
    case Skip(_) => Slot(position, Refusal(call, Aborted))
    case Answer(entry, _) => Slot(position, entry)
    case _ => Slot(position, Ran(call))
  }

  predicate Adds(action: Action) {
    !action.Ignore? && !action.Leave?
  }

  /** The one action that records a call in front of those that wait. */
  predicate Overtaking(action: Action) {
    action.Skip? && !action.flush
  }

  /** An action leaves the taken calls alone or adds one at the end, except that a call
      skipped while others wait is recorded before them. */
  lemma ApplyTaken(b: Batch, position: nat, call: Call, action: Action)
    requires action.Ignore? || call.ToolUse?
    ensures !Adds(action) ==> Taken(Apply(b, position, call, action)) == Taken(b)
    ensures Overtaking(action) ==>
              Taken(Apply(b, position, call, action)) == Records(b.log) + [Fresh(position, call, action)] + b.pending
    ensures Adds(action) && !Overtaking(action) ==>
              Taken(Apply(b, position, call, action)) == Taken(b) + [Fresh(position, call, action)]
  {
    match action
    case Ignore =>
    case Skip(flush) => SkipTaken(b, position, call, flush);
    case Answer(entry, stops) => AnswerTaken(b, position, call, entry, stops);
    case Queue(flush) => QueueTaken(b, position, call, flush);
    case Go => GoTaken(b, position, call);
    case Leave => FlushMoves(b);
  }

  lemma SkipTaken(b: Batch, position: nat, call: Call, flush: bool)
    requires call.ToolUse?
    ensures var s := Slot(position, Refusal(call, Aborted));
            Taken(Apply(b, position, call, Skip(flush))) ==
            if flush then Taken(b) + [s] else Records(b.log) + [s] + b.pending
  {
    FlushMoves(b);
    PushMoves(if flush then Flush(b) else b, position, Refusal(call, Aborted), false);
  }

  lemma AnswerTaken(b: Batch, position: nat, call: Call, entry: Entry, stops: bool)
    requires call.ToolUse?
    ensures Taken(Apply(b, position, call, Answer(entry, stops))) == Taken(b) + [Slot(position, entry)]
  {
    FlushMoves(b);
    PushMoves(Flush(b), position, entry, stops);
  }

  lemma GoTaken(b: Batch, position: nat, call: Call)
    requires call.ToolUse?
    ensures Taken(Apply(b, position, call, Go)) == Taken(b) + [Slot(position, Ran(call))]
  {
    FlushMoves(b);
    PerformMoves(Flush(b), position, Ran(call));
  }

  lemma QueueTaken(b: Batch, position: nat, call: Call, flush: bool)
    requires call.ToolUse?
    ensures Taken(Apply(b, position, call, Queue(flush))) == Taken(b) + [Slot(position, Ran(call))]
  {
    FlushMoves(b);
    assert [] + [Slot(position, Ran(call))] == [Slot(position, Ran(call))];
  }

  lemma PerformMoves(b: Batch, position: nat, entry: Entry)
    ensures Records(Perform(b, position, entry).log) == Records(b.log) + [Slot(position, entry)]
    ensures Starts(Perform(b, position, entry).log) == Starts(b.log) + [position]
  {
    OneMore(b.log, Started(position));
    PushMoves(b.(log := b.log + [Started(position)]), position, entry, entry.status == OutcomeUnknown);
  }

  lemma InsertFaithful(front: seq<Slot>, back: seq<Slot>, calls: seq<Call>, s: Slot)
    requires calls != [] && Faithful(front + back, Init(calls), true)
    requires s.position == |calls| - 1 && Labelled(s, calls)
    ensures Faithful(front + [s] + back, calls, true)
  {
    var taken, more := front + back, front + [s] + back;
    assert forall t :: t in more ==> t == s || t in taken;
    forall t | t in taken ensures Labelled(t, calls) && t.position < s.position {
      assert Labelled(t, Init(calls));
    }
    SlotsApart(front, back, s);
    forall p: nat | p < |calls| && calls[p].ToolUse? ensures HasSlot(more, p) {
      assert p < |calls| - 1 ==> Init(calls)[p].ToolUse? && HasSlot(taken, p);
      if p < |calls| - 1 {
        var t :| t in taken && t.position == p;
        assert t in more;
      } else {
        assert s in more;
      }
    }
  }

  lemma SlotsApart(front: seq<Slot>, back: seq<Slot>, s: Slot)
    requires DistinctSlots(front + back) && forall t :: t in front + back ==> t.position < s.position
    ensures DistinctSlots(front + [s] + back)
  {
    var taken, more := front + back, front + [s] + back;
    forall i, j | 0 <= i < j < |more| ensures more[i].position != more[j].position {
      var x := if i < |front| then i else i - 1;
      var y := if j < |front| then j else j - 1;
      assert i != |front| ==> more[i] == taken[x] && taken[x] in taken;
      assert j != |front| ==> more[j] == taken[y] && taken[y] in taken;
    }
  }

  lemma StaysFaithful(taken: seq<Slot>, calls: seq<Call>, complete: bool)
    requires calls != [] && Faithful(taken, Init(calls), true)
    requires complete ==> Last(calls).Other?
    ensures Faithful(taken, calls, complete)
  {
    forall t | t in taken ensures Labelled(t, calls) {
      assert Labelled(t, Init(calls));
    }
    if complete {
      forall p: nat | p < |calls| && calls[p].ToolUse? ensures HasSlot(taken, p) {
        assert Init(calls)[p].ToolUse?;
      }
    }
  }

  lemma StepFaithful(b: Batch, calls: seq<Call>)
    requires calls != [] && !b.quit && Faithful(Taken(b), Init(calls), true)
    ensures var after := Step(b, |calls| - 1, Last(calls)); Faithful(Taken(after), calls, !after.quit)
  {
    var call, after := Last(calls), Step(b, |calls| - 1, Last(calls));
    DecidedEntry(b, call);
    var action := Decide(b, call);
    ApplyTaken(b, |calls| - 1, call, action);
    if !Adds(action) {
      StaysFaithful(Taken(b), calls, !after.quit);
    } else {
      var s := Fresh(|calls| - 1, call, action);
      InsertFaithful(Records(b.log), b.pending, calls, s);
      assert Taken(b) + [] == Taken(b);
      InsertFaithful(Taken(b), [], calls, s);
      assert Taken(b) + [s] + [] == Taken(b) + [s];
    }
  }

  lemma FlushOnce(b: Batch)
    requires DistinctSlots(Taken(b)) && StartedOnce(b.log)
    ensures StartedOnce(Flush(b).log)
  {
    FlushMoves(b);
    WhereIs(b.pending);
    var before, waiting, all := Starts(b.log), Where(b.pending), Starts(Flush(b).log);
    forall p | p in before ensures HasSlot(Taken(b), p) && p !in waiting {
      var s :| s in Records(b.log) && s.position == p;
      var k :| 0 <= k < |Records(b.log)| && Records(b.log)[k] == s;
      assert Taken(b)[k] == s;
      forall j | 0 <= j < |waiting| ensures waiting[j] != p {
        assert Taken(b)[|Records(b.log)| + j] == b.pending[j];
      }
    }
    forall i, j | 0 <= i < j < |waiting| ensures waiting[i] != waiting[j] {
      assert Taken(b)[|Records(b.log)| + i] == b.pending[i];
      assert Taken(b)[|Records(b.log)| + j] == b.pending[j];
    }
    forall p | p in waiting ensures HasSlot(Taken(b), p) {
      var k :| 0 <= k < |waiting| && waiting[k] == p;
      assert b.pending[k] in Taken(b);
    }
    DistinctConcat(before, waiting);
  }

  lemma DistinctConcat(a: seq<nat>, c: seq<nat>)
    requires Distinct(a) && Distinct(c) && forall x :: x in a ==> x !in c
    ensures Distinct(a + c)
  {
    forall i, j | 0 <= i < j < |a + c| ensures (a + c)[i] != (a + c)[j] {
      assert i < |a| ==> a[i] in a;
      assert j >= |a| ==> c[j - |a|] in c;
    }
  }

  lemma GrowOnce(log: seq<Event>, more: seq<Event>, position: nat)
    requires StartedOnce(log) && !HasSlot(Records(log), position)
    requires Records(log) <= Records(more) && HasSlot(Records(more), position)
    requires Starts(more) == Starts(log) || Starts(more) == Starts(log) + [position]
    ensures StartedOnce(more)
  {
    forall p | p in Starts(log) ensures HasSlot(Records(more), p) && p != position {
      var s :| s in Records(log) && s.position == p;
      assert s in Records(more);
    }
    DistinctConcat(Starts(log), [position]);
  }

  lemma NoSlotYet(b: Batch, calls: seq<Call>)
    requires Faithful(Taken(b), calls, true)
    ensures !HasSlot(Records(b.log), |calls|) && !HasSlot(Taken(b), |calls|)
  {
    assert forall s :: s in Taken(b) ==> Labelled(s, calls);
    assert forall s :: s in Records(b.log) ==> s in Taken(b);
  }

  lemma StepOnce(b: Batch, calls: seq<Call>)
    requires calls != [] && !b.quit && Sound(b, Init(calls))
    ensures StartedOnce(Step(b, |calls| - 1, Last(calls)).log)
  {
    var call, position := Last(calls), |calls| - 1;
    FlushOnce(b);
    FlushMoves(b);
    DecidedEntry(b, call);
    NoSlotYet(b, Init(calls));
    match Decide(b, call)
    case Ignore =>
    case Skip(flush) => PushOnce(if flush then Flush(b) else b, position, Refusal(call, Aborted), false);
    case Answer(entry, stops) => PushOnce(Flush(b), position, entry, stops);
    case Queue(flush) =>
    case Go =>
      PerformMoves(Flush(b), position, Ran(call));
      assert Slot(position, Ran(call)) in Records(Perform(Flush(b), position, Ran(call)).log);
      GrowOnce(Flush(b).log, Perform(Flush(b), position, Ran(call)).log, position);
    case Leave =>
  }

  lemma PushOnce(b: Batch, position: nat, entry: Entry, stops: bool)
    requires StartedOnce(b.log) && !HasSlot(Records(b.log), position)
    ensures StartedOnce(Push(b, position, entry, stops).log)
  {
    PushMoves(b, position, entry, stops);
    assert Slot(position, entry) in Records(Push(b, position, entry, stops).log);
    GrowOnce(b.log, Push(b, position, entry, stops).log, position);
  }

  lemma {:induction false} RunSound(calls: seq<Call>)
    ensures Sound(Run(calls), calls)
  {
    if calls != [] {
      RunSound(Init(calls));
      var b := Run(Init(calls));
      if b.quit {
        forall t | t in Taken(b) ensures Labelled(t, calls) {
          assert Labelled(t, Init(calls));
        }
      } else {
        StepFaithful(b, calls);
        StepOnce(b, calls);
      }
    }
  }

  /** However a round ends, no call starts or is recorded twice; a round that is not
      quit records every tool use, under its id. */
  lemma OneResultPerCall(calls: seq<Call>)
    ensures Round(calls).pending == []
    ensures Faithful(Records(Round(calls).log), calls, !Round(calls).quit)
    ensures StartedOnce(Round(calls).log)
  {
    RunSound(calls);
    var b := Run(calls);
    FlushMoves(b);
    FlushOnce(b);
    if b.quit {
      QuitLeavesNothing(calls);
      assert Records(b.log) == Taken(b);
    }
  }

  lemma {:induction false} QuitLeavesNothing(calls: seq<Call>)
    requires Run(calls).quit
    ensures Run(calls).pending == []
  {
    if !Run(Init(calls)).quit {
      DecidedEntry(Run(Init(calls)), Last(calls));
    } else {
      QuitLeavesNothing(Init(calls));
    }
  }

  lemma {:induction false} QuitStays(calls: seq<Call>, p: nat)
    requires p <= |calls| && Run(calls[..p]).quit
    ensures Run(calls) == Run(calls[..p])
  {
    if p == |calls| {
      assert calls[..p] == calls;
    } else {
      assert Init(calls)[..p] == calls[..p];
      QuitStays(Init(calls), p);
    }
  }

  // ----- results in call order -----------------------------------------------------------

  ghost predicate Increasing(slots: seq<Slot>) {
    forall i, j :: 0 <= i < j < |slots| ==> slots[i].position < slots[j].position
  }

  /** A stopped round that still holds waiting calls skips one more: the skipped call
      is recorded before calls that came first. */
  predicate Overtakes(b: Batch, call: Call) {
    call.ToolUse? && !b.quit && b.stop && b.pending != []
  }

  lemma InsertIncreasing(front: seq<Slot>, back: seq<Slot>, s: Slot)
    requires forall t :: t in front + back ==> t.position < s.position
    ensures Increasing(front + [s] + back) <==> Increasing(front + back) && back == []
  {
    var taken, more := front + back, front + [s] + back;
    if back == [] {
      assert taken == front && more == front + [s];
      assert forall i :: 0 <= i < |front| ==> more[i] == front[i] && front[i] in taken;
    } else {
      assert back[0] in taken && more[|front|] == s && more[|front| + 1] == back[0];
    }
  }

  lemma StepOrder(b: Batch, calls: seq<Call>)
    requires calls != [] && !b.quit && Faithful(Taken(b), Init(calls), true)
    ensures Increasing(Taken(Step(b, |calls| - 1, Last(calls)))) <==> Increasing(Taken(b)) && !Overtakes(b, Last(calls))
  {
    var call, action := Last(calls), Decide(b, Last(calls));
    DecidedEntry(b, call);
    ApplyTaken(b, |calls| - 1, call, action);
    assert Overtaking(action) <==> call.ToolUse? && b.stop;
    forall t | t in Taken(b) ensures t.position < |calls| - 1 {
      assert Labelled(t, Init(calls));
    }
    if Adds(action) {
      var s := Fresh(|calls| - 1, call, action);
      InsertIncreasing(Records(b.log), b.pending, s);
      assert Taken(b) + [] == Taken(b) && Taken(b) + [s] + [] == Taken(b) + [s];
      InsertIncreasing(Taken(b), [], s);
    }
  }

  ghost predicate OvertakesAt(calls: seq<Call>, k: nat) {
    k < |calls| && Overtakes(Run(calls[..k]), calls[k])
  }

  lemma OvertakesAtInit(calls: seq<Call>, k: nat)
    requires calls != []
    ensures OvertakesAt(calls, k) <==>
            OvertakesAt(Init(calls), k) || (k == |calls| - 1 && Overtakes(Run(Init(calls)), Last(calls)))
  {
    assert calls[..|calls| - 1] == Init(calls);
    if k < |calls| - 1 {
      assert Init(calls)[..k] == calls[..k];
    }
  }

  lemma {:induction false} RunOrder(calls: seq<Call>)
    ensures Increasing(Taken(Run(calls))) <==> forall k :: !OvertakesAt(calls, k)
  {
    if calls != [] {
      RunOrder(Init(calls));
      RunSound(Init(calls));
      var b, overtakes := Run(Init(calls)), Overtakes(Run(Init(calls)), Last(calls));
      forall k: nat ensures OvertakesAt(calls, k) <==> OvertakesAt(Init(calls), k) || (k == |calls| - 1 && overtakes) {
        OvertakesAtInit(calls, k);
      }
      assert overtakes ==> OvertakesAt(calls, |calls| - 1);
      if !b.quit {
        StepOrder(b, calls);
      }
    }
  }

  /** The results are in call order exactly when no call overtakes waiting ones. */
  lemma OrderHoldsExactly(calls: seq<Call>)
    ensures Increasing(Records(Round(calls).log)) <==> forall k :: !OvertakesAt(calls, k)
  {
    RunOrder(calls);
    FlushMoves(Run(calls));
    if Run(calls).quit {
      QuitLeavesNothing(calls);
      assert Records(Run(calls).log) == Taken(Run(calls));
    }
  }

  // ----- nothing starts after an unknown outcome -----------------------------------------------

  predicate Unsettled(event: Event) {
    event.Recorded? && event.slot.entry.status == OutcomeUnknown
  }

  ghost predicate UnknownIn(log: seq<Event>) {
    exists k :: 0 <= k < |log| && Unsettled(log[k])
  }

  ghost predicate StartIn(log: seq<Event>) {
    exists k :: 0 <= k < |log| && log[k].Started?
  }

  ghost predicate Careful(log: seq<Event>) {
    forall i, j :: 0 <= i < j < |log| && Unsettled(log[i]) ==> !log[j].Started?
  }

  /** An unknown outcome was followed by a start, or will be once the queue is flushed. */
  ghost predicate Doomed(b: Batch) {
    !Careful(b.log) || (b.pending != [] && UnknownIn(b.log))
  }

  /** A call is let through to execution although the flushes made for it leave an
      unknown outcome on record. */
  ghost predicate Slips(b: Batch, call: Call) {
    && !b.quit
    && match Decide(b, call)
       case Queue(flush) => UnknownIn((if flush then Flush(b) else b).log)
       case Go => UnknownIn(Flush(b).log)
       case _ => false
  }

  lemma ConcatCareful(a: seq<Event>, c: seq<Event>)
    ensures Careful(a + c) <==> Careful(a) && Careful(c) && !(UnknownIn(a) && StartIn(c))
    ensures UnknownIn(a + c) <==> UnknownIn(a) || UnknownIn(c)
    ensures StartIn(a + c) <==> StartIn(a) || StartIn(c)
  {
    var all := a + c;
    assert forall k :: 0 <= k < |a| ==> all[k] == a[k];
    assert forall k :: 0 <= k < |c| ==> all[|a| + k] == c[k];
    assert forall k :: |a| <= k < |all| ==> all[k] == c[k - |a|];
    if UnknownIn(a) && StartIn(c) {
      var i :| 0 <= i < |a| && Unsettled(a[i]);
      var j :| 0 <= j < |c| && c[j].Started?;
      assert Unsettled(all[i]) && all[|a| + j].Started?;
    }
    if Careful(all) {
      forall i, j | 0 <= i < j < |c| && Unsettled(c[i]) ensures !c[j].Started? {
        assert Unsettled(all[|a| + i]);
      }
      forall i, j | 0 <= i < j < |a| && Unsettled(a[i]) ensures !a[j].Started? {
        assert Unsettled(all[i]);
      }
    }
  }

  lemma {:induction false} LaunchIsStarts(pending: seq<Slot>)
    ensures !UnknownIn(Launch(pending)) && Careful(Launch(pending))
    ensures StartIn(Launch(pending)) <==> pending != []
  {
    if pending != [] {
      LaunchIsStarts(Init(pending));
      var last := [Started(Last(pending).position)];
      assert last[0].Started?;
      ConcatCareful(Launch(Init(pending)), last);
    }
  }

  lemma {:induction false} SettleIsRecords(pending: seq<Slot>)
    ensures !StartIn(Settle(pending)) && Careful(Settle(pending))
    ensures UnknownIn(Settle(pending)) <==> Uncertain(pending)
  {
    if pending != [] {
      SettleIsRecords(Init(pending));
      var last := [Recorded(Last(pending))];
      assert Unsettled(last[0]) <==> Last(pending).entry.status == OutcomeUnknown;
      ConcatCareful(Settle(Init(pending)), last);
    }
  }

  lemma FlushCareful(b: Batch)
    ensures Doomed(Flush(b)) <==> Doomed(b)
    ensures UnknownIn(Flush(b).log) <==> UnknownIn(b.log) || Uncertain(b.pending)
  {
    LaunchIsStarts(b.pending);
    SettleIsRecords(b.pending);
    ConcatCareful(Launch(b.pending), Settle(b.pending));
    ConcatCareful(b.log, Launch(b.pending) + Settle(b.pending));
  }

  lemma PushCareful(b: Batch, position: nat, entry: Entry, stops: bool)
    requires b.pending == [] || entry.status != OutcomeUnknown
    ensures Doomed(Push(b, position, entry, stops)) <==> Doomed(b)
    ensures UnknownIn(Push(b, position, entry, stops).log) <==> UnknownIn(b.log) || entry.status == OutcomeUnknown
  {
    var last := [Recorded(Slot(position, entry))];
    assert Unsettled(last[0]) <==> entry.status == OutcomeUnknown;
    ConcatCareful(b.log, last);
  }

  lemma PerformCareful(b: Batch, position: nat, entry: Entry)
    requires b.pending == []
    ensures Doomed(Perform(b, position, entry)) <==> Doomed(b) || UnknownIn(b.log)
    ensures UnknownIn(Perform(b, position, entry).log) <==> UnknownIn(b.log) || entry.status == OutcomeUnknown
  {
    var start := [Started(position)];
    assert start[0].Started?;
    ConcatCareful(b.log, start);
    PushCareful(b.(log := b.log + start), position, entry, entry.status == OutcomeUnknown);
  }

  lemma StepCareful(b: Batch, position: nat, call: Call)
    requires !b.quit
    ensures Doomed(Step(b, position, call)) <==> Doomed(b) || Slips(b, call)
  {
    FlushCareful(b);
    DecidedEntry(b, call);
    match Decide(b, call)
    case Ignore =>
    case Skip(flush) => PushCareful(if flush then Flush(b) else b, position, Refusal(call, Aborted), false);
    case Answer(entry, stops) => PushCareful(Flush(b), position, entry, stops);
    case Queue(flush) =>
    case Go => PerformCareful(Flush(b), position, Ran(call));
    case Leave =>
  }

  ghost predicate SlipsAt(calls: seq<Call>, k: nat) {
    k < |calls| && Slips(Run(calls[..k]), calls[k])
  }

  lemma SlipsAtInit(calls: seq<Call>, k: nat)
    requires calls != []
    ensures SlipsAt(calls, k) <==> SlipsAt(Init(calls), k) || (k == |calls| - 1 && Slips(Run(Init(calls)), Last(calls)))
  {
    assert calls[..|calls| - 1] == Init(calls);
    if k < |calls| - 1 {
      assert Init(calls)[..k] == calls[..k];
    }
  }

  lemma {:induction false} RunCareful(calls: seq<Call>)
    ensures Doomed(Run(calls)) <==> exists k :: SlipsAt(calls, k)
  {
    if calls != [] {
      RunCareful(Init(calls));
      var b, slips := Run(Init(calls)), Slips(Run(Init(calls)), Last(calls));
      forall k: nat ensures SlipsAt(calls, k) <==> SlipsAt(Init(calls), k) || (k == |calls| - 1 && slips) {
        SlipsAtInit(calls, k);
      }
      assert slips ==> SlipsAt(calls, |calls| - 1);
      StepDooms(b, |calls| - 1, Last(calls));
    }
  }

  lemma StepDooms(b: Batch, position: nat, call: Call)
    ensures Doomed(Step(b, position, call)) <==> Doomed(b) || Slips(b, call)
  {
    if !b.quit {
      StepCareful(b, position, call);
    }
  }

  /** No call starts after an unknown outcome is recorded, exactly when no call slips
      past the checks made for it. */
  lemma StopHoldsExactly(calls: seq<Call>)
    ensures Careful(Round(calls).log) <==> forall k :: !SlipsAt(calls, k)
  {
    RunCareful(calls);
    FlushCareful(Run(calls));
    if Run(calls).quit {
      QuitLeavesNothing(calls);
    }
  }

  // ----- which calls slip ------------------------------------------------------------------------

  /** A safe call that had to ask: the flush made before asking met an unknown outcome,
      and the stop flag is not looked at again. */
  predicate AsksTooLate(b: Batch, call: Call) {
    !b.quit && !b.stop && Flush(b).stop && Decide(b, call) == Queue(true)
  }

  /** A saved error whose own status is an unknown outcome; replaying it does not stop
      the round. */
  predicate ReplaysUnknown(call: Call) {
    call.ToolUse? && call.recovery.Reuse? && Replayed(call).0.status == OutcomeUnknown && !Replayed(call).1
  }

  lemma ReplaysUnknownExactly(call: Call)
    requires call.ToolUse? && call.recovery.Reuse?
    ensures ReplaysUnknown(call) <==>
            && call.recovery.preHooks && call.postHooks && call.recovery.isError
            && call.recovery.output.Current? && call.recovery.output.isError
            && call.recovery.output.status == OutcomeUnknown
  {
  }

  lemma AnswerStops(b: Batch, call: Call)
    requires !ReplaysUnknown(call)
    ensures Decide(b, call).Answer? && Decide(b, call).entry.status == OutcomeUnknown ==> Decide(b, call).stops
  {
  }

  ghost predicate NoReplays(calls: seq<Call>) {
    forall k :: 0 <= k < |calls| ==> !ReplaysUnknown(calls[k])
  }

  ghost predicate AsksTooLateAt(calls: seq<Call>, k: nat) {
    k < |calls| && AsksTooLate(Run(calls[..k]), calls[k])
  }

  ghost predicate NoLateAsks(calls: seq<Call>) {
    forall k :: !AsksTooLateAt(calls, k)
  }

  lemma ConditionsOfPrefix(calls: seq<Call>, k: nat)
    requires k < |calls|
    ensures NoReplays(calls) ==> NoReplays(calls[..k]) && !ReplaysUnknown(calls[k])
    ensures NoLateAsks(calls) ==> NoLateAsks(calls[..k]) && !AsksTooLate(Run(calls[..k]), calls[k])
  {
    if NoLateAsks(calls) {
      assert !AsksTooLateAt(calls, k);
      forall m: nat ensures !AsksTooLateAt(calls[..k], m) {
        assert !AsksTooLateAt(calls, m);
        assert m < k ==> calls[..k][..m] == calls[..m] && calls[..k][m] == calls[m];
      }
    }
  }

  lemma StepStops(b: Batch, position: nat, call: Call)
    requires !b.quit && !ReplaysUnknown(call) && (UnknownIn(b.log) ==> b.stop)
    ensures UnknownIn(Step(b, position, call).log) ==> Step(b, position, call).stop
  {
    FlushCareful(b);
    DecidedEntry(b, call);
    AnswerStops(b, call);
    match Decide(b, call)
    case Ignore =>
    case Skip(flush) => PushCareful(if flush then Flush(b) else b, position, Refusal(call, Aborted), false);
    case Answer(entry, stops) => PushCareful(Flush(b), position, entry, stops);
    case Queue(flush) =>
    case Go => PerformCareful(Flush(b), position, Ran(call));
    case Leave =>
  }

  predicate Drained(b: Batch) {
    !b.stop || b.pending == []
  }

  lemma StepDrains(b: Batch, position: nat, call: Call)
    requires !AsksTooLate(b, call) && Drained(b)
    ensures Drained(Step(b, position, call))
  {
    DecidedEntry(b, call);
  }

  /** Without replayed unknowns the stop flag is set once an unknown is on record. */
  lemma {:induction false} RunStops(calls: seq<Call>)
    requires NoReplays(calls)
    ensures UnknownIn(Run(calls).log) ==> Run(calls).stop
  {
    if calls != [] {
      ConditionsOfPrefix(calls, |calls| - 1);
      RunStops(Init(calls));
      if !Run(Init(calls)).quit {
        StepStops(Run(Init(calls)), |calls| - 1, Last(calls));
      }
    }
  }

  /** Calls wait in a stopped round only behind one that asked too late. */
  lemma {:induction false} RunDrains(calls: seq<Call>)
    requires NoLateAsks(calls)
    ensures Drained(Run(calls))
  {
    if calls != [] {
      ConditionsOfPrefix(calls, |calls| - 1);
      RunDrains(Init(calls));
      StepDrains(Run(Init(calls)), |calls| - 1, Last(calls));
    }
  }

  lemma LetThrough(b: Batch, call: Call)
    ensures b.stop ==> !Decide(b, call).Queue? && !Decide(b, call).Go?
    ensures Decide(b, call).Go? ==> !Flush(b).stop
  {
  }

  /** Where no unknown was replayed, the calls that slip are those that asked too late. */
  lemma SlipsAskTooLate(calls: seq<Call>, call: Call)
    requires NoReplays(calls)
    ensures Slips(Run(calls), call) <==> AsksTooLate(Run(calls), call)
  {
    RunStops(calls);
    FlushCareful(Run(calls));
    SlipCause(Run(calls), call);
  }

  lemma SlipCause(b: Batch, call: Call)
    requires UnknownIn(b.log) ==> b.stop
    requires UnknownIn(Flush(b).log) <==> UnknownIn(b.log) || Uncertain(b.pending)
    ensures Slips(b, call) <==> AsksTooLate(b, call)
  {
    LetThrough(b, call);
    var action := Decide(b, call);
    assert Slips(b, call) <==> !b.quit && ((action == Queue(false) && UnknownIn(b.log)) ||
                                          (action == Queue(true) && UnknownIn(Flush(b).log)) ||
                                          (action == Go && UnknownIn(Flush(b).log)));
  }

  /** The round keeps both promises when no call asks too late and none replays an
      unknown outcome; the first condition alone keeps the order. */
  lemma PromisesHold(calls: seq<Call>)
    requires NoLateAsks(calls)
    ensures Increasing(Records(Round(calls).log))
    ensures NoReplays(calls) ==> Careful(Round(calls).log)
  {
    forall k: nat ensures !OvertakesAt(calls, k) {
      if k < |calls| {
        ConditionsOfPrefix(calls, k);
        RunDrains(calls[..k]);
      }
    }
    OrderHoldsExactly(calls);
    if NoReplays(calls) {
      forall k: nat ensures !SlipsAt(calls, k) {
        if k < |calls| {
          ConditionsOfPrefix(calls, k);
          SlipsAskTooLate(calls[..k], calls[k]);
        }
      }
    }
    StopHoldsExactly(calls);
  }

  /** Where no unknown is replayed, nothing starts after an unknown outcome exactly when
      no call asks too late. */
  lemma StopHoldsWithoutReplays(calls: seq<Call>)
    requires NoReplays(calls)
    ensures Careful(Round(calls).log) <==> NoLateAsks(calls)
  {
    forall k: nat ensures SlipsAt(calls, k) <==> AsksTooLateAt(calls, k) {
      if k < |calls| {
        ConditionsOfPrefix(calls, k);
        SlipsAskTooLate(calls[..k], calls[k]);
      }
    }
    StopHoldsExactly(calls);
  }

  // ----- the condition in full -------------------------------------------------------------------

  /** The k-th call replays a saved unknown outcome, which does not stop the round. */
  ghost predicate ReplayedAt(calls: seq<Call>, k: nat) {
    && k < |calls| && ReplaysUnknown(calls[k]) && !Run(calls[..k]).quit
    && Decide(Run(calls[..k]), calls[k]) == Answer(Replayed(calls[k]).0, false)
  }

  ghost predicate ReplayedBefore(calls: seq<Call>) {
    exists j :: ReplayedAt(calls, j)
  }

  predicate Through(b: Batch, call: Call) {
    !b.quit && (Decide(b, call).Queue? || Decide(b, call).Go?)
  }

  lemma ReplayedBeforeInit(calls: seq<Call>)
    requires calls != []
    ensures ReplayedBefore(calls) <==> ReplayedBefore(Init(calls)) || ReplayedAt(calls, |calls| - 1)
  {
    forall j: nat | j < |calls| - 1 ensures ReplayedAt(calls, j) <==> ReplayedAt(Init(calls), j) {
      assert Init(calls)[..j] == calls[..j];
    }
    if ReplayedBefore(Init(calls)) {
      var j :| ReplayedAt(Init(calls), j);
      assert ReplayedAt(calls, j);
    }
    if ReplayedBefore(calls) && !ReplayedAt(calls, |calls| - 1) {
      var j :| ReplayedAt(calls, j);
      assert ReplayedAt(Init(calls), j);
    }
  }

  /** An unknown outcome enters the record with the stop flag, or by a replay. */
  lemma StepUnknowns(b: Batch, position: nat, call: Call)
    requires !b.quit
    ensures UnknownIn(b.log) ==> UnknownIn(Step(b, position, call).log)
    ensures b.stop ==> Step(b, position, call).stop
    ensures var after := Step(b, position, call);
            UnknownIn(after.log) && !after.stop ==>
              UnknownIn(b.log) || (ReplaysUnknown(call) && Decide(b, call) == Answer(Replayed(call).0, false))
    ensures ReplaysUnknown(call) && Decide(b, call) == Answer(Replayed(call).0, false) ==>
              UnknownIn(Step(b, position, call).log)
  {
    FlushCareful(b);
    DecidedEntry(b, call);
    match Decide(b, call)
    case Ignore =>
    case Skip(flush) => PushCareful(if flush then Flush(b) else b, position, Refusal(call, Aborted), false);
    case Answer(entry, stops) =>
      PushCareful(Flush(b), position, entry, stops);
      if entry.status == OutcomeUnknown && !stops {
        AnswerCause(b, call);
      }
    case Queue(flush) =>
    case Go => PerformCareful(Flush(b), position, Ran(call));
    case Leave =>
  }

  lemma AnswerCause(b: Batch, call: Call)
    requires Decide(b, call).Answer? && Decide(b, call).entry.status == OutcomeUnknown && !Decide(b, call).stops
    ensures ReplaysUnknown(call) && Decide(b, call) == Answer(Replayed(call).0, false)
  {
  }

  lemma {:induction false} RunUnknowns(calls: seq<Call>)
    ensures UnknownIn(Run(calls).log) && !Run(calls).stop ==> ReplayedBefore(calls)
    ensures ReplayedBefore(calls) ==> UnknownIn(Run(calls).log)
  {
    if calls != [] {
      RunUnknowns(Init(calls));
      ReplayedBeforeInit(calls);
      assert calls[..|calls| - 1] == Init(calls);
      if !Run(Init(calls)).quit {
        StepUnknowns(Run(Init(calls)), |calls| - 1, Last(calls));
      }
    }
  }

  /** The calls that slip are those let through after a replayed unknown outcome or past
      a flush that met one. */
  lemma SlipsExactly(calls: seq<Call>, call: Call)
    ensures Slips(Run(calls), call) <==>
            Through(Run(calls), call) && (ReplayedBefore(calls) || AsksTooLate(Run(calls), call))
  {
    var b := Run(calls);
    RunUnknowns(calls);
    FlushCareful(b);
    LetThrough(b, call);
    var action := Decide(b, call);
    assert Slips(b, call) <==> !b.quit && ((action == Queue(false) && UnknownIn(b.log)) ||
                                          (action == Queue(true) && UnknownIn(Flush(b).log)) ||
                                          (action == Go && UnknownIn(Flush(b).log)));
  }

  ghost predicate CleanlyThrough(calls: seq<Call>, k: nat) {
    k < |calls| && Through(Run(calls[..k]), calls[k]) ==>
      !ReplayedBefore(calls[..k]) && !AsksTooLate(Run(calls[..k]), calls[k])
  }

  /** For every list of calls: nothing starts after an unknown outcome exactly when every
      call that is let through comes after no replayed unknown outcome and past no flush
      that met one. */
  lemma StopHoldsInFull(calls: seq<Call>)
    ensures Careful(Round(calls).log) <==> forall k :: CleanlyThrough(calls, k)
  {
    forall k: nat ensures SlipsAt(calls, k) <==> !CleanlyThrough(calls, k) {
      if k < |calls| {
        SlipsExactly(calls[..k], calls[k]);
      }
    }
    StopHoldsExactly(calls);
  }

  // ----- both families occur -------------------------------------------------------------------

  const DONE := Outcome(false, None, Executed)

  /** A safe call whose outcome is unknown, a safe call that asks and is approved, and one more. */
  const SAFE_UNKNOWN := ToolUse("a", true, true, true, true, Execute, true, Allow, Passed,
                                Outcome(true, None, OutcomeUnknown), true)
  const SAFE_ASKS := ToolUse("b", true, true, true, true, Execute, true, Ask(Approved(true, true, true)), Passed, DONE, true)
  const PLAIN := ToolUse("c", true, false, true, true, Execute, true, Allow, Passed, DONE, true)

  /** A call saved with an unknown outcome. */
  const SAVED_UNKNOWN := ToolUse("d", true, false, true, true, Reuse(true, Current(true, OutcomeUnknown, None), true),
                                 true, Allow, Passed, DONE, true)

  lemma LateAskBreaksBoth()
    ensures var calls := [SAFE_UNKNOWN, SAFE_ASKS, PLAIN];
            !Careful(Round(calls).log) && !Increasing(Records(Round(calls).log))
  {
    var calls := [SAFE_UNKNOWN, SAFE_ASKS, PLAIN];
    var first := Slot(0, Ran(SAFE_UNKNOWN));
    assert Init(calls) == [SAFE_UNKNOWN, SAFE_ASKS] && Init(Init(calls)) == [SAFE_UNKNOWN];
    assert calls[..1] == [SAFE_UNKNOWN] && calls[..2] == [SAFE_UNKNOWN, SAFE_ASKS];
    QueueAlone();
    var one := Run([SAFE_UNKNOWN]);
    assert Init([first]) == [] && Uncertain([first]);
    FlushCareful(one);
    assert Decide(one, SAFE_ASKS) == Queue(true);
    assert SlipsAt(calls, 1);
    StopHoldsExactly(calls);
    var two := Run([SAFE_UNKNOWN, SAFE_ASKS]);
    assert two == Step(one, 1, SAFE_ASKS);
    assert Overtakes(two, PLAIN);
    assert OvertakesAt(calls, 2);
    OrderHoldsExactly(calls);
  }

  lemma QueueAlone()
    ensures Run([SAFE_UNKNOWN]) == Batch([], [Slot(0, Ran(SAFE_UNKNOWN))], false, false)
  {
    assert Init([SAFE_UNKNOWN]) == [] && Run([]) == NEW_BATCH;
    assert Decide(NEW_BATCH, SAFE_UNKNOWN) == Queue(false);
  }

  lemma ReplayBreaksStop()
    ensures NoLateAsks([SAVED_UNKNOWN, PLAIN]) && !Careful(Round([SAVED_UNKNOWN, PLAIN]).log)
  {
    var calls := [SAVED_UNKNOWN, PLAIN];
    assert calls[..0] == [] && calls[..1] == [SAVED_UNKNOWN];
    ReplayAlone();
    var one := Run([SAVED_UNKNOWN]);
    assert Unsettled(one.log[0]);
    FlushCareful(one);
    assert Decide(one, PLAIN) == Go;
    assert SlipsAt(calls, 1);
    StopHoldsExactly(calls);
    assert Decide(NEW_BATCH, SAVED_UNKNOWN).Answer?;
  }

  lemma ReplayAlone()
    ensures var entry := Entry("d", true, None, OutcomeUnknown);
            Run([SAVED_UNKNOWN]) == Batch([Recorded(Slot(0, entry))], [], false, false)
  {
    assert Init([SAVED_UNKNOWN]) == [] && Run([]) == NEW_BATCH;
    assert Flush(NEW_BATCH) == NEW_BATCH;
  }
}
