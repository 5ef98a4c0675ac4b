/** What a round does with each call, told by the call's own fields: whether it is
    started, what is recorded for it and when the round is left. */
module ToolBatchAnswers {
  import opened Prelude
  import opened ToolBatch
  import opened ToolBatchTheorems

  // ----- the fields ----------------------------------------------------------------------

  /** The call gets as far as the permission check. */
  predicate Asks(call: Call) {
    call.ToolUse? && call.known && call.prepared && call.recovery.Execute?
  }

  /** Permission was given, by rule or by a confirmation that was leased and recorded. */
  predicate Granted(call: Call) {
    && call.ToolUse? && call.decisionRecorded
    && (call.permission.Allow? || call.permission == Ask(Approved(true, true, true)))
  }

  predicate MayRun(call: Call) {
    Asks(call) && Granted(call) && call.guard.Passed?
  }

  /** The user ends the round instead of answering. */
  predicate Quits(call: Call) {
    Asks(call) && call.decisionRecorded && call.permission == Ask(Quit)
  }

  /** The permission could not be established, as opposed to being refused. */
  predicate Unsettleable(call: Call) {
    && Asks(call)
    && (|| !call.decisionRecorded
        || call.permission == Ask(Unavailable)
        || (&& call.permission.Ask? && call.permission.confirmation.Approved?
            && !(call.permission.confirmation.leaseIssued && call.permission.confirmation.decisionRecorded)))
  }

  /** The saved outcome can be used again: all hooks pass, it decodes to the error flag it
      was saved under, and it does not come from before a change of context was saved. */
  predicate Reusable(call: Call) {
    && call.ToolUse? && call.recovery.Reuse? && call.recovery.preHooks && call.postHooks
    && match call.recovery.output
       case Malformed => false
       case Legacy(touchesContext) => !touchesContext
       case Current(isError, status, _) =>
         && isError == call.recovery.isError
         && isError == (status != Executed && status != CacheHit && status != Noop)
  }

  predicate Reused(call: Call, entry: Entry) {
    && Reusable(call)
    && entry.isError == call.recovery.isError
    && entry.modifier == (if call.recovery.output.Current? then call.recovery.output.modifier else None)
    && entry.status == (if !call.recovery.isError then CacheHit
                        else if call.recovery.output.Current? then call.recovery.output.status
                        else Failed)
  }

  /** An error without a context change. */
  predicate Refuses(entry: Entry, status: Status) {
    entry.isError && entry.modifier == None && entry.status == status
  }

  /** What is recorded for a call that is not skipped. */
  predicate Tells(call: Call, entry: Entry)
    requires call.ToolUse?
  {
    && entry.id == call.id
    && (MayRun(call) && (call.postHooks || call.outcome.status == OutcomeUnknown) ==>
          entry.isError == call.outcome.isError && entry.modifier == call.outcome.modifier && entry.status == call.outcome.status)
    && (MayRun(call) && !call.postHooks && call.outcome.status != OutcomeUnknown ==> Refuses(entry, OutcomeUnknown))
    && (!call.known || !call.prepared ==> Refuses(entry, if call.intentAbsent then Failed else OutcomeUnknown))
    && (call.known && call.prepared && (call.recovery.Reconcile? || call.recovery.RecoveryFailed?) ==>
          Refuses(entry, OutcomeUnknown))
    && (call.known && call.prepared && call.recovery.Reuse? ==>
          if Reusable(call) then Reused(call, entry) else Refuses(entry, OutcomeUnknown))
    && (Unsettleable(call) ==> Refuses(entry, Failed))
    && (Asks(call) && Granted(call) && call.guard.BlockedUnknown? ==> Refuses(entry, OutcomeUnknown))
    && (Asks(call) && Granted(call) && call.guard.Blocked? ==> Refuses(entry, Denied))
    && (Asks(call) && call.decisionRecorded && !Granted(call) && !Unsettleable(call) ==> Refuses(entry, Denied))
  }

  /** A waiting call has an unknown outcome, or the round is stopped already. */
  ghost predicate Halted(b: Batch) {
    b.stop || exists s :: s in b.pending && s.entry.status == OutcomeUnknown
  }

  /** The call is skipped: the round is stopped, or will be by the calls that must be
      recorded before this one is looked at further. */
  ghost predicate Skipped(b: Batch, call: Call) {
    call.ToolUse? && (b.stop || (call.known && Halted(b) && (!call.safe || (call.prepared && call.recovery.Reuse?))))
  }

  // ----- one step -------------------------------------------------------------------------------

  lemma {:induction false} UncertainExactly(pending: seq<Slot>)
    ensures Uncertain(pending) <==> exists s :: s in pending && s.entry.status == OutcomeUnknown
  {
    if pending != [] {
      UncertainExactly(Init(pending));
      assert Last(pending) in pending;
      assert forall s :: s in pending <==> s in Init(pending) || s == Last(pending);
    }
  }

  /** The positions that were started or will be at the next flush. */
  function Begun(b: Batch): seq<nat> {
    Starts(b.log) + Where(b.pending)
  }

  lemma FlushBegun(b: Batch)
    ensures Begun(Flush(b)) == Begun(b)
  {
    FlushMoves(b);
    assert Where([]) == [];
  }

  lemma PushBegun(b: Batch, position: nat, entry: Entry, stops: bool)
    ensures Begun(Push(b, position, entry, stops)) == Begun(b)
  {
    PushMoves(b, position, entry, stops);
  }

  lemma QueueBegun(b: Batch, position: nat, entry: Entry)
    ensures Begun(Enqueue(b, position, entry)) == Begun(b) + [position]
  {
    InitOfAppend(b.pending, Slot(position, entry));
  }

  lemma GoBegun(b: Batch, position: nat, entry: Entry)
    requires b.pending == []
    ensures Begun(Perform(b, position, entry)) == Begun(b) + [position]
  {
    PerformMoves(b, position, entry);
    assert Where(b.pending) == [];
  }

  lemma ApplyBegun(b: Batch, position: nat, call: Call, action: Action)
    requires action.Ignore? || call.ToolUse?
    ensures Begun(Apply(b, position, call, action)) == Begun(b) + if action.Queue? || action.Go? then [position] else []
  {
    FlushBegun(b);
    match action
    case Ignore =>
    case Skip(flush) => PushBegun(if flush then Flush(b) else b, position, Refusal(call, Aborted), false);
    case Answer(entry, stops) => PushBegun(Flush(b), position, entry, stops);
    case Queue(flush) => QueueBegun(if flush then Flush(b) else b, position, Ran(call));
    case Go => GoBegun(Flush(b), position, Ran(call));
    case Leave =>
  }

  /** Whether the fields lead to a skip, a start, the end of the round or an answer. */
  lemma DecidesExactly(b: Batch, call: Call)
    requires call.ToolUse?
    ensures Decide(b, call).Skip? <==> Skipped(b, call)
    ensures Decide(b, call).Queue? || Decide(b, call).Go? <==> !Skipped(b, call) && MayRun(call)
    ensures Decide(b, call).Leave? <==> !Skipped(b, call) && Quits(call)
    ensures !Decide(b, call).Ignore?
  {
    UncertainExactly(b.pending);
  }

  lemma AnswersExactly(b: Batch, call: Call)
    requires call.ToolUse? && Decide(b, call).Answer?
    ensures Tells(call, Decide(b, call).entry)
  {
    DecidesExactly(b, call);
  }

  lemma RunsExactly(call: Call)
    requires call.ToolUse? && MayRun(call)
    ensures Tells(call, Ran(call))
  {
  }

  /** What has become of a call that the round met in state `b`. */
  ghost predicate Settled(b: Batch, call: Call, position: nat, after: Batch)
    requires call.ToolUse?
  {
    if Skipped(b, call) then
      Slot(position, Entry(call.id, true, None, Aborted)) in Taken(after) && position !in Begun(after)
    else if Quits(call) then !HasSlot(Taken(after), position) && position !in Begun(after)
    else
      && (position in Begun(after) <==> MayRun(call))
      && exists s :: s in Taken(after) && s.position == position && Tells(call, s.entry)
  }

  /** Nothing of a batch went away, and what is new is of another call. */
  ghost predicate Extends(before: Batch, after: Batch, position: nat) {
    && (forall s :: s in Taken(before) ==> s in Taken(after))
    && (forall s :: s in Taken(after) ==> s in Taken(before) || s.position == position)
    && (forall p :: p in Begun(before) ==> p in Begun(after))
    && (forall p :: p in Begun(after) ==> p in Begun(before) || p == position)
  }

  lemma StepAdds(b: Batch, position: nat, call: Call)
    ensures Extends(b, Step(b, position, call), position)
  {
    if !b.quit {
      DecidedEntry(b, call);
      ApplyTaken(b, position, call, Decide(b, call));
      ApplyBegun(b, position, call, Decide(b, call));
    }
  }

  lemma StepSettles(b: Batch, position: nat, call: Call)
    requires !b.quit && call.ToolUse? && position !in Begun(b) && !HasSlot(Taken(b), position)
    ensures Settled(b, call, position, Step(b, position, call))
    ensures Step(b, position, call).quit <==> !Skipped(b, call) && Quits(call)
  {
    var action, after := Decide(b, call), Step(b, position, call);
    DecidesExactly(b, call);
    ApplyTaken(b, position, call, action);
    ApplyBegun(b, position, call, action);
    if action.Answer? {
      AnswersExactly(b, call);
      assert Slot(position, action.entry) in Taken(after);
    } else if action.Queue? || action.Go? {
      RunsExactly(call);
      assert Slot(position, Ran(call)) in Taken(after);
    }
  }

  lemma StaysSettled(b: Batch, call: Call, position: nat, before: Batch, after: Batch, later: nat)
    requires call.ToolUse? && Settled(b, call, position, before) && position != later && Extends(before, after, later)
    ensures Settled(b, call, position, after)
  {
  }

  // ----- whole rounds -----------------------------------------------------------------------------

  /** The round meets the call at this position. */
  ghost predicate Reached(calls: seq<Call>, p: nat) {
    p < |calls| && calls[p].ToolUse? && !Run(calls[..p]).quit
  }

  lemma {:induction false} NothingAhead(calls: seq<Call>)
    ensures forall p :: p in Begun(Run(calls)) ==> p < |calls|
    ensures forall s :: s in Taken(Run(calls)) ==> s.position < |calls|
  {
    if calls != [] {
      NothingAhead(Init(calls));
      StepAdds(Run(Init(calls)), |calls| - 1, Last(calls));
    }
  }

  lemma PrefixOfInit(calls: seq<Call>, p: nat)
    requires p < |calls|
    ensures p == |calls| - 1 ==> calls[..p] == Init(calls) && calls[p] == Last(calls)
    ensures p < |calls| - 1 ==> Init(calls)[..p] == calls[..p] && Init(calls)[p] == calls[p]
  {
  }

  lemma SettlesAtOnce(calls: seq<Call>)
    requires calls != [] && Last(calls).ToolUse? && !Run(Init(calls)).quit
    ensures Settled(Run(Init(calls)), Last(calls), |calls| - 1, Run(calls))
  {
    NothingAhead(Init(calls));
    StepSettles(Run(Init(calls)), |calls| - 1, Last(calls));
  }

  lemma RunAdds(calls: seq<Call>)
    requires calls != []
    ensures Extends(Run(Init(calls)), Run(calls), |calls| - 1)
  {
    StepAdds(Run(Init(calls)), |calls| - 1, Last(calls));
  }

  lemma {:induction false} RunSettles(calls: seq<Call>, p: nat, b: Batch, call: Call)
    requires Reached(calls, p) && b == Run(calls[..p]) && call == calls[p]
    ensures Settled(b, call, p, Run(calls))
  {
    PrefixOfInit(calls, p);
    if p == |calls| - 1 {
      SettlesAtOnce(calls);
    } else {
      RunSettles(Init(calls), p, b, call);
      RunAdds(calls);
      StaysSettled(b, call, p, Run(Init(calls)), Run(calls), |calls| - 1);
    }
  }

  lemma RoundKeeps(calls: seq<Call>)
    ensures Begun(Run(calls)) == Starts(Round(calls).log) && Taken(Run(calls)) == Records(Round(calls).log)
  {
    FlushMoves(Run(calls));
    if Run(calls).quit {
      QuitLeavesNothing(calls);
      assert Where([]) == [];
      assert Begun(Run(calls)) == Starts(Run(calls).log);
      assert Taken(Run(calls)) == Records(Run(calls).log);
    }
  }

  /** In every round, a call the round meets is started exactly when it is not skipped and
      its fields let it run. A skipped call is recorded as aborted, a call at which the
      user quits is not recorded, and any other is recorded with what its fields tell. */
  lemma RoundTells(calls: seq<Call>, p: nat)
    requires Reached(calls, p)
    ensures var b, call, log := Run(calls[..p]), calls[p], Round(calls).log;
            && (p in Starts(log) <==> !Skipped(b, call) && MayRun(call))
            && (Skipped(b, call) ==> Slot(p, Entry(call.id, true, None, Aborted)) in Records(log))
            && (!Skipped(b, call) && Quits(call) ==> !HasSlot(Records(log), p))
            && (!Skipped(b, call) && !Quits(call) ==>
                  exists s :: s in Records(log) && s.position == p && Tells(call, s.entry))
  {
    RunSettles(calls, p, Run(calls[..p]), calls[p]);
    RoundKeeps(calls);
  }

  /** A call behind the one at which the user quits is neither started nor recorded, and
      only a call that quits ends a round. */
  lemma {:induction false} NothingAfterQuit(calls: seq<Call>, p: nat)
    requires p < |calls| && calls[p].ToolUse?
    ensures Run(calls[..p + 1]).quit <==>
            Run(calls[..p]).quit || (!Skipped(Run(calls[..p]), calls[p]) && Quits(calls[p]))
    ensures Run(calls[..p]).quit ==> p !in Starts(Round(calls).log) && !HasSlot(Records(Round(calls).log), p)
  {
    assert Init(calls[..p + 1]) == calls[..p];
    NothingAhead(calls[..p]);
    if Run(calls[..p]).quit {
      QuitStays(calls, p);
      RoundKeeps(calls);
    } else {
      StepSettles(Run(calls[..p]), p, calls[p]);
    }
  }

  /** Whatever starts in a round was known and prepared, had nothing to recover, was
      permitted, recorded and guarded; and a finished round recorded its own outcome. */
  lemma StartedMayRun(calls: seq<Call>, p: nat)
    requires p in Starts(Round(calls).log)
    ensures p < |calls| && MayRun(calls[p])
    ensures exists s :: s in Records(Round(calls).log) && s.position == p && Tells(calls[p], s.entry)
  {
    RoundKeeps(calls);
    NothingAhead(calls);
    StartedIsToolUse(calls, p);
    if Run(calls[..p]).quit {
      NothingAfterQuit(calls, p);
      assert false;
    }
    RoundTells(calls, p);
  }

  lemma StartedIsToolUse(calls: seq<Call>, p: nat)
    requires p in Starts(Round(calls).log) && p < |calls|
    ensures calls[p].ToolUse?
  {
    OneResultPerCall(calls);
    var s :| s in Records(Round(calls).log) && s.position == p;
    assert Labelled(s, calls);
  }

  /** A denied call that an unstopped round meets is recorded as denied and never runs. */
  lemma DeniedIsDenied(calls: seq<Call>, p: nat)
    requires Reached(calls, p) && !Halted(Run(calls[..p]))
    requires Asks(calls[p]) && calls[p].decisionRecorded && calls[p].permission.Deny?
    ensures Slot(p, Entry(calls[p].id, true, None, Denied)) in Records(Round(calls).log)
    ensures p !in Starts(Round(calls).log)
  {
    RoundTells(calls, p);
  }
}
