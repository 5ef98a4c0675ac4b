/** The loop over one round's tool calls and the flush it shares, on the three result
    lists they fill side by side. */
module ToolRound {
  import opened Prelude
  import opened ToolBatch
  import opened ToolBatchTheorems

  datatype Block = Block(id: string, isError: bool)

  datatype ToolCallOutcome = ToolCallOutcome(results: seq<Block>, modifiers: seq<Option<nat>>, statuses: seq<Status>)

  datatype Control = QuitRound

  function Results(slots: seq<Slot>): seq<Block> {
    if slots == [] then [] else Results(Init(slots)) + [Block(Last(slots).entry.id, Last(slots).entry.isError)]
  }

  function Modifiers(slots: seq<Slot>): seq<Option<nat>> {
    if slots == [] then [] else Modifiers(Init(slots)) + [Last(slots).entry.modifier]
  }

  function Statuses(slots: seq<Slot>): seq<Status> {
    if slots == [] then [] else Statuses(Init(slots)) + [Last(slots).entry.status]
  }

  lemma {:induction false} ListsAt(slots: seq<Slot>)
    ensures |Results(slots)| == |Modifiers(slots)| == |Statuses(slots)| == |slots|
    ensures forall k :: 0 <= k < |slots| ==>
              && Results(slots)[k] == Block(slots[k].entry.id, slots[k].entry.isError)
              && Modifiers(slots)[k] == slots[k].entry.modifier && Statuses(slots)[k] == slots[k].entry.status
  {
    if slots != [] {
      ListsAt(Init(slots));
    }
  }

  /** The slots waiting calls will fill. */
  ghost function SlotsOf(pending: seq<(nat, Call)>): seq<Slot>
    requires forall q :: q in pending ==> q.1.ToolUse?
  {
    if pending == [] then []
    else
      assert Last(pending) in pending;
      SlotsOf(Init(pending)) + [Slot(Last(pending).0, Ran(Last(pending).1))]
  }

  lemma SlotsOfNext(calls: seq<(nat, Call)>, i: nat)
    requires i < |calls| && forall q :: q in calls ==> q.1.ToolUse?
    ensures var next := Slot(calls[i].0, Ran(calls[i].1));
            && SlotsOf(calls[..i + 1]) == SlotsOf(calls[..i]) + [next]
            && Launch(SlotsOf(calls[..i + 1])) == Launch(SlotsOf(calls[..i])) + [Started(calls[i].0)]
            && Settle(SlotsOf(calls[..i + 1])) == Settle(SlotsOf(calls[..i])) + [Recorded(next)]
            && (Uncertain(SlotsOf(calls[..i + 1])) <==>
                Uncertain(SlotsOf(calls[..i])) || next.entry.status == OutcomeUnknown)
  {
    assert calls[..i + 1] == calls[..i] + [calls[i]];
    InitOfAppend(calls[..i], calls[i]);
    InitOfAppend(SlotsOf(calls[..i]), Slot(calls[i].0, Ran(calls[i].1)));
  }

  class Round {
    var results: seq<Block>
    var modifiers: seq<Option<nat>>
    var statuses: seq<Status>
    var pendingSafe: seq<(nat, Call)>
    var stopAfterUnknown: bool
    ghost var log: seq<Event>

    /** The lists are what the log recorded, side by side. */
    ghost predicate Consistent()
      reads this
    {
      && (forall q :: q in pendingSafe ==> q.1.ToolUse?)
      && results == Results(Records(log)) && modifiers == Modifiers(Records(log))
      && statuses == Statuses(Records(log))
    }

    ghost function State(): Batch
      requires Consistent()
      reads this
    {
      Batch(log, SlotsOf(pendingSafe), stopAfterUnknown, false)
    }

    constructor ()
      ensures Consistent() && State() == NEW_BATCH
    {
      results, modifiers, statuses, pendingSafe, stopAfterUnknown, log := [], [], [], [], false, [];
    }

    method Record(position: nat, entry: Entry, stops: bool)
      requires Consistent()
      modifies this
      ensures Consistent() && State() == Push(old(State()), position, entry, stops)
      ensures pendingSafe == old(pendingSafe) && log == old(log) + [Recorded(Slot(position, entry))]
      ensures stopAfterUnknown == (old(stopAfterUnknown) || stops)
    {
      results := results + [Block(entry.id, entry.isError)];
      modifiers := modifiers + [entry.modifier];
      statuses := statuses + [entry.status];
      stopAfterUnknown := stopAfterUnknown || stops;
      OneMore(log, Recorded(Slot(position, entry)));
      InitOfAppend(Records(log), Slot(position, entry));
      log := log + [Recorded(Slot(position, entry))];
    }

    method Start(position: nat)
      requires Consistent()
      modifies this`log
      ensures Consistent() && log == old(log) + [Started(position)]
    {
      OneMore(log, Started(position));
      assert Records(log + [Started(position)]) == Records(log);
      log := log + [Started(position)];
    }

    method StartAll(calls: seq<(nat, Call)>)
      requires Consistent() && forall q :: q in calls ==> q.1.ToolUse?
      modifies this`log
      ensures Consistent() && log == old(log) + Launch(SlotsOf(calls))
    {
      for i := 0 to |calls|
        invariant Consistent() && log == old(log) + Launch(SlotsOf(calls[..i]))
      {
        SlotsOfNext(calls, i);
        Start(calls[i].0);
      }
      assert calls[..|calls|] == calls;
    }

    method RecordAll(calls: seq<(nat, Call)>)
      requires Consistent() && forall q :: q in calls ==> q.1.ToolUse?
      modifies this
      ensures Consistent() && pendingSafe == old(pendingSafe)
      ensures log == old(log) + Settle(SlotsOf(calls))
      ensures stopAfterUnknown == (old(stopAfterUnknown) || Uncertain(SlotsOf(calls)))
    {
      for i := 0 to |calls|
        invariant Consistent() && pendingSafe == old(pendingSafe)
        invariant log == old(log) + Settle(SlotsOf(calls[..i]))
        invariant stopAfterUnknown == (old(stopAfterUnknown) || Uncertain(SlotsOf(calls[..i])))
      {
        SlotsOfNext(calls, i);
        var entry := Ran(calls[i].1);
        Record(calls[i].0, entry, entry.status == OutcomeUnknown);
      }
      assert calls[..|calls|] == calls;
    }

    /** Starts every waiting call, then records their outcomes in queue order. */
    method FlushSafe()
      requires Consistent()
      modifies this
      ensures Consistent() && State() == Flush(old(State())) && pendingSafe == []
    {
      var calls := pendingSafe;
      pendingSafe := [];
      StartAll(calls);
      RecordAll(calls);
    }

    /** Flushes, then answers a call that will not run. */
    method Refuse(position: nat, call: Call, status: Status)
      requires Consistent() && call.ToolUse?
      modifies this
      ensures Consistent() && State() == Apply(old(State()), position, call, Answered(call, status))
    {
      FlushSafe();
      Record(position, Refusal(call, status), status == OutcomeUnknown);
    }

    /** A saved outcome stands in for the execution, unless the flush stopped the round. */
    method Replay(position: nat, call: Call)
      requires Consistent() && call.ToolUse? && call.recovery.Reuse?
      modifies this
      ensures Consistent()
      ensures State() == Apply(old(State()), position, call,
                               if Flush(old(State())).stop then Skip(true)
                               else Answer(Replayed(call).0, Replayed(call).1))
    {
      FlushSafe();
      if stopAfterUnknown {
        Record(position, Refusal(call, Aborted), false);
        return;
      }
      if !call.recovery.preHooks {
        Record(position, Refusal(call, OutcomeUnknown), true);
        return;
      }
      var recovered := Decode(call.recovery.output, call.recovery.isError);
      if recovered.None? {
        Record(position, Refusal(call, OutcomeUnknown), true);
        return;
      }
      if call.recovery.output.Legacy? && call.recovery.output.touchesContext {
        Record(position, Refusal(call, OutcomeUnknown), true);
        return;
      }
      var status := if recovered.value.isError then recovered.value.status else CacheHit;
      var entry, stops := Entry(call.id, recovered.value.isError, recovered.value.modifier, status), false;
      if !call.postHooks {
        entry, stops := Refusal(call, OutcomeUnknown), true;
      }
      Record(position, entry, stops);
    }

    /** The pre-tool guard, then the queue or the execution itself. */
    method Dispatch(position: nat, call: Call)
      requires Consistent() && call.ToolUse? && (!call.safe ==> pendingSafe == [])
      modifies this
      ensures Consistent() && State() == Apply(old(State()), position, call, Guarded(call, false))
    {
      match call.guard
      case Blocked => Refuse(position, call, Denied);
      case BlockedUnknown => Refuse(position, call, OutcomeUnknown);
      case Passed =>
        if call.safe {
          InitOfAppend(pendingSafe, (position, call));
          pendingSafe := pendingSafe + [(position, call)];
          return;
        }
        FlushIdle(State());
        Start(position);
        var entry := Ran(call);
        Record(position, entry, entry.status == OutcomeUnknown);
    }

    /** The confirmation a policy asks for. The queue is flushed first, and the stop
        flag that flush may set is not looked at again. */
    method Confirm(position: nat, call: Call) returns (quit: bool)
      requires Consistent() && call.ToolUse? && call.permission.Ask? && call.decisionRecorded
      modifies this
      ensures Consistent() && quit == Permit(call).Leave?
      ensures State() == Apply(old(State()), position, call, Permit(call)).(quit := false)
    {
      quit := false;
      PermitAfterFlush(State(), position, call);
      FlushTwice(State());
      FlushSafe();
      match call.permission.confirmation
      case Unavailable => Record(position, Refusal(call, Failed), false);
      case Declined => Refuse(position, call, Denied);
      case Quit => FlushSafe(); quit := true;
      case Approved(leaseIssued, decisionRecorded, allowed) =>
        if !leaseIssued || !decisionRecorded {
          Refuse(position, call, Failed);
          return;
        }
        if !allowed {
          Refuse(position, call, Denied);
          return;
        }
        Dispatch(position, call);
    }

    /** Permission: a recorded decision, and a confirmation where the policy asks for one. */
    method Authorize(position: nat, call: Call) returns (quit: bool)
      requires Consistent() && call.ToolUse? && (!call.safe ==> pendingSafe == [])
      modifies this
      ensures Consistent() && quit == Permit(call).Leave?
      ensures State() == Apply(old(State()), position, call, Permit(call)).(quit := false)
    {
      quit := false;
      if !call.decisionRecorded {
        Refuse(position, call, Failed);
        return;
      }
      match call.permission
      case Deny => Refuse(position, call, Denied);
      case Allow => Dispatch(position, call);
      case Ask(_) => quit := Confirm(position, call);
    }

    /** Preparation of the effect, then what its history asks for. */
    method Resume(position: nat, call: Call) returns (quit: bool)
      requires Consistent() && call.ToolUse? && (!call.safe ==> pendingSafe == [])
      modifies this
      ensures Consistent() && quit == Recover(call, Flush(old(State())).stop).Leave?
      ensures State() == Apply(old(State()), position, call, Recover(call, Flush(old(State())).stop)).(quit := false)
    {
      quit := false;
      if !call.prepared {
        Refuse(position, call, Unavailing(call));
        return;
      }
      match call.recovery
      case Reuse(_, _, _) => Replay(position, call);
      case Reconcile => Refuse(position, call, OutcomeUnknown);
      case RecoveryFailed => Refuse(position, call, OutcomeUnknown);
      case Execute => quit := Authorize(position, call);
    }

    /** A known tool: a call that is not safe flushes first and may be skipped. */
    method Admit(position: nat, call: Call) returns (quit: bool)
      requires Consistent() && call.ToolUse?
      modifies this
      ensures Consistent() && quit == Enter(call, Flush(old(State())).stop).Leave?
      ensures State() == Apply(old(State()), position, call, Enter(call, Flush(old(State())).stop)).(quit := false)
    {
      RecoverAfterFlush(State(), position, call);
      FlushTwice(State());
      if !call.safe {
        FlushSafe();
        if stopAfterUnknown {
          Record(position, Refusal(call, Aborted), false);
          return false;
        }
      }
      quit := Resume(position, call);
    }

    method Handle(position: nat, call: Call) returns (quit: bool)
      requires Consistent()
      modifies this
      ensures Consistent() && quit == Decide(old(State()), call).Leave?
      ensures State() == Step(old(State()), position, call).(quit := false)
    {
      if call.Other? { return false; }
      if stopAfterUnknown {
        Record(position, Refusal(call, Aborted), false);
        return false;
      }
      if !call.known {
        Refuse(position, call, Unavailing(call));
        return false;
      }
      quit := Admit(position, call);
    }
  }

  lemma StepQuits(b: Batch, position: nat, call: Call)
    requires !b.quit
    ensures Step(b, position, call).quit <==> Decide(b, call).Leave?
  {
  }

  lemma FlushIdle(b: Batch)
    requires b.pending == []
    ensures Flush(b) == b
  {
  }

  lemma FlushTwice(b: Batch)
    ensures Flush(Flush(b)) == Flush(b)
  {
    FlushIdle(Flush(b));
  }

  /** An action that flushes anyway gives the same after one more flush. */
  lemma PermitAfterFlush(b: Batch, position: nat, call: Call)
    requires call.ToolUse?
    ensures !call.safe ==> Apply(Flush(b), position, call, Permit(call)) == Apply(b, position, call, Permit(call))
    ensures Apply(Flush(b), position, call, Guarded(call, false)) == Apply(b, position, call, Guarded(call, true))
  {
    FlushTwice(b);
  }

  /** For a call that is not safe, recovery finds the queue already flushed. */
  lemma RecoverAfterFlush(b: Batch, position: nat, call: Call)
    requires call.ToolUse? && !b.quit
    ensures !call.safe ==> Apply(Flush(b), position, call, Recover(call, Flush(Flush(b)).stop)) ==
                           Apply(b, position, call, Recover(call, Flush(b).stop))
  {
    FlushTwice(b);
  }

  /** What a finished round hands back. */
  function Delivered(b: Batch): Result<ToolCallOutcome, Control> {
    var slots := Records(b.log);
    if b.quit then Err(QuitRound) else Ok(ToolCallOutcome(Results(slots), Modifiers(slots), Statuses(slots)))
  }

  /** Runs a round and hands back its lists, or quits when the user asks to. */
  method ExecuteToolCalls(calls: seq<Call>) returns (answer: Result<ToolCallOutcome, Control>, ghost log: seq<Event>)
    ensures log == ToolBatch.Round(calls).log
    ensures answer == Delivered(ToolBatch.Round(calls))
  {
    var round := new Round();
    for i := 0 to |calls|
      invariant fresh(round) && round.Consistent() && round.State() == Run(calls[..i])
    {
      assert calls[..i + 1] == calls[..i] + [calls[i]];
      InitOfAppend(calls[..i], calls[i]);
      StepQuits(round.State(), i, calls[i]);
      var quit := round.Handle(i, calls[i]);
      if quit {
        QuitStays(calls, i + 1);
        return Err(QuitRound), round.log;
      }
    }
    assert calls[..|calls|] == calls;
    round.FlushSafe();
    return Ok(ToolCallOutcome(round.results, round.modifiers, round.statuses)), round.log;
  }

  /** The three lists of a finished round have one entry per tool use, aligned, under
      the ids of the calls. */
  lemma ListsCoverCalls(calls: seq<Call>)
    requires !ToolBatch.Round(calls).quit
    ensures var slots := Records(ToolBatch.Round(calls).log);
            && |Results(slots)| == |Modifiers(slots)| == |Statuses(slots)| == |slots|
            && (forall k :: 0 <= k < |slots| ==> Labelled(slots[k], calls) && Results(slots)[k].id == calls[slots[k].position].id)
            && DistinctSlots(slots)
            && (forall p: nat :: p < |calls| && calls[p].ToolUse? ==> HasSlot(slots, p))
  {
    OneResultPerCall(calls);
    var slots := Records(ToolBatch.Round(calls).log);
    ListsAt(slots);
    forall k | 0 <= k < |slots|
      ensures Labelled(slots[k], calls) && Results(slots)[k].id == calls[slots[k].position].id
    {
      assert slots[k] in slots;
    }
  }
}
