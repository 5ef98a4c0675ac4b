/** One round of tool calls: concurrency-safe calls wait in a queue that is flushed
    before any other result is recorded, and an unknown outcome stops the round.
    Everything a call meets on its way (registry, recovery, permission, confirmation,
    hooks, the tool itself) is an oracle carried by the call. */
module ToolBatch {
  import opened Prelude

  datatype Status = Executed | CacheHit | Noop | Denied | Failed | Aborted | Timeout | OutcomeUnknown

  predicate IsError(status: Status) {
    status in {Denied, Failed, Aborted, Timeout, OutcomeUnknown}
  }

  /** A saved outcome: one that does not decode, one from before outcomes had a schema,
      or a current one. */
  datatype Saved =
    | Malformed
    | Legacy(touchesContext: bool)
    | Current(isError: bool, status: Status, modifier: Option<nat>)

  datatype Recovery =
    | Execute
    | Reuse(isError: bool, output: Saved, preHooks: bool)
    | Reconcile
    | RecoveryFailed

  datatype Confirmation =
    | Unavailable
    | Approved(leaseIssued: bool, decisionRecorded: bool, allowed: bool)
    | Declined
    | Quit

  datatype Permission = Allow | Deny | Ask(confirmation: Confirmation)

  datatype Guard = Passed | Blocked | BlockedUnknown

  datatype Outcome = Outcome(isError: bool, modifier: Option<nat>, status: Status)

  datatype Call =
    | Other
    | ToolUse(id: string, known: bool, safe: bool, prepared: bool, intentAbsent: bool, recovery: Recovery,
              decisionRecorded: bool, permission: Permission, guard: Guard, outcome: Outcome, postHooks: bool)

  datatype Entry = Entry(id: string, isError: bool, modifier: Option<nat>, status: Status)

  datatype Slot = Slot(position: nat, entry: Entry)

  datatype Event = Started(position: nat) | Recorded(slot: Slot)

  /** The round so far: what was started and recorded, what waits, and whether an
      unknown outcome has stopped it. */
  datatype Batch = Batch(log: seq<Event>, pending: seq<Slot>, stop: bool, quit: bool)

  const NEW_BATCH := Batch([], [], false, false)

  // ----- the entry a call ends with ----------------------------------------------------------

  function Refusal(call: Call, status: Status): Entry
    requires call.ToolUse?
  {
    Entry(call.id, true, None, status)
  }

  /** The outcome of an execution, or of its failed post-tool hooks. */
  function Ran(call: Call): Entry
    requires call.ToolUse?
  {
    if call.outcome.status != OutcomeUnknown && !call.postHooks then Refusal(call, OutcomeUnknown)
    else Entry(call.id, call.outcome.isError, call.outcome.modifier, call.outcome.status)
  }

  function Unavailing(call: Call): Status
    requires call.ToolUse?
  {
    if call.intentAbsent then Failed else OutcomeUnknown
  }

  /** Decoding a saved outcome: its error flag, status and modifier. */
  function Decode(output: Saved, isError: bool): Option<Outcome> {
    match output
    case Malformed => None
    case Legacy(_) => Some(Outcome(isError, None, if isError then Failed else Executed))
    case Current(saved, status, modifier) =>
      if saved != isError || IsError(status) != saved then None else Some(Outcome(saved, modifier, status))
  }

  function Replayed(call: Call): (Entry, bool)
    requires call.ToolUse? && call.recovery.Reuse?
  {
    var decoded := Decode(call.recovery.output, call.recovery.isError);
    if !call.recovery.preHooks || decoded.None? then (Refusal(call, OutcomeUnknown), true)
    else if call.recovery.output.Legacy? && call.recovery.output.touchesContext then (Refusal(call, OutcomeUnknown), true)
    else if !call.postHooks then (Refusal(call, OutcomeUnknown), true)
    else
      var status := if decoded.value.isError then decoded.value.status else CacheHit;
      (Entry(call.id, decoded.value.isError, decoded.value.modifier, status), false)
  }

  // ----- the specification ---------------------------------------------------------------------

  function Launch(pending: seq<Slot>): seq<Event> {
    if pending == [] then [] else Launch(Init(pending)) + [Started(Last(pending).position)]
  }

  function Settle(pending: seq<Slot>): seq<Event> {
    if pending == [] then [] else Settle(Init(pending)) + [Recorded(Last(pending))]
  }

  predicate Uncertain(pending: seq<Slot>) {
    pending != [] && (Uncertain(Init(pending)) || Last(pending).entry.status == OutcomeUnknown)
  }

  /** All waiting calls start together and are recorded in the order they were queued. */
  function Flush(b: Batch): Batch {
    b.(log := b.log + (Launch(b.pending) + Settle(b.pending)), pending := [], stop := b.stop || Uncertain(b.pending))
  }

  function Push(b: Batch, position: nat, entry: Entry, stops: bool): Batch {
    b.(log := b.log + [Recorded(Slot(position, entry))], stop := b.stop || stops)
  }

  function Enqueue(b: Batch, position: nat, entry: Entry): Batch {
    b.(pending := b.pending + [Slot(position, entry)])
  }

  function Perform(b: Batch, position: nat, entry: Entry): Batch {
    Push(b.(log := b.log + [Started(position)]), position, entry, entry.status == OutcomeUnknown)
  }

  /** What becomes of a call: the flag of Skip and Queue says whether a flush comes first. */
  datatype Action =
    | Ignore
    | Skip(flush: bool)
    | Answer(entry: Entry, stops: bool)
    | Queue(flush: bool)
    | Go
    | Leave

  function Answered(call: Call, status: Status): Action
    requires call.ToolUse?
  {
    Answer(Refusal(call, status), status == OutcomeUnknown)
  }

  function Guarded(call: Call, flush: bool): Action
    requires call.ToolUse?
  {
    match call.guard
    case Blocked => Answered(call, Denied)
    case BlockedUnknown => Answered(call, OutcomeUnknown)
    case Passed => if call.safe then Queue(flush) else Go
  }

  function Permit(call: Call): Action
    requires call.ToolUse?
  {
    if !call.decisionRecorded then Answered(call, Failed)
    else match call.permission
      case Deny => Answered(call, Denied)
      case Allow => Guarded(call, false)
      case Ask(Unavailable) => Answered(call, Failed)
      case Ask(Declined) => Answered(call, Denied)
      case Ask(Quit) => Leave
      case Ask(Approved(leaseIssued, decisionRecorded, allowed)) =>
        if !leaseIssued || !decisionRecorded then Answered(call, Failed)
        else if !allowed then Answered(call, Denied)
        else Guarded(call, true)
  }

  /** Preparation and recovery; `stopped` says whether a flush now stops the round. */
  function Recover(call: Call, stopped: bool): Action
    requires call.ToolUse?
  {
    if !call.prepared then Answered(call, Unavailing(call))
    else match call.recovery
      case Reuse(_, _, _) => if stopped then Skip(true) else Answer(Replayed(call).0, Replayed(call).1)
      case Reconcile => Answered(call, OutcomeUnknown)
      case RecoveryFailed => Answered(call, OutcomeUnknown)
      case Execute => Permit(call)
  }

  /** A call that is not safe is skipped when the flush before it stops the round. */
  function Enter(call: Call, stopped: bool): Action
    requires call.ToolUse?
  {
    if !call.safe && stopped then Skip(true) else Recover(call, stopped)
  }

  function Decide(b: Batch, call: Call): Action {
    if call.Other? then Ignore
    else if b.stop then Skip(false)
    else if !call.known then Answered(call, Unavailing(call))
    else Enter(call, Flush(b).stop)
  }

  function Apply(b: Batch, position: nat, call: Call, action: Action): Batch
    requires action.Ignore? || call.ToolUse?
  {
    match action
    case Ignore => b
    case Skip(flush) => Push(if flush then Flush(b) else b, position, Refusal(call, Aborted), false)
    case Answer(entry, stops) => Push(Flush(b), position, entry, stops)
    case Queue(flush) => Enqueue(if flush then Flush(b) else b, position, Ran(call))
    case Go => Perform(Flush(b), position, Ran(call))
    case Leave => Flush(b).(quit := true)
  }

  function Step(b: Batch, position: nat, call: Call): Batch {
    if b.quit then b else Apply(b, position, call, Decide(b, call))
  }

  function Run(calls: seq<Call>): Batch {
    if calls == [] then NEW_BATCH else Step(Run(Init(calls)), |calls| - 1, Last(calls))
  }

  /** The round after its last flush. */
  function Round(calls: seq<Call>): Batch {
    if Run(calls).quit then Run(calls) else Flush(Run(calls))
  }

  // ----- what a log says -------------------------------------------------------------------------

  function Starts(log: seq<Event>): seq<nat> {
    if log == [] then []
    else Starts(Init(log)) + (if Last(log).Started? then [Last(log).position] else [])
  }

  function Records(log: seq<Event>): seq<Slot> {
    if log == [] then []
    else Records(Init(log)) + (if Last(log).Recorded? then [Last(log).slot] else [])
  }

  function Where(slots: seq<Slot>): seq<nat> {
    if slots == [] then [] else Where(Init(slots)) + [Last(slots).position]
  }

  /** The recorded calls followed by the waiting ones. */
  function Taken(b: Batch): seq<Slot> {
    Records(b.log) + b.pending
  }

  lemma {:induction false} LogsConcat(a: seq<Event>, c: seq<Event>)
    ensures Starts(a + c) == Starts(a) + Starts(c)
    ensures Records(a + c) == Records(a) + Records(c)
  {
    if c == [] {
      assert a + c == a;
    } else {
      LogsConcat(a, Init(c));
      assert Init(a + c) == a + Init(c);
    }
  }

  lemma OneMore(log: seq<Event>, event: Event)
    ensures Starts(log + [event]) == Starts(log) + (if event.Started? then [event.position] else [])
    ensures Records(log + [event]) == Records(log) + (if event.Recorded? then [event.slot] else [])
  {
    InitOfAppend(log, event);
  }

  lemma {:induction false} LaunchStarts(pending: seq<Slot>)
    ensures Starts(Launch(pending)) == Where(pending) && Records(Launch(pending)) == []
  {
    if pending != [] {
      LaunchStarts(Init(pending));
      OneMore(Launch(Init(pending)), Started(Last(pending).position));
    }
  }

  lemma {:induction false} SettleRecords(pending: seq<Slot>)
    ensures Starts(Settle(pending)) == [] && Records(Settle(pending)) == pending
  {
    if pending != [] {
      SettleRecords(Init(pending));
      OneMore(Settle(Init(pending)), Recorded(Last(pending)));
      InitLast(pending);
    }
  }

  lemma {:induction false} WhereIs(slots: seq<Slot>)
    ensures |Where(slots)| == |slots|
    ensures forall k :: 0 <= k < |slots| ==> Where(slots)[k] == slots[k].position
  {
    if slots != [] {
      WhereIs(Init(slots));
    }
  }

  /** A flush moves the waiting calls to the end of the records, in order, and starts them. */
  lemma FlushMoves(b: Batch)
    ensures Records(Flush(b).log) == Taken(Flush(b)) == Taken(b)
    ensures Starts(Flush(b).log) == Starts(b.log) + Where(b.pending)
  {
    LaunchStarts(b.pending);
    SettleRecords(b.pending);
    LogsConcat(Launch(b.pending), Settle(b.pending));
    LogsConcat(b.log, Launch(b.pending) + Settle(b.pending));
  }

  lemma PushMoves(b: Batch, position: nat, entry: Entry, stops: bool)
    ensures Records(Push(b, position, entry, stops).log) == Records(b.log) + [Slot(position, entry)]
    ensures Starts(Push(b, position, entry, stops).log) == Starts(b.log)
  {
    OneMore(b.log, Recorded(Slot(position, entry)));
  }
}
