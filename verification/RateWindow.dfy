/** The provider rate window of the resource manager: a one-minute window of
    request and token counters, and permits that reserve, start, roll back,
    commit or are dropped, possibly after the window has moved on. */
module RateWindow {
  import opened Prelude

  const WINDOW_MILLIS := 60_000

  datatype Window = Window(startedAt: int, requests: nat, reservedRequests: nat, tokens: nat,
                           reservedTokens: nat, unstartedTokens: nat)

  datatype Signals = Signals(requestsPerMinute: Option<nat>, tokensPerMinute: Option<nat>)

  datatype PermitState = Reserved | Started | Completed

  datatype Permit = Permit(tokens: nat, window: int, state: PermitState)

  datatype RateError = RequestsExhausted | TokensExhausted | NoLongerActive | PersistenceFailed

  function Opened(now: int): Window {
    Window(now, 0, 0, 0, 0, 0)
  }

  predicate Expired(window: Window, now: int) {
    window.startedAt == 0 || now - window.startedAt >= WINDOW_MILLIS
  }

  function Refresh(window: Window, now: int): Window {
    if Expired(window, now) then Opened(now) else window
  }

  function Exhausted(window: Window, signals: Signals, tokens: nat): Option<RateError> {
    if signals.requestsPerMinute.Some?
       && SaturatingAdd(window.requests, window.reservedRequests) >= signals.requestsPerMinute.value
    then Some(RequestsExhausted)
    else if signals.tokensPerMinute.Some? && SaturatingAdd(window.tokens, tokens) > signals.tokensPerMinute.value
    then Some(TokensExhausted)
    else None
  }

  /** A change that cannot be persisted is undone and reported. */
  function Persisted<T>(before: Window, after: Window, answer: Result<T, RateError>, changed: bool, persists: bool):
    (Window, Result<T, RateError>)
  {
    if changed && !persists then (before, Err(PersistenceFailed)) else (after, answer)
  }

  function AcquireRequest(window: Window, signals: Signals, tokens: nat, now: int, persists: bool):
    (Window, Result<int, RateError>)
  {
    var w := Refresh(window, now);
    var error := Exhausted(w, signals, tokens);
    if error.Some? then Persisted(window, w, Err(error.value), Expired(window, now), persists)
    else
      var reserved := w.(reservedRequests := SaturatingAdd(w.reservedRequests, 1),
                         tokens := SaturatingAdd(w.tokens, tokens),
                         reservedTokens := SaturatingAdd(w.reservedTokens, tokens),
                         unstartedTokens := SaturatingAdd(w.unstartedTokens, tokens));
      Persisted(window, reserved, Ok(w.startedAt), true, persists)
  }

  function StartRequest(window: Window, signals: Signals, tokens: nat, reservedIn: int, now: int, persists: bool):
    (Window, Result<int, RateError>)
  {
    var w := Refresh(window, now);
    if w.startedAt != reservedIn then
      var error := Exhausted(w, signals, tokens);
      if error.Some? then Persisted(window, w, Err(error.value), true, persists)
      else
        var moved := w.(requests := SaturatingAdd(w.requests, 1),
                        tokens := SaturatingAdd(w.tokens, tokens),
                        reservedTokens := SaturatingAdd(w.reservedTokens, tokens));
        Persisted(window, moved, Ok(w.startedAt), true, persists)
    else if w.reservedRequests == 0 || w.unstartedTokens < tokens then
      Persisted(window, w, Err(NoLongerActive), false, persists)
    else
      var begun := w.(reservedRequests := w.reservedRequests - 1,
                      requests := SaturatingAdd(w.requests, 1),
                      unstartedTokens := w.unstartedTokens - tokens);
      Persisted(window, begun, Ok(w.startedAt), true, persists)
  }

  function RollbackRequest(window: Window, tokens: nat, startedIn: int, persists: bool): (Window, Result<(), RateError>)
  {
    if window.startedAt != startedIn then (window, Ok(()))
    else if window.requests == 0 then (window, Err(NoLongerActive))
    else
      Persisted(window, window.(requests := window.requests - 1,
                                reservedRequests := SaturatingAdd(window.reservedRequests, 1),
                                unstartedTokens := SaturatingAdd(window.unstartedTokens, tokens)),
                Ok(()), true, persists)
  }

  function CommitTokens(window: Window, reserved: nat, actual: nat, startedIn: int, persists: bool):
    (Window, Result<(), RateError>)
  {
    if window.startedAt != startedIn then (window, Ok(()))
    else
      Persisted(window, window.(tokens := SaturatingAdd(SaturatingSub(window.tokens, reserved), actual),
                                reservedTokens := SaturatingSub(window.reservedTokens, reserved)),
                Ok(()), true, persists)
  }

  function ReleaseTokens(window: Window, reserved: nat, startedIn: int, persists: bool): Window {
    if window.startedAt != startedIn || !persists then window
    else window.(tokens := SaturatingSub(window.tokens, reserved),
                 reservedTokens := SaturatingSub(window.reservedTokens, reserved))
  }

  function ReleaseReservation(window: Window, reserved: nat, startedIn: int, persists: bool): Window {
    if window.startedAt != startedIn || !persists then window
    else window.(reservedRequests := SaturatingSub(window.reservedRequests, 1),
                 tokens := SaturatingSub(window.tokens, reserved),
                 reservedTokens := SaturatingSub(window.reservedTokens, reserved),
                 unstartedTokens := SaturatingSub(window.unstartedTokens, reserved))
  }

  // ----- permits --------------------------------------------------------------------

  datatype Outcome = Outcome(window: Window, permit: Permit, error: Option<RateError>)

  function MarkStarted(window: Window, signals: Signals, permit: Permit, now: int, persists: bool): Outcome {
    if permit.state != Reserved then Outcome(window, permit, None)
    else
      var (w, answer) := StartRequest(window, signals, permit.tokens, permit.window, now, persists);
      if answer.Ok? then Outcome(w, permit.(window := answer.value, state := Started), None)
      else Outcome(w, permit, Some(answer.error))
  }

  function RollbackStart(window: Window, permit: Permit, persists: bool): Outcome {
    if permit.state != Started then Outcome(window, permit, None)
    else
      var (w, answer) := RollbackRequest(window, permit.tokens, permit.window, persists);
      if answer.Ok? then Outcome(w, permit.(state := Reserved), None) else Outcome(w, permit, Some(answer.error))
  }

  function DropPermit(window: Window, permit: Permit, persists: bool): Window {
    match permit.state
    case Reserved => ReleaseReservation(window, permit.tokens, permit.window, persists)
    case Started => ReleaseTokens(window, permit.tokens, permit.window, persists)
    case Completed => window
  }

  /** Committing consumes the permit; a failed step ends in a drop. */
  function CommitPermit(window: Window, signals: Signals, permit: Permit, actual: nat, now: int,
                        startPersists: bool, commitPersists: bool, dropPersists: bool): Outcome
  {
    var o := MarkStarted(window, signals, permit, now, startPersists);
    if o.error.Some? then
      Outcome(DropPermit(o.window, o.permit, dropPersists), o.permit.(state := Completed), o.error)
    else
      var (w, answer) := CommitTokens(o.window, o.permit.tokens, actual, o.permit.window, commitPersists);
      if answer.Ok? then Outcome(w, o.permit.(state := Completed), None)
      else Outcome(DropPermit(w, o.permit, dropPersists), o.permit.(state := Completed), Some(answer.error))
  }

  // ----- a manager and every permit it ever issued ---------------------------------------

  /** `held` is false once the owner is gone. A slot whose release could not be
      persisted keeps its permit, because the window still counts it. */
  datatype Slot = Slot(permit: Permit, held: bool)

  /** `finished` and `spent` count, for the current window, the started requests
      whose permits are gone and the tokens that commits have charged. */
  datatype Manager = Manager(window: Window, signals: Signals, slots: seq<Slot>, finished: nat, spent: nat)

  datatype Operation =
    | OpAcquire(tokens: nat, now: int, persists: bool)
    | OpStart(slot: nat, now: int, persists: bool)
    | OpRollback(slot: nat, persists: bool)
    | OpCommit(slot: nat, actual: nat, now: int, startPersists: bool, commitPersists: bool, dropPersists: bool)
    | OpDrop(slot: nat, persists: bool)
    | OpSignals(signals: Signals)

  predicate Usable(m: Manager, slot: nat) {
    slot < |m.slots| && m.slots[slot].held && m.slots[slot].permit.state != Completed
  }

  /** A new window starts the per-window totals afresh. */
  function InWindow(m: Manager, window: Window): Manager {
    if window.startedAt == m.window.startedAt then m.(window := window)
    else m.(window := window, finished := 0, spent := 0)
  }

  function Acquire(m: Manager, tokens: nat, now: int, persists: bool): (Manager, Option<RateError>) {
    var (w, answer) := AcquireRequest(m.window, m.signals, tokens, now, persists);
    if answer.Err? then (InWindow(m, w), Some(answer.error))
    else (InWindow(m, w).(slots := m.slots + [Slot(Permit(tokens, answer.value, Reserved), true)]), None)
  }

  function StartSlot(m: Manager, slot: nat, now: int, persists: bool): (Manager, Option<RateError>)
    requires Usable(m, slot)
  {
    var o := MarkStarted(m.window, m.signals, m.slots[slot].permit, now, persists);
    (InWindow(m, o.window).(slots := m.slots[slot := Slot(o.permit, true)]), o.error)
  }

  function RollbackSlot(m: Manager, slot: nat, persists: bool): (Manager, Option<RateError>)
    requires Usable(m, slot)
  {
    var o := RollbackStart(m.window, m.slots[slot].permit, persists);
    (m.(window := o.window, slots := m.slots[slot := Slot(o.permit, true)]), o.error)
  }

  predicate Counted(m: Manager, permit: Permit) {
    permit.window == m.window.startedAt && permit.state != Completed
  }

  function DropSlot(m: Manager, slot: nat, persists: bool): Manager
    requires Usable(m, slot)
  {
    var permit := m.slots[slot].permit;
    var leaked := Counted(m, permit) && !persists;
    m.(window := DropPermit(m.window, permit, persists),
       slots := m.slots[slot := Slot(if leaked then permit else permit.(state := Completed), false)],
       finished := if Counted(m, permit) && permit.state == Started && persists then m.finished + 1 else m.finished)
  }

  /** Committing consumes the permit; when a step fails, the rest is a drop. */
  function CommitSlot(m: Manager, op: Operation): (Manager, Option<RateError>)
    requires op.OpCommit? && Usable(m, op.slot)
  {
    var (m1, error) := StartSlot(m, op.slot, op.now, op.startPersists);
    if error.Some? then (DropSlot(m1, op.slot, op.dropPersists), error)
    else CommitStarted(m1, op)
  }

  /** The second half of a commit, once the permit is started. */
  function CommitStarted(m: Manager, op: Operation): (Manager, Option<RateError>)
    requires op.OpCommit? && Usable(m, op.slot)
  {
    var permit := m.slots[op.slot].permit;
    var (w, answer) := CommitTokens(m.window, permit.tokens, op.actual, permit.window, op.commitPersists);
    if answer.Err? then (DropSlot(m.(window := w), op.slot, op.dropPersists), Some(answer.error))
    else if Counted(m, permit) then
      (m.(window := w, slots := m.slots[op.slot := Slot(permit.(state := Completed), false)],
          finished := m.finished + 1, spent := m.spent + op.actual), None)
    else (m.(slots := m.slots[op.slot := Slot(permit.(state := Completed), false)]), None)
  }

  /** Ownership rules out operations on permits that were consumed. */
  function Step(m: Manager, op: Operation): (Manager, Option<RateError>) {
    match op
    case OpAcquire(tokens, now, persists) => Acquire(m, tokens, now, persists)
    case OpStart(slot, now, persists) => if Usable(m, slot) then StartSlot(m, slot, now, persists) else (m, None)
    case OpRollback(slot, persists) => if Usable(m, slot) then RollbackSlot(m, slot, persists) else (m, None)
    case OpCommit(slot, _, _, _, _, _) => if Usable(m, slot) then CommitSlot(m, op) else (m, None)
    case OpDrop(slot, persists) => if Usable(m, slot) then (DropSlot(m, slot, persists), None) else (m, None)
    case OpSignals(signals) => (m.(signals := signals), None)
  }

  /** The manager's window after a commit is the one the permit computes. */
  lemma CommitSlotUsesPermit(m: Manager, op: Operation)
    requires op.OpCommit? && Usable(m, op.slot)
    ensures var o := CommitPermit(m.window, m.signals, m.slots[op.slot].permit, op.actual, op.now,
                                  op.startPersists, op.commitPersists, op.dropPersists);
            CommitSlot(m, op).0.window == o.window && CommitSlot(m, op).1 == o.error
  {
    var (m1, error) := StartSlot(m, op.slot, op.now, op.startPersists);
    assert m1.slots[op.slot].permit ==
           MarkStarted(m.window, m.signals, m.slots[op.slot].permit, op.now, op.startPersists).permit;
  }

  function Run(m: Manager, ops: seq<Operation>): Manager {
    if ops == [] then m else Step(Run(m, Init(ops)), Last(ops)).0
  }

  function NewManager(signals: Signals): Manager {
    Manager(Opened(0), signals, [], 0, 0)
  }

  // ----- conservation -----------------------------------------------------------------------

  datatype Measure = ReservedCount | StartedCount | UnstartedSum | ReservedSum

  function Weight(measure: Measure, permit: Permit, window: int): nat {
    if permit.window != window || permit.state == Completed then 0
    else match measure
      case ReservedCount => if permit.state == Reserved then 1 else 0
      case StartedCount => if permit.state == Started then 1 else 0
      case UnstartedSum => if permit.state == Reserved then permit.tokens else 0
      case ReservedSum => permit.tokens
  }

  function Total(measure: Measure, slots: seq<Slot>, window: int): nat {
    if slots == [] then 0
    else Total(measure, Init(slots), window) + Weight(measure, Last(slots).permit, window)
  }

  lemma TotalAppend(measure: Measure, slots: seq<Slot>, slot: Slot, window: int)
    ensures Total(measure, slots + [slot], window) ==
            Total(measure, slots, window) + Weight(measure, slot.permit, window)
  {
    InitOfAppend(slots, slot);
  }

  lemma {:induction false} TotalUpdate(measure: Measure, slots: seq<Slot>, k: nat, slot: Slot, window: int)
    requires k < |slots|
    ensures Total(measure, slots[k := slot], window) + Weight(measure, slots[k].permit, window) ==
            Total(measure, slots, window) + Weight(measure, slot.permit, window)
  {
    if k < |slots| - 1 {
      assert Init(slots[k := slot]) == Init(slots)[k := slot];
      TotalUpdate(measure, Init(slots), k, slot, window);
    } else {
      assert Init(slots[k := slot]) == Init(slots);
    }
  }

  lemma {:induction false} TotalNew(measure: Measure, slots: seq<Slot>, window: int)
    requires forall s :: s in slots ==> s.permit.window != window
    ensures Total(measure, slots, window) == 0
  {
    if slots != [] {
      InitLast(slots);
      assert forall s :: s in Init(slots) ==> s in slots;
      TotalNew(measure, Init(slots), window);
    }
  }

  ghost predicate Balanced(m: Manager) {
    var w := m.window;
    && w.reservedRequests == Total(ReservedCount, m.slots, w.startedAt)
    && w.unstartedTokens == Total(UnstartedSum, m.slots, w.startedAt)
    && w.reservedTokens == Total(ReservedSum, m.slots, w.startedAt)
    && w.requests == Total(StartedCount, m.slots, w.startedAt) + m.finished
    && w.tokens == w.reservedTokens + m.spent
  }

  /** The counters equal the sums over the permits of the current window. */
  ghost predicate Conserved(m: Manager) {
    && Balanced(m)
    && m.window.requests <= U64_MAX && m.window.reservedRequests <= U64_MAX && m.window.tokens <= U64_MAX
    && 0 <= m.window.startedAt
    && forall s :: s in m.slots ==> 0 < s.permit.window <= m.window.startedAt
  }

  /** Starting a reserved slot adds without saturating. */
  predicate StartFits(m: Manager, slot: nat, now: int)
    requires slot < |m.slots|
  {
    var permit, w := m.slots[slot].permit, Refresh(m.window, now);
    permit.state == Reserved ==>
      if permit.window == w.startedAt then w.requests < U64_MAX
      else Exhausted(w, m.signals, permit.tokens).None? ==> w.requests < U64_MAX && w.tokens + permit.tokens <= U64_MAX
  }

  /** Charging a started slot adds without saturating. */
  predicate ChargeFits(m: Manager, slot: nat, actual: nat)
    requires slot < |m.slots|
  {
    var permit := m.slots[slot].permit;
    permit.window == m.window.startedAt ==> SaturatingSub(m.window.tokens, permit.tokens) + actual <= U64_MAX
  }

  /** A positive clock, and no addition of the step saturates. */
  predicate Roomy(m: Manager, op: Operation) {
    && (op.OpAcquire? || op.OpStart? || op.OpCommit? ==> op.now > 0)
    && match op
       case OpAcquire(tokens, now, _) =>
         var w := Refresh(m.window, now);
         Exhausted(w, m.signals, tokens).None? ==> w.reservedRequests < U64_MAX && w.tokens + tokens <= U64_MAX
       case OpStart(slot, now, _) => Usable(m, slot) ==> StartFits(m, slot, now)
       case OpRollback(slot, _) =>
         Usable(m, slot) && m.slots[slot].permit.state == Started && m.slots[slot].permit.window == m.window.startedAt ==>
           m.window.reservedRequests < U64_MAX
       case OpCommit(slot, actual, now, startPersists, _, _) =>
         Usable(m, slot) ==>
           && StartFits(m, slot, now)
           && var (m1, error) := StartSlot(m, slot, now, startPersists); (error.None? ==> ChargeFits(m1, slot, actual))
       case _ => true
  }

  lemma {:induction false} TotalsOrdered(slots: seq<Slot>, window: int)
    ensures Total(UnstartedSum, slots, window) <= Total(ReservedSum, slots, window)
  {
    if slots != [] {
      TotalsOrdered(Init(slots), window);
    }
  }

  lemma {:induction false} TotalAtLeast(measure: Measure, slots: seq<Slot>, k: nat, window: int)
    requires k < |slots|
    ensures Weight(measure, slots[k].permit, window) <= Total(measure, slots, window)
  {
    if k < |slots| - 1 {
      TotalAtLeast(measure, Init(slots), k, window);
    }
  }

  lemma RefreshConserves(m: Manager, now: int)
    requires Conserved(m) && now > 0
    ensures Conserved(InWindow(m, Refresh(m.window, now)))
    ensures 0 < Refresh(m.window, now).startedAt
  {
    if Expired(m.window, now) {
      TotalNew(ReservedCount, m.slots, now);
      TotalNew(StartedCount, m.slots, now);
      TotalNew(UnstartedSum, m.slots, now);
      TotalNew(ReservedSum, m.slots, now);
    }
  }

  lemma TotalsAppend(slots: seq<Slot>, slot: Slot, window: int)
    ensures forall measure :: Total(measure, slots + [slot], window) ==
                              Total(measure, slots, window) + Weight(measure, slot.permit, window)
  {
    forall measure ensures Total(measure, slots + [slot], window) ==
                           Total(measure, slots, window) + Weight(measure, slot.permit, window)
    {
      TotalAppend(measure, slots, slot, window);
    }
  }

  lemma TotalsUpdate(slots: seq<Slot>, k: nat, slot: Slot, window: int)
    requires k < |slots|
    ensures forall measure :: Total(measure, slots[k := slot], window) + Weight(measure, slots[k].permit, window) ==
                              Total(measure, slots, window) + Weight(measure, slot.permit, window)
    ensures forall measure :: Weight(measure, slots[k].permit, window) <= Total(measure, slots, window)
  {
    forall measure
      ensures Total(measure, slots[k := slot], window) + Weight(measure, slots[k].permit, window) ==
              Total(measure, slots, window) + Weight(measure, slot.permit, window)
      ensures Weight(measure, slots[k].permit, window) <= Total(measure, slots, window)
    {
      TotalUpdate(measure, slots, k, slot, window);
      TotalAtLeast(measure, slots, k, window);
    }
  }

  lemma AcquireNeverStale(m: Manager, tokens: nat, now: int, persists: bool)
    ensures Acquire(m, tokens, now, persists).1 != Some(NoLongerActive)
  {
  }

  lemma AcquireConserves(m: Manager, tokens: nat, now: int, persists: bool)
    requires Conserved(m) && Roomy(m, OpAcquire(tokens, now, persists))
    ensures Conserved(Acquire(m, tokens, now, persists).0)
  {
    RefreshConserves(m, now);
    var w := Refresh(m.window, now);
    TotalsOrdered(m.slots, w.startedAt);
    TotalsAppend(m.slots, Slot(Permit(tokens, w.startedAt, Reserved), true), w.startedAt);
  }

  /** Without the room the 64-bit counters saturate and the sums no longer agree:
      an acquisition conserves exactly when there is room for it. */
  lemma AcquireConservesExactly(m: Manager, tokens: nat, now: int)
    requires Conserved(m) && now > 0 && Acquire(m, tokens, now, true).1.None?
    ensures var w := Refresh(m.window, now);
            Conserved(Acquire(m, tokens, now, true).0) <==> w.reservedRequests < U64_MAX && w.tokens + tokens <= U64_MAX
  {
    var w := Refresh(m.window, now);
    if w.reservedRequests < U64_MAX && w.tokens + tokens <= U64_MAX {
      AcquireConserves(m, tokens, now, true);
    } else {
      SaturatedSumsDiffer(m, tokens, now);
    }
  }

  lemma SaturatedSumsDiffer(m: Manager, tokens: nat, now: int)
    requires Conserved(m) && now > 0 && Acquire(m, tokens, now, true).1.None?
    requires var w := Refresh(m.window, now); w.reservedRequests >= U64_MAX || w.tokens + tokens > U64_MAX
    ensures !Conserved(Acquire(m, tokens, now, true).0)
  {
    RefreshConserves(m, now);
    var w := Refresh(m.window, now);
    TotalsAppend(m.slots, Slot(Permit(tokens, w.startedAt, Reserved), true), w.startedAt);
  }

  /** A manager that granted all the tokens there are. */
  const FULL := Manager(Window(1, 0, 1, U64_MAX, U64_MAX, U64_MAX), Signals(None, None),
                        [Slot(Permit(U64_MAX, 1, Reserved), true)], 0, 0)

  lemma FirstGrant(m: Manager, tokens: nat)
    requires m == NewManager(Signals(None, None)) && tokens <= U64_MAX
    ensures var slot := Slot(Permit(tokens, 1, Reserved), true);
            Acquire(m, tokens, 1, true) == (Manager(Window(1, 0, 1, tokens, tokens, tokens), m.signals, [slot], 0, 0), None)
  {
    assert AcquireRequest(m.window, m.signals, tokens, 1, true) == (Window(1, 0, 1, tokens, tokens, tokens), Ok(1));
    assert m.slots + [Slot(Permit(tokens, 1, Reserved), true)] == [Slot(Permit(tokens, 1, Reserved), true)];
  }

  lemma {:induction false} NewIsConserved(m: Manager)
    requires m == NewManager(m.signals)
    ensures Conserved(m)
  {
  }

  lemma GrantConserves(m: Manager, tokens: nat)
    requires m == NewManager(Signals(None, None)) && tokens <= U64_MAX
    ensures Conserved(Acquire(m, tokens, 1, true).0)
  {
    NewIsConserved(m);
    FirstGrant(m, tokens);
    AcquireConserves(m, tokens, 1, true);
  }

  /** An acquisition of all the tokens there are and one of a single token more: both
      succeed, and the sums no longer agree. */
  lemma SaturationBreaksSums(m: Manager, more: Operation)
    requires m == NewManager(Signals(None, None)) && more == OpAcquire(1, 1, true)
    ensures Run(m, [OpAcquire(U64_MAX, 1, true)]) == FULL && Conserved(FULL)
    ensures Step(FULL, more).1.None? && !Conserved(Step(FULL, more).0)
  {
    GrantConserves(m, U64_MAX);
    FirstGrant(m, U64_MAX);
    assert Init([OpAcquire(U64_MAX, 1, true)]) == [];
    assert Exhausted(FULL.window, FULL.signals, 1).None?;
    SaturatedSumsDiffer(FULL, more.tokens, more.now);
  }

  lemma SameSlots(m: Manager, slot: nat)
    requires Usable(m, slot)
    ensures m.slots[slot := Slot(m.slots[slot].permit, true)] == m.slots
  {
  }

  /** Starting a reservation of the current window moves it from reserved to started. */
  lemma StartHereConserves(m: Manager, slot: nat)
    requires Conserved(m) && Usable(m, slot) && m.slots[slot].permit.state == Reserved
    requires m.slots[slot].permit.window == m.window.startedAt && m.window.requests < U64_MAX
    ensures var permit, w := m.slots[slot].permit, m.window;
            && w.reservedRequests >= 1 && w.unstartedTokens >= permit.tokens
            && Conserved(m.(window := w.(reservedRequests := w.reservedRequests - 1, requests := w.requests + 1,
                                         unstartedTokens := w.unstartedTokens - permit.tokens),
                            slots := m.slots[slot := Slot(permit.(state := Started), true)]))
  {
    var permit, w := m.slots[slot].permit, m.window.startedAt;
    assert m.slots[slot] in m.slots;
    TotalsUpdate(m.slots, slot, Slot(permit.(state := Started), true), w);
    assert Weight(ReservedCount, permit, w) == 1 && Weight(UnstartedSum, permit, w) == permit.tokens;
  }

  /** Starting a reservation of an earlier window charges the current one. */
  lemma StartMovedConserves(m: Manager, slot: nat)
    requires Conserved(m) && Usable(m, slot) && m.slots[slot].permit.state == Reserved
    requires m.slots[slot].permit.window != m.window.startedAt && 0 < m.window.startedAt
    requires m.window.requests < U64_MAX && m.window.tokens + m.slots[slot].permit.tokens <= U64_MAX
    ensures var permit, w := m.slots[slot].permit, m.window;
            Conserved(m.(window := w.(requests := w.requests + 1, tokens := w.tokens + permit.tokens,
                                      reservedTokens := w.reservedTokens + permit.tokens),
                         slots := m.slots[slot := Slot(permit.(window := w.startedAt, state := Started), true)]))
  {
    var permit, w := m.slots[slot].permit, m.window.startedAt;
    assert m.slots[slot] in m.slots;
    TotalsUpdate(m.slots, slot, Slot(permit.(window := w, state := Started), true), w);
  }

  /** What starting does to a reserved slot, case by case. */
  lemma StartCases(m: Manager, slot: nat, now: int, persists: bool)
    requires Conserved(m) && Usable(m, slot) && Roomy(m, OpStart(slot, now, persists))
    requires m.slots[slot].permit.state == Reserved
    ensures var m0, permit := InWindow(m, Refresh(m.window, now)), m.slots[slot].permit;
            var w, error := m0.window, Exhausted(m0.window, m.signals, permit.tokens);
            var begun := m0.slots[slot := Slot(permit.(window := w.startedAt, state := Started), true)];
            StartSlot(m, slot, now, persists) ==
            if !persists then (m, Some(PersistenceFailed))
            else if permit.window == w.startedAt then
              (m0.(window := w.(reservedRequests := SaturatingSub(w.reservedRequests, 1), requests := w.requests + 1,
                                unstartedTokens := SaturatingSub(w.unstartedTokens, permit.tokens)),
                   slots := begun), None)
            else if error.Some? then (m0, error)
            else
              (m0.(window := w.(requests := w.requests + 1, tokens := w.tokens + permit.tokens,
                                reservedTokens := w.reservedTokens + permit.tokens), slots := begun), None)
  {
    RefreshConserves(m, now);
    SameSlots(m, slot);
    var m0 := InWindow(m, Refresh(m.window, now));
    TotalsOrdered(m.slots, m0.window.startedAt);
    if m.slots[slot].permit.window == m0.window.startedAt {
      StartHereConserves(m0, slot);
    }
  }

  lemma StartConserves(m: Manager, slot: nat, now: int, persists: bool)
    requires Conserved(m) && Usable(m, slot) && Roomy(m, OpStart(slot, now, persists))
    ensures Conserved(StartSlot(m, slot, now, persists).0)
    ensures StartSlot(m, slot, now, persists).1 != Some(NoLongerActive)
  {
    SameSlots(m, slot);
    if m.slots[slot].permit.state == Reserved {
      StartCases(m, slot, now, persists);
      RefreshConserves(m, now);
      var m0 := InWindow(m, Refresh(m.window, now));
      if m.slots[slot].permit.window == m0.window.startedAt {
        StartHereConserves(m0, slot);
      } else if Exhausted(m0.window, m.signals, m.slots[slot].permit.tokens).None? {
        StartMovedConserves(m0, slot);
      }
    }
  }

  lemma RollbackConserves(m: Manager, slot: nat, persists: bool)
    requires Conserved(m) && Usable(m, slot) && Roomy(m, OpRollback(slot, persists))
    ensures Conserved(RollbackSlot(m, slot, persists).0)
    ensures RollbackSlot(m, slot, persists).1 != Some(NoLongerActive)
  {
    var permit, w := m.slots[slot].permit, m.window.startedAt;
    assert m.slots[slot] in m.slots;
    TotalsUpdate(m.slots, slot, Slot(permit.(state := Reserved), true), w);
    TotalsUpdate(m.slots, slot, Slot(permit, true), w);
    assert Weight(StartedCount, permit, w) <= m.window.requests;
    TotalsOrdered(m.slots[slot := Slot(permit.(state := Reserved), true)], w);
  }

  lemma DropConserves(m: Manager, slot: nat, persists: bool)
    requires Conserved(m) && Usable(m, slot)
    ensures Conserved(DropSlot(m, slot, persists))
  {
    var permit, w := m.slots[slot].permit, m.window.startedAt;
    assert m.slots[slot] in m.slots;
    TotalsUpdate(m.slots, slot, Slot(permit.(state := Completed), false), w);
    TotalsUpdate(m.slots, slot, Slot(permit, false), w);
    assert Weight(ReservedCount, permit, w) <= m.window.reservedRequests;
    assert Weight(UnstartedSum, permit, w) <= m.window.unstartedTokens;
    assert Weight(ReservedSum, permit, w) <= m.window.reservedTokens;
  }

  lemma ChargeConserves(m: Manager, slot: nat, actual: nat)
    requires Conserved(m) && Usable(m, slot)
    requires Counted(m, m.slots[slot].permit) && m.slots[slot].permit.state == Started && ChargeFits(m, slot, actual)
    ensures var permit, w := m.slots[slot].permit, m.window;
            && permit.tokens <= w.reservedTokens
            && Conserved(m.(window := w.(tokens := w.tokens - permit.tokens + actual,
                                         reservedTokens := w.reservedTokens - permit.tokens),
                            slots := m.slots[slot := Slot(permit.(state := Completed), false)],
                            finished := m.finished + 1, spent := m.spent + actual))
  {
    var permit, w := m.slots[slot].permit, m.window.startedAt;
    assert m.slots[slot] in m.slots;
    TotalsUpdate(m.slots, slot, Slot(permit.(state := Completed), false), w);
    assert Weight(ReservedSum, permit, w) == permit.tokens;
  }

  lemma CommitStartedConserves(m: Manager, op: Operation)
    requires op.OpCommit? && Conserved(m) && Usable(m, op.slot) && m.slots[op.slot].permit.state != Reserved
    requires ChargeFits(m, op.slot, op.actual)
    ensures var permit := m.slots[op.slot].permit;
            var (w, answer) := CommitTokens(m.window, permit.tokens, op.actual, permit.window, op.commitPersists);
            answer.Ok? && permit.state == Started && Counted(m, permit) ==>
              Conserved(m.(window := w, slots := m.slots[op.slot := Slot(permit.(state := Completed), false)],
                           finished := m.finished + 1, spent := m.spent + op.actual))
    ensures Conserved(m.(slots := m.slots[op.slot := Slot(m.slots[op.slot].permit.(state := Completed), false)])) ||
            Counted(m, m.slots[op.slot].permit)
  {
    var permit := m.slots[op.slot].permit;
    if Counted(m, permit) {
      ChargeConserves(m, op.slot, op.actual);
    } else {
      assert m.slots[op.slot] in m.slots;
      TotalsUpdate(m.slots, op.slot, Slot(permit.(state := Completed), false), m.window.startedAt);
    }
  }

  lemma StartedState(m: Manager, slot: nat, now: int, persists: bool)
    requires Usable(m, slot) && StartSlot(m, slot, now, persists).1.None?
    ensures StartSlot(m, slot, now, persists).0.slots[slot].permit.state != Reserved
  {
  }

  lemma CommitStartedKeeps(m: Manager, op: Operation)
    requires op.OpCommit? && Conserved(m) && Usable(m, op.slot) && m.slots[op.slot].permit.state != Reserved
    requires ChargeFits(m, op.slot, op.actual)
    ensures Conserved(CommitStarted(m, op).0) && CommitStarted(m, op).1 != Some(NoLongerActive)
  {
    DropConserves(m, op.slot, op.dropPersists);
    CommitStartedConserves(m, op);
  }

  lemma StartKeepsUsable(m: Manager, slot: nat, now: int, persists: bool)
    requires Usable(m, slot)
    ensures Usable(StartSlot(m, slot, now, persists).0, slot)
  {
  }

  lemma CommitConserves(m: Manager, op: Operation)
    requires op.OpCommit? && Conserved(m) && Usable(m, op.slot) && Roomy(m, op)
    ensures Conserved(CommitSlot(m, op).0) && CommitSlot(m, op).1 != Some(NoLongerActive)
  {
    StartConserves(m, op.slot, op.now, op.startPersists);
    StartKeepsUsable(m, op.slot, op.now, op.startPersists);
    var (m1, error) := StartSlot(m, op.slot, op.now, op.startPersists);
    DropConserves(m1, op.slot, op.dropPersists);
    if error.None? {
      StartedState(m, op.slot, op.now, op.startPersists);
      CommitStartedKeeps(m1, op);
    }
  }

  /** Every operation keeps the counters equal to the sums over permits, whatever
      failed to persist, and none ever reports a reservation as no longer active. */
  lemma StepConserves(m: Manager, op: Operation)
    requires Conserved(m) && Roomy(m, op)
    ensures Conserved(Step(m, op).0)
    ensures Step(m, op).1 != Some(NoLongerActive)
  {
    match op {
      case OpAcquire(tokens, now, persists) =>
        AcquireConserves(m, tokens, now, persists);
        AcquireNeverStale(m, tokens, now, persists);
      case OpStart(slot, now, persists) => if Usable(m, slot) { StartConserves(m, slot, now, persists); }
      case OpRollback(slot, persists) => if Usable(m, slot) { RollbackConserves(m, slot, persists); }
      case OpCommit(slot, _, _, _, _, _) => if Usable(m, slot) { CommitConserves(m, op); }
      case OpDrop(slot, persists) => if Usable(m, slot) { DropConserves(m, slot, persists); }
      case OpSignals(_) =>
    }
  }

  ghost predicate RoomyRun(m: Manager, ops: seq<Operation>) {
    forall k :: 0 <= k < |ops| ==> Roomy(Run(m, ops[..k]), ops[k])
  }

  lemma RoomyInit(m: Manager, ops: seq<Operation>)
    requires RoomyRun(m, ops) && ops != []
    ensures RoomyRun(m, Init(ops)) && Roomy(Run(m, Init(ops)), Last(ops))
  {
    assert Init(ops) == ops[..|ops| - 1];
    assert forall k :: 0 <= k < |ops| - 1 ==> Init(ops)[..k] == ops[..k] && Init(ops)[k] == ops[k];
  }

  lemma {:induction false} RunConserves(signals: Signals, ops: seq<Operation>)
    requires RoomyRun(NewManager(signals), ops)
    ensures Conserved(Run(NewManager(signals), ops))
  {
    if ops != [] {
      RoomyInit(NewManager(signals), ops);
      RunConserves(signals, Init(ops));
      StepConserves(Run(NewManager(signals), Init(ops)), Last(ops));
    }
  }

  /** When every release persisted, no slot outlives its owner, so the sums range
      over live permits alone. */
  ghost predicate NothingLeaked(m: Manager) {
    forall s :: s in m.slots && !s.held ==> s.permit.state == Completed
  }

  lemma StepLeaksNothing(m: Manager, op: Operation)
    requires NothingLeaked(m) && (op.OpDrop? ==> op.persists) && (op.OpCommit? ==> op.dropPersists)
    ensures NothingLeaked(Step(m, op).0)
  {
  }

  lemma {:induction false} LiveSumsWhenReleasesPersist(signals: Signals, ops: seq<Operation>)
    requires forall op :: op in ops ==> (op.OpDrop? ==> op.persists) && (op.OpCommit? ==> op.dropPersists)
    ensures NothingLeaked(Run(NewManager(signals), ops))
  {
    if ops != [] {
      InitLast(ops);
      assert forall op :: op in Init(ops) ==> op in ops;
      LiveSumsWhenReleasesPersist(signals, Init(ops));
      assert Last(ops) in ops;
      StepLeaksNothing(Run(NewManager(signals), Init(ops)), Last(ops));
    }
  }

  // ----- the request limit --------------------------------------------------------------------

  ghost predicate WithinLimit(m: Manager, limit: nat) {
    m.signals.requestsPerMinute == Some(limit) && m.window.requests + m.window.reservedRequests <= limit <= U64_MAX
  }

  lemma StartWithinLimit(m: Manager, slot: nat, now: int, persists: bool, limit: nat)
    requires Usable(m, slot) && WithinLimit(m, limit)
    ensures WithinLimit(StartSlot(m, slot, now, persists).0, limit)
  {
  }

  lemma DropWithinLimit(m: Manager, slot: nat, persists: bool, limit: nat)
    requires Usable(m, slot) && WithinLimit(m, limit)
    ensures WithinLimit(DropSlot(m, slot, persists), limit)
  {
  }

  lemma StepWithinLimit(m: Manager, op: Operation, limit: nat)
    requires WithinLimit(m, limit)
    requires op.OpSignals? ==> op.signals.requestsPerMinute == Some(limit)
    ensures WithinLimit(Step(m, op).0, limit)
  {
    match op {
      case OpStart(slot, now, persists) => if Usable(m, slot) { StartWithinLimit(m, slot, now, persists, limit); }
      case OpCommit(slot, _, now, startPersists, _, dropPersists) =>
        if Usable(m, slot) {
          StartWithinLimit(m, slot, now, startPersists, limit);
          var (m1, error) := StartSlot(m, slot, now, startPersists);
          DropWithinLimit(m1, slot, dropPersists, limit);
        }
      case OpDrop(slot, persists) => if Usable(m, slot) { DropWithinLimit(m, slot, persists, limit); }
      case _ =>
    }
  }

  /** Under a constant request limit, itself a 64-bit number, the window never holds
      more started and reserved requests than the limit allows, in any run at all. */
  lemma {:induction false} RequestLimitHolds(signals: Signals, ops: seq<Operation>, limit: nat)
    requires signals.requestsPerMinute == Some(limit) && limit <= U64_MAX
    requires forall op :: op in ops && op.OpSignals? ==> op.signals.requestsPerMinute == Some(limit)
    ensures WithinLimit(Run(NewManager(signals), ops), limit)
  {
    if ops != [] {
      InitLast(ops);
      assert forall op :: op in Init(ops) ==> op in ops;
      RequestLimitHolds(signals, Init(ops), limit);
      assert Last(ops) in ops;
      StepWithinLimit(Run(NewManager(signals), Init(ops)), Last(ops), limit);
    }
  }

  // ----- a permit on the Run paired with one on the role ------------------------------------------

  predicate Touches(op: Operation, slot: nat) {
    !op.OpAcquire? && !op.OpSignals? && op.slot == slot
  }

  lemma StepLeavesSlot(m: Manager, op: Operation, slot: nat)
    requires Usable(m, slot) && !Touches(op, slot)
    ensures Usable(Step(m, op).0, slot) && Step(m, op).0.slots[slot] == m.slots[slot]
  {
  }

  lemma {:induction false} OthersLeaveSlot(m: Manager, ops: seq<Operation>, slot: nat)
    requires Conserved(m) && RoomyRun(m, ops) && Usable(m, slot)
    requires forall op :: op in ops ==> !Touches(op, slot)
    ensures Conserved(Run(m, ops)) && Usable(Run(m, ops), slot) && Run(m, ops).slots[slot] == m.slots[slot]
  {
    if ops != [] {
      InitLast(ops);
      assert forall op :: op in Init(ops) ==> op in ops;
      assert Last(ops) in ops;
      RoomyInit(m, ops);
      OthersLeaveSlot(m, Init(ops), slot);
      StepConserves(Run(m, Init(ops)), Last(ops));
      StepLeavesSlot(Run(m, Init(ops)), Last(ops), slot);
    }
  }

  lemma StartEnds(m: Manager, slot: nat, now: int, persists: bool)
    requires Usable(m, slot) && m.slots[slot].permit.state == Reserved
    ensures var (m', error) := StartSlot(m, slot, now, persists);
            Usable(m', slot) && m'.slots[slot].permit.state == if error.None? then Started else Reserved
  {
  }

  lemma RollbackEnds(m: Manager, slot: nat, persists: bool)
    requires Conserved(m) && Usable(m, slot) && m.slots[slot].permit.state == Started
    ensures var (m', error) := RollbackSlot(m, slot, persists);
            && Usable(m', slot)
            && (m'.slots[slot].permit.state == Reserved <==>
                  persists || m.slots[slot].permit.window != m.window.startedAt)
            && (m'.slots[slot].permit.state == Reserved || m'.slots[slot].permit.state == Started)
  {
    TotalAtLeast(StartedCount, m.slots, slot, m.window.startedAt);
  }

  datatype Pair = Pair(run: Manager, scoped: Manager, error: Option<RateError>)

  /** The second half: the Run's permit `i` is started, now the role's permit `j`; if
      that fails, roll the former back. `between` is what others do to the Run's
      manager before the rollback. */
  function StartScoped(run: Manager, i: nat, scoped: Manager, j: nat, now: int, persists: bool,
                       rollbackPersists: bool, between: seq<Operation>): Pair
    requires Usable(scoped, j)
  {
    var (scoped1, error) := StartSlot(scoped, j, now, persists);
    var run1 := Run(run, between);
    if error.None? then Pair(run, scoped1, None)
    else if Usable(run1, i) then Pair(RollbackSlot(run1, i, rollbackPersists).0, scoped1, error)
    else Pair(run1, scoped1, error)
  }

  function StartPair(run: Manager, i: nat, scoped: Manager, j: nat, now: int, later: int, startPersists: bool,
                     scopedPersists: bool, rollbackPersists: bool, between: seq<Operation>): Pair
    requires Usable(run, i) && Usable(scoped, j)
  {
    var (run1, error) := StartSlot(run, i, now, startPersists);
    if error.Some? then Pair(run1, scoped, error)
    else StartScoped(run1, i, scoped, j, later, scopedPersists, rollbackPersists, between)
  }

  /** Whether the rollback of a started permit takes effect. */
  predicate Undoable(run: Manager, i: nat, rollbackPersists: bool)
    requires i < |run.slots|
  {
    rollbackPersists || run.slots[i].permit.window != run.window.startedAt
  }

  ghost predicate PairOutcome(pair: Pair, i: nat, j: nat, undone: bool) {
    && i < |pair.run.slots| && j < |pair.scoped.slots|
    && Conserved(pair.run) && Conserved(pair.scoped)
    && var a, b := pair.run.slots[i].permit.state, pair.scoped.slots[j].permit.state;
       if pair.error.None? then a == Started && b == Started
       else b == Reserved && a == if undone then Reserved else Started
  }

  lemma ScopedOutcome(run: Manager, i: nat, scoped: Manager, j: nat, now: int, persists: bool,
                      rollbackPersists: bool, between: seq<Operation>)
    requires Conserved(run) && Conserved(scoped) && Usable(run, i) && Usable(scoped, j)
    requires run.slots[i].permit.state == Started && scoped.slots[j].permit.state == Reserved
    requires Roomy(scoped, OpStart(j, now, persists))
    requires RoomyRun(run, between) && Roomy(Run(run, between), OpRollback(i, rollbackPersists))
    requires forall op :: op in between ==> !Touches(op, i)
    ensures Usable(Run(run, between), i)
    ensures PairOutcome(StartScoped(run, i, scoped, j, now, persists, rollbackPersists, between), i, j,
                        Undoable(Run(run, between), i, rollbackPersists))
  {
    StartConserves(scoped, j, now, persists);
    StartEnds(scoped, j, now, persists);
    OthersLeaveSlot(run, between, i);
    RollbackConserves(Run(run, between), i, rollbackPersists);
    RollbackEnds(Run(run, between), i, rollbackPersists);
  }

  /** Starting a pair ends with both permits Started, or with an error and both
      Reserved; the one exception is a rollback that was needed in the current
      window and could not be persisted. */
  lemma PairEndsTogether(run: Manager, i: nat, scoped: Manager, j: nat, now: int, later: int, startPersists: bool,
                         scopedPersists: bool, rollbackPersists: bool, between: seq<Operation>)
    requires Conserved(run) && Conserved(scoped) && Usable(run, i) && Usable(scoped, j)
    requires run.slots[i].permit.state == Reserved && scoped.slots[j].permit.state == Reserved
    requires Roomy(run, OpStart(i, now, startPersists)) && Roomy(scoped, OpStart(j, later, scopedPersists))
    requires var run1 := StartSlot(run, i, now, startPersists).0;
             RoomyRun(run1, between) && Roomy(Run(run1, between), OpRollback(i, rollbackPersists))
    requires forall op :: op in between ==> !Touches(op, i)
    ensures var pair := StartPair(run, i, scoped, j, now, later, startPersists, scopedPersists, rollbackPersists, between);
            var (run1, error) := StartSlot(run, i, now, startPersists);
            && Usable(Run(run1, between), i)
            && PairOutcome(pair, i, j, error.Some? || Undoable(Run(run1, between), i, rollbackPersists))
  {
    StartConserves(run, i, now, startPersists);
    StartEnds(run, i, now, startPersists);
    var (run1, error) := StartSlot(run, i, now, startPersists);
    OthersLeaveSlot(run1, between, i);
    if error.None? {
      ScopedOutcome(run1, i, scoped, j, later, scopedPersists, rollbackPersists, between);
    }
  }
}
