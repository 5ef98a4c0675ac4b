/** The provider limits in terms of the window's counters: exactly when a request is
    granted or started, what it charges and which error it meets otherwise. */
module RateLimits {
  import opened Prelude
  import opened RateWindow

  /** The window a request at this time meets: a new one if none was opened yet or the
      last one is a minute old. */
  predicate RollsOver(window: Window, now: int) {
    window.startedAt == 0 || window.startedAt + 60_000 <= now
  }

  function Met(window: Window, now: int): Window {
    if RollsOver(window, now) then Window(now, 0, 0, 0, 0, 0) else window
  }

  /** The limits are 64-bit numbers. */
  predicate Representable(signals: Signals) {
    && (signals.requestsPerMinute.Some? ==> signals.requestsPerMinute.value <= U64_MAX)
    && (signals.tokensPerMinute.Some? ==> signals.tokensPerMinute.value <= U64_MAX)
  }

  predicate RequestsLeft(w: Window, signals: Signals) {
    signals.requestsPerMinute.Some? ==> w.requests + w.reservedRequests < signals.requestsPerMinute.value
  }

  /** The largest 64-bit number is no limit: a sum beyond it saturates there. */
  predicate TokensLeft(w: Window, signals: Signals, tokens: nat) {
    signals.tokensPerMinute.Some? ==>
      w.tokens + tokens <= signals.tokensPerMinute.value || signals.tokensPerMinute.value == U64_MAX
  }

  function Capped(n: nat): nat {
    if n <= U64_MAX then n else U64_MAX
  }

  /** The error a new charge meets, if any: requests are looked at before tokens. */
  function LimitHit(w: Window, signals: Signals, tokens: nat): (r: Option<RateError>)
    ensures r.None? <==> RequestsLeft(w, signals) && TokensLeft(w, signals, tokens)
    ensures r == Some(RequestsExhausted) <==> !RequestsLeft(w, signals)
  {
    if !RequestsLeft(w, signals) then Some(RequestsExhausted)
    else if !TokensLeft(w, signals, tokens) then Some(TokensExhausted)
    else None
  }

  lemma MetIsRefreshed(window: Window, signals: Signals, tokens: nat, now: int)
    requires Representable(signals)
    ensures Refresh(window, now) == Met(window, now) && (Expired(window, now) <==> RollsOver(window, now))
    ensures Exhausted(Met(window, now), signals, tokens) == LimitHit(Met(window, now), signals, tokens)
  {
  }

  /** An acquisition that persists is granted exactly when a request and its tokens are
      left in the window it meets; it then reserves one request and the tokens there. A
      refusal charges nothing. */
  lemma GrantedExactly(window: Window, signals: Signals, tokens: nat, now: int)
    requires Representable(signals)
    ensures var w := Met(window, now);
            AcquireRequest(window, signals, tokens, now, true) ==
            if !RequestsLeft(w, signals) then (w, Err(RequestsExhausted))
            else if !TokensLeft(w, signals, tokens) then (w, Err(TokensExhausted))
            else (Window(w.startedAt, w.requests, Capped(w.reservedRequests + 1), Capped(w.tokens + tokens),
                         Capped(w.reservedTokens + tokens), Capped(w.unstartedTokens + tokens)), Ok(w.startedAt))
  {
    MetIsRefreshed(window, signals, tokens, now);
  }

  /** A start in another window than the reservation's is a new charge there and passes
      the same limits. */
  lemma MovedStartExactly(window: Window, signals: Signals, tokens: nat, reservedIn: int, now: int)
    requires Representable(signals) && Met(window, now).startedAt != reservedIn
    ensures var w := Met(window, now);
            StartRequest(window, signals, tokens, reservedIn, now, true) ==
            if !RequestsLeft(w, signals) then (w, Err(RequestsExhausted))
            else if !TokensLeft(w, signals, tokens) then (w, Err(TokensExhausted))
            else (Window(w.startedAt, Capped(w.requests + 1), w.reservedRequests, Capped(w.tokens + tokens),
                         Capped(w.reservedTokens + tokens), w.unstartedTokens), Ok(w.startedAt))
  {
    MetIsRefreshed(window, signals, tokens, now);
  }

  /** A start in the reservation's own window turns the reservation into a request and
      passes no limit again. */
  lemma OwnStartExactly(window: Window, signals: Signals, tokens: nat, now: int)
    ensures var w := Met(window, now);
            StartRequest(window, signals, tokens, w.startedAt, now, true) ==
            if w.reservedRequests == 0 || w.unstartedTokens < tokens then (w, Err(NoLongerActive))
            else (Window(w.startedAt, Capped(w.requests + 1), w.reservedRequests - 1, w.tokens, w.reservedTokens,
                         w.unstartedTokens - tokens), Ok(w.startedAt))
  {
    MetIsRefreshed(window, Signals(None, None), tokens, now);
  }

  /** What cannot be persisted did not happen; a refusal in an unchanged window needs no
      persisting. */
  lemma UnpersistedChangesNothing(window: Window, signals: Signals, tokens: nat, reservedIn: int, now: int)
    requires Representable(signals)
    ensures var error := LimitHit(window, signals, tokens);
            AcquireRequest(window, signals, tokens, now, false) ==
            (window, Err(if !RollsOver(window, now) && error.Some? then error.value else PersistenceFailed))
    ensures Met(window, now).startedAt != reservedIn ==>
              StartRequest(window, signals, tokens, reservedIn, now, false) == (window, Err(PersistenceFailed))
  {
    MetIsRefreshed(window, signals, tokens, now);
  }

  /** A grant or a moved start leaves the window's tokens within the limit. */
  lemma GrantWithinTokens(window: Window, signals: Signals, tokens: nat, reservedIn: int, now: int, persists: bool,
                          limit: nat)
    requires signals.tokensPerMinute == Some(limit) && limit <= U64_MAX
    ensures var (w, answer) := AcquireRequest(window, signals, tokens, now, persists);
            answer.Ok? ==> w.tokens <= limit
    ensures var (w, answer) := StartRequest(window, signals, tokens, reservedIn, now, persists);
            Met(window, now).startedAt != reservedIn && answer.Ok? ==> w.tokens <= limit
  {
    MetIsRefreshed(window, Signals(None, signals.tokensPerMinute), tokens, now);
  }

  // ----- over runs -------------------------------------------------------------------------------

  /** The step grants an acquisition, or starts a reservation in another window. */
  predicate Charges(m: Manager, op: Operation) {
    && Step(m, op).1.None?
    && match op
       case OpAcquire(_, _, _) => true
       case OpStart(slot, now, _) =>
         Usable(m, slot) && m.slots[slot].permit.state == Reserved && m.slots[slot].permit.window != Met(m.window, now).startedAt
       case _ => false
  }

  predicate KeepsTokenLimit(op: Operation, limit: nat) {
    op.OpSignals? ==> op.signals.tokensPerMinute == Some(limit)
  }

  lemma StepKeepsSignals(m: Manager, op: Operation, limit: nat)
    requires m.signals.tokensPerMinute == Some(limit) && KeepsTokenLimit(op, limit)
    ensures Step(m, op).0.signals.tokensPerMinute == Some(limit)
  {
  }

  lemma ChargeWithinTokens(m: Manager, op: Operation, limit: nat)
    requires m.signals.tokensPerMinute == Some(limit) && limit <= U64_MAX && Charges(m, op)
    ensures Step(m, op).0.window.tokens <= limit
  {
    match op
    case OpAcquire(tokens, now, persists) =>
      GrantWithinTokens(m.window, m.signals, tokens, 0, now, persists, limit);
    case OpStart(slot, now, persists) =>
      var permit := m.slots[slot].permit;
      GrantWithinTokens(m.window, m.signals, permit.tokens, permit.window, now, persists, limit);
    case _ =>
  }

  /** In any run under a constant token limit, the window is within it right after every
      grant and every start that moved to another window. */
  lemma {:induction false} TokenLimitHolds(signals: Signals, ops: seq<Operation>, limit: nat, op: Operation)
    requires signals.tokensPerMinute == Some(limit) && limit <= U64_MAX
    requires forall o :: o in ops ==> KeepsTokenLimit(o, limit)
    ensures var m := Run(NewManager(signals), ops);
            m.signals.tokensPerMinute == Some(limit) && (Charges(m, op) ==> Step(m, op).0.window.tokens <= limit)
  {
    if ops != [] {
      InitLast(ops);
      assert forall o :: o in Init(ops) ==> o in ops;
      assert Last(ops) in ops;
      TokenLimitHolds(signals, Init(ops), limit, op);
      StepKeepsSignals(Run(NewManager(signals), Init(ops)), Last(ops), limit);
    }
    if Charges(Run(NewManager(signals), ops), op) {
      ChargeWithinTokens(Run(NewManager(signals), ops), op, limit);
    }
  }
}
