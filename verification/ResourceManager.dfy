/** The resource manager, its permits and the paired execution permit as objects.
    `persists` says whether the ledger takes the checkpoint of that update. */
module ResourceManagerObject {
  import opened Prelude
  import opened RateWindow

  class ResourceManager {
    var window: Window
    var signals: Signals

    constructor (signals: Signals)
      ensures window == NewManager(signals).window && this.signals == signals
    {
      window := Opened(0);
      this.signals := signals;
    }

    method AcquireProviderRequest(tokens: nat, now: int, persists: bool) returns (answer: Result<int, RateError>)
      modifies this`window
      ensures (window, answer) == AcquireRequest(old(window), signals, tokens, now, persists)
    {
      var before, changed := window, false;
      if Expired(window, now) {
        window := Opened(now);
        changed := true;
      }
      var error := Exhausted(window, signals, tokens);
      if error.Some? {
        answer := Err(error.value);
      } else {
        window := window.(reservedRequests := SaturatingAdd(window.reservedRequests, 1));
        window := window.(tokens := SaturatingAdd(window.tokens, tokens));
        window := window.(reservedTokens := SaturatingAdd(window.reservedTokens, tokens));
        window := window.(unstartedTokens := SaturatingAdd(window.unstartedTokens, tokens));
        answer := Ok(window.startedAt);
        changed := true;
      }
      if changed && !persists {
        window := before;
        answer := Err(PersistenceFailed);
      }
    }

    method MarkProviderRequestStarted(tokens: nat, reservedIn: int, now: int, persists: bool)
      returns (answer: Result<int, RateError>)
      modifies this`window
      ensures (window, answer) == StartRequest(old(window), signals, tokens, reservedIn, now, persists)
    {
      var before, changed := window, true;
      if Expired(window, now) {
        window := Opened(now);
      }
      if window.startedAt != reservedIn {
        var error := Exhausted(window, signals, tokens);
        if error.Some? {
          answer := Err(error.value);
        } else {
          window := window.(requests := SaturatingAdd(window.requests, 1));
          window := window.(tokens := SaturatingAdd(window.tokens, tokens));
          window := window.(reservedTokens := SaturatingAdd(window.reservedTokens, tokens));
          answer := Ok(window.startedAt);
        }
      } else if window.reservedRequests == 0 || window.unstartedTokens < tokens {
        answer := Err(NoLongerActive);
        changed := false;
      } else {
        window := window.(reservedRequests := window.reservedRequests - 1);
        window := window.(requests := SaturatingAdd(window.requests, 1));
        window := window.(unstartedTokens := window.unstartedTokens - tokens);
        answer := Ok(window.startedAt);
      }
      if changed && !persists {
        window := before;
        answer := Err(PersistenceFailed);
      }
    }

    method RollbackProviderRequestStart(tokens: nat, startedIn: int, persists: bool)
      returns (answer: Result<(), RateError>)
      modifies this`window
      ensures (window, answer) == RollbackRequest(old(window), tokens, startedIn, persists)
    {
      var before := window;
      if window.startedAt != startedIn { return Ok(()); }
      if window.requests == 0 { return Err(NoLongerActive); }
      window := window.(requests := window.requests - 1);
      window := window.(reservedRequests := SaturatingAdd(window.reservedRequests, 1));
      window := window.(unstartedTokens := SaturatingAdd(window.unstartedTokens, tokens));
      if !persists {
        window := before;
        return Err(PersistenceFailed);
      }
      return Ok(());
    }

    method CommitProviderTokens(reserved: nat, actual: nat, startedIn: int, persists: bool)
      returns (answer: Result<(), RateError>)
      modifies this`window
      ensures (window, answer) == CommitTokens(old(window), reserved, actual, startedIn, persists)
    {
      var before := window;
      if window.startedAt != startedIn { return Ok(()); }
      window := window.(tokens := SaturatingAdd(SaturatingSub(window.tokens, reserved), actual));
      window := window.(reservedTokens := SaturatingSub(window.reservedTokens, reserved));
      if !persists {
        window := before;
        return Err(PersistenceFailed);
      }
      return Ok(());
    }

    method ReleaseProviderTokens(reserved: nat, startedIn: int, persists: bool)
      modifies this`window
      ensures window == ReleaseTokens(old(window), reserved, startedIn, persists)
    {
      var before := window;
      if window.startedAt != startedIn { return; }
      window := window.(tokens := SaturatingSub(window.tokens, reserved));
      window := window.(reservedTokens := SaturatingSub(window.reservedTokens, reserved));
      if !persists { window := before; }
    }

    method ReleaseProviderReservation(reserved: nat, startedIn: int, persists: bool)
      modifies this`window
      ensures window == ReleaseReservation(old(window), reserved, startedIn, persists)
    {
      var before := window;
      if window.startedAt != startedIn { return; }
      window := window.(reservedRequests := SaturatingSub(window.reservedRequests, 1));
      window := window.(tokens := SaturatingSub(window.tokens, reserved));
      window := window.(reservedTokens := SaturatingSub(window.reservedTokens, reserved));
      window := window.(unstartedTokens := SaturatingSub(window.unstartedTokens, reserved));
      if !persists { window := before; }
    }
  }

  class ProviderRatePermit {
    const manager: ResourceManager
    const reservedTokens: nat
    var windowStartedAt: int
    var state: PermitState

    ghost function Value(): Permit
      reads this
    {
      Permit(reservedTokens, windowStartedAt, state)
    }

    constructor (manager: ResourceManager, tokens: nat, window: int)
      ensures this.manager == manager && Value() == Permit(tokens, window, Reserved)
    {
      this.manager := manager;
      reservedTokens := tokens;
      windowStartedAt := window;
      state := Reserved;
    }

    method MarkStarted(now: int, persists: bool) returns (error: Option<RateError>)
      modifies this, manager`window
      ensures Outcome(manager.window, Value(), error) ==
              RateWindow.MarkStarted(old(manager.window), manager.signals, old(Value()), now, persists)
    {
      if state == Reserved {
        var answer := manager.MarkProviderRequestStarted(reservedTokens, windowStartedAt, now, persists);
        if answer.Err? { return Some(answer.error); }
        windowStartedAt := answer.value;
        state := Started;
      }
      return None;
    }

    method RollbackStart(persists: bool) returns (error: Option<RateError>)
      modifies this, manager`window
      ensures Outcome(manager.window, Value(), error) ==
              RateWindow.RollbackStart(old(manager.window), old(Value()), persists)
    {
      if state == Started {
        var answer := manager.RollbackProviderRequestStart(reservedTokens, windowStartedAt, persists);
        if answer.Err? { return Some(answer.error); }
        state := Reserved;
      }
      return None;
    }

    method Commit(actual: nat, now: int, startPersists: bool, commitPersists: bool, dropPersists: bool)
      returns (error: Option<RateError>)
      modifies this, manager`window
      ensures Outcome(manager.window, Value(), error) ==
              CommitPermit(old(manager.window), manager.signals, old(Value()), actual, now,
                           startPersists, commitPersists, dropPersists)
    {
      error := MarkStarted(now, startPersists);
      if error.Some? {
        Drop(dropPersists);
        return;
      }
      var answer := manager.CommitProviderTokens(reservedTokens, actual, windowStartedAt, commitPersists);
      if answer.Err? {
        Drop(dropPersists);
        return Some(answer.error);
      }
      state := Completed;
      return None;
    }

    method Drop(persists: bool)
      modifies this, manager`window
      ensures manager.window == DropPermit(old(manager.window), old(Value()), persists)
      ensures Value() == old(Value()).(state := Completed)
    {
      match state {
        case Reserved => manager.ReleaseProviderReservation(reservedTokens, windowStartedAt, persists);
        case Started => manager.ReleaseProviderTokens(reservedTokens, windowStartedAt, persists);
        case Completed => return;
      }
      state := Completed;
    }
  }

  /** One permit on the Run's manager, one on the role's; either may be absent. */
  class ExecutionProviderRatePermit {
    var run: ProviderRatePermit?
    var scoped: ProviderRatePermit?

    /** Two different permits; their managers may be one. */
    ghost predicate Separate()
      reads this
    {
      run != null && scoped != null ==> run != scoped
    }

    /** The role's permit is started on its manager's window as the Run's start left it,
        and a rollback meets the Run's window as the failed start left it. */
    method MarkStarted(now: int, later: int, startPersists: bool, scopedPersists: bool, rollbackPersists: bool)
      returns (error: Option<RateError>)
      requires Separate()
      modifies run, scoped, if run != null then {run.manager} else {}, if scoped != null then {scoped.manager} else {}
      ensures run != null && scoped != null ==>
                var shared := old(run.manager == scoped.manager);
                var r := RateWindow.MarkStarted(old(run.manager.window), old(run.manager.signals), old(run.Value()),
                                                now, startPersists);
                var s := RateWindow.MarkStarted(if shared then r.window else old(scoped.manager.window),
                                                old(scoped.manager.signals), old(scoped.Value()), later, scopedPersists);
                var b := RateWindow.RollbackStart(if shared then s.window else r.window, r.permit, rollbackPersists);
                if r.error.Some? then
                  && error == r.error && run.Value() == r.permit && run.manager.window == r.window
                  && scoped.Value() == old(scoped.Value())
                  && (!shared ==> scoped.manager.window == old(scoped.manager.window))
                else if s.error.None? then
                  && error.None? && run.Value() == r.permit && scoped.Value() == s.permit
                  && scoped.manager.window == s.window && (!shared ==> run.manager.window == r.window)
                else
                  && error == (if b.error.Some? then b.error else s.error)
                  && run.Value() == b.permit && scoped.Value() == s.permit
                  && run.manager.window == b.window && (!shared ==> scoped.manager.window == s.window)
      ensures run != null && scoped == null ==>
                var r := RateWindow.MarkStarted(old(run.manager.window), old(run.manager.signals), old(run.Value()),
                                                now, startPersists);
                error == r.error && run.Value() == r.permit && run.manager.window == r.window
      ensures run == null && scoped != null ==>
                var s := RateWindow.MarkStarted(old(scoped.manager.window), old(scoped.manager.signals),
                                                old(scoped.Value()), later, scopedPersists);
                error == s.error && scoped.Value() == s.permit && scoped.manager.window == s.window
      ensures run == null && scoped == null ==> error.None?
    {
      if run != null {
        error := run.MarkStarted(now, startPersists);
        if error.Some? { return; }
      }
      if scoped != null {
        error := scoped.MarkStarted(later, scopedPersists);
        if error.Some? {
          if run != null {
            var rollback := run.RollbackStart(rollbackPersists);
            if rollback.Some? { return rollback; }
          }
          return;
        }
      }
      return None;
    }
  }
}
