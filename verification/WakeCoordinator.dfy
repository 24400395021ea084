/** The code of internal/proxy/wake_coordinator.go that one thread runs between two moments at which
    others can interfere: the lock section of ensureWake, the poll loop, and performWake. */
module WakeCoordination {
  import opened Prelude
  import opened WakeProtocol

  /** What a wake's waiters look at: done is a channel that is closed once. */
  class InflightWake {
    var done: bool
    var err: Option<Verdict>

    constructor ()
      ensures !done && err.None?
    {
      done, err := false, None;
    }

    /** Waiters read the result without a lock once done is closed, so it has to be in place. */
    method CloseDone()
      requires !done && err.Some?
      modifies this`done
      ensures done
    {
      done := true;
    }
  }

  /** Which case a select of the poll loop takes; a tick reads the health store. */
  datatype Choice = ContextDone | CoordinatorClosed | Tick(healthy: bool)

  class WakeCoordinator {
    const p: Params
    var lastWoLAt: Option<int>
    var wakeInFlight: InflightWake?
    var sent: nat

    constructor (p: Params)
      requires p.Valid()
      ensures this.p == p && lastWoLAt.None? && wakeInFlight == null && sent == 0
    {
      this.p, lastWoLAt, wakeInFlight, sent := p, None, null, 0;
    }

    /** The lock section: two clock readings, one to compare with lastWoLAt, one to stamp it. */
    method EnsureWake(checkedAt: int, stampedAt: int) returns (decision: Decision, wake: InflightWake?)
      requires p.Valid() && checkedAt <= stampedAt
      modifies this`lastWoLAt, this`wakeInFlight
      ensures decision == Decide(old(wakeInFlight) != null, p.debounce, old(lastWoLAt), checkedAt)
      ensures decision.Join? <==> old(wakeInFlight) != null
      ensures decision.Start? <==>
                (old(wakeInFlight) == null &&
                 (p.debounce <= 0 || old(lastWoLAt).None? || old(lastWoLAt).value + p.debounce <= checkedAt))
      ensures decision.Join? ==> wake != null && wake == old(wakeInFlight)
      ensures decision.Debounced? ==> wake == null
      ensures !decision.Start? ==> lastWoLAt == old(lastWoLAt) && wakeInFlight == old(wakeInFlight)
      ensures decision.Start? ==> wake != null && fresh(wake) && !wake.done && wake.err.None?
      ensures decision.Start? ==> wakeInFlight == wake && lastWoLAt == Some(stampedAt)
      ensures decision.Start? ==> old(wakeInFlight) == null
      ensures decision.Start? && p.debounce > 0 && old(lastWoLAt).Some? ==>
                old(lastWoLAt).value + p.debounce <= stampedAt
    {
      if wakeInFlight != null {
        return Join, wakeInFlight;
      }
      if p.debounce > 0 && Since(lastWoLAt, checkedAt) < p.debounce {
        return Debounced, null;
      }
      wake := new InflightWake();
      wakeInFlight := wake;
      lastWoLAt := Some(stampedAt);
      decision := Start;
    }

    /** The poll loop over the choices its selects make. The first choice that is not an unhealthy
        tick decides; there is none while the loop still runs. */
    method PollUntilHealthyWithContext(choices: seq<Choice>) returns (result: Option<Verdict>, storeReads: nat)
      ensures result.None? <==> forall i | 0 <= i < |choices| :: choices[i] == Tick(false)
      ensures result.None? ==> storeReads == |choices|
      ensures result.Some? ==>
                exists i | 0 <= i < |choices| ::
                  && (forall j | 0 <= j < i :: choices[j] == Tick(false))
                  && choices[i] != Tick(false)
                  && (result == Some(Healthy) <==> choices[i].Tick?)
                  && storeReads == (if choices[i].Tick? then i + 1 else i)
    {
      result, storeReads := None, 0;
      for n := 0 to |choices|
        invariant storeReads == n
        invariant forall i | 0 <= i < n :: choices[i] == Tick(false)
      {
        match choices[n]
        case ContextDone =>
          return Some(TimedOut), storeReads;
        case CoordinatorClosed =>
          return Some(TimedOut), storeReads;
        case Tick(healthy) =>
          storeReads := storeReads + 1;
          if healthy {
            return Some(Healthy), storeReads;
          }
      }
    }

    /** The last lock section of a wake. A request that no longer finds the wake must not overtake the
        waiters, so done has to be closed. */
    method ClearInFlight()
      requires wakeInFlight != null && wakeInFlight.done
      modifies this`wakeInFlight
      ensures wakeInFlight == null
    {
      wakeInFlight := null;
    }

    /** The wake goroutine, for a poll that ends. An error of SendWoL is only logged, so its outcome
        has no part here. The result is written before done is closed, and the field is cleared last. */
    method PerformWake(wake: InflightWake, choices: seq<Choice>)
      requires wakeInFlight == wake && !wake.done && wake.err.None?
      requires exists i | 0 <= i < |choices| :: choices[i] != Tick(false)
      modifies this`wakeInFlight, this`sent, wake
      ensures wake.done && wake.err.Some? && wakeInFlight == null && sent == old(sent) + 1
      ensures exists i | 0 <= i < |choices| ::
                && (forall j | 0 <= j < i :: choices[j] == Tick(false))
                && choices[i] != Tick(false)
                && (wake.err == Some(Healthy) <==> choices[i] == Tick(true))
    {
      sent := sent + 1;
      var result, _ := PollUntilHealthyWithContext(choices);
      wake.err := result;
      wake.CloseDone();
      ClearInFlight();
    }
  }
}
