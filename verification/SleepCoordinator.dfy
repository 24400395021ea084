/** The sleep coordinator of internal/proxy/sleep_coordinator.go, one locked section or loop at a
    time. */
module SleepCoordination {

  /** The context and the done channel of one Start/Stop cycle. */
  class RunCycle {
    var cancelled: bool
    var done: bool

    constructor ()
      ensures !cancelled && !done
    {
      cancelled, done := false, false;
    }
  }

  /** What a select of the loop takes. */
  datatype Choice = ContextDone | Trigger(id: string) | TriggersClosed

  /** The triggers before the first choice that ends the loop. */
  function Handled(choices: seq<Choice>): seq<string> {
    if choices == [] || !choices[0].Trigger? then [] else [choices[0].id] + Handled(choices[1..])
  }

  lemma {:induction false} HandledSnoc(choices: seq<Choice>, i: nat)
    requires i < |choices| && forall j | 0 <= j < i :: choices[j].Trigger?
    ensures Handled(choices[..i + 1]) == Handled(choices[..i]) + (if choices[i].Trigger? then [choices[i].id] else [])
    ensures !choices[i].Trigger? ==> Handled(choices) == Handled(choices[..i])
  {
    if i > 0 {
      HandledSnoc(choices[1..], i - 1);
      assert choices[..i + 1][1..] == choices[1..][..i] && choices[..i][1..] == choices[1..][..i - 1];
    }
  }

  class SleepCoordinator {
    var running: bool
    var cycle: RunCycle?     // what the cancel and done fields belong to

    ghost predicate Valid()
      reads this
    {
      running ==> cycle != null
    }

    constructor ()
      ensures Valid() && !running && cycle == null
    {
      running, cycle := false, null;
    }

    /** Start refuses while running; otherwise it opens a fresh cycle. */
    method Start() returns (started: RunCycle?)
      requires Valid()
      modifies this
      ensures Valid() && running
      ensures old(running) ==> started == null && cycle == old(cycle)
      ensures !old(running) ==> started != null && fresh(started) && cycle == started && !started.cancelled && !started.done
    {
      if running {
        return null;
      }
      started := new RunCycle();
      cycle := started;
      running := true;
    }

    /** Stop takes the current cycle, so that no other Stop can, cancels it, and returns only when its
        goroutine has closed done; what that goroutine still receives until it sees the cancellation is
        given by remaining. */
    method Stop(remaining: seq<Choice>) returns (claimed: RunCycle?, slept: seq<string>)
      requires Valid()
      requires running ==> exists i | 0 <= i < |remaining| :: !remaining[i].Trigger?
      modifies this`running, if running then {cycle} else {}
      ensures Valid() && !running && cycle == old(cycle)
      ensures claimed == if old(running) then cycle else null
      ensures claimed != null ==> claimed.cancelled && claimed.done
      ensures slept == if old(running && !cycle.done) then Handled(remaining) else []
    {
      slept := [];
      if !running {
        return null, slept;
      }
      claimed := cycle;
      running := false;
      claimed.cancelled := true;
      if !claimed.done {
        slept := RunLoop(claimed, remaining);
      }
    }

    /** The loop: Sleep is called for every trigger, and its errors are only logged. When the loop ends
        it closes done of the cycle it was started for, whatever the fields say by then. */
    method RunLoop(own: RunCycle, choices: seq<Choice>) returns (slept: seq<string>)
      requires !own.done
      modifies own`done
      ensures slept == Handled(choices)
      ensures own.done <==> exists i | 0 <= i < |choices| :: !choices[i].Trigger?
    {
      slept := [];
      for i := 0 to |choices|
        invariant !own.done
        invariant forall j | 0 <= j < i :: choices[j].Trigger?
        invariant slept == Handled(choices[..i])
      {
        HandledSnoc(choices, i);
        match choices[i]
        case ContextDone =>
          own.done := true;
          return;
        case TriggersClosed =>
          own.done := true;
          return;
        case Trigger(id) =>
          slept := slept + [id];
      }
      assert choices[..|choices|] == choices;
    }
  }
}
