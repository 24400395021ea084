/** Shutdown of the wake protocol: what a wait group at zero means, what can still start after Close
    has returned, and that a wake whose done is closed leaves. */
module WakeShutdown {
  import opened Prelude
  import opened WakeProtocol
  import opened WakeSafety

  ghost predicate AllExited(s: State) {
    forall w | 0 <= w < |s.wakes| :: s.wakes[w].pc.Exited?
  }

  ghost predicate SomeLive(s: State) {
    exists w :: 0 <= w < |s.wakes| && Live(s.wakes[w].pc)
  }

  lemma {:induction false} LiveIsCounted(wakes: seq<Wake>)
    requires forall w | 0 <= w < |wakes| :: !Live(wakes[w].pc)
    ensures LiveCount(wakes) == 0
  {
    if wakes != [] {
      LiveIsCounted(wakes[..|wakes| - 1]);
    }
  }

  /** Close waits for the wait group. It is at zero exactly when no wake goroutine runs, though one may
      still be about to start. */
  lemma NothingRuns(p: Params, s: State)
    requires p.Valid() && Reachable(p, s)
    ensures s.wg == 0 <==> forall w | 0 <= w < |s.wakes| :: s.wakes[w].pc.Exited? || s.wakes[w].pc.Installed?
  {
    ReachableInv(p, s);
    NotCounted(s);
  }

  lemma NotCounted(s: State)
    requires s.wg == LiveCount(s.wakes)
    ensures s.wg == 0 <==> forall w | 0 <= w < |s.wakes| :: !Live(s.wakes[w].pc)
  {
    if s.wg == 0 {
      forall w | 0 <= w < |s.wakes|
        ensures !Live(s.wakes[w].pc)
      {
        NoneLive(s.wakes, w);
      }
    } else if forall w | 0 <= w < |s.wakes| :: !Live(s.wakes[w].pc) {
      LiveIsCounted(s.wakes);
    }
  }

  /** With the wait group at zero, every wake has exited and none is in flight exactly when no request
      is between its unlock and its spawn; and the mutex is free once all requests are answered. */
  lemma QuietAfterClose(p: Params, s: State)
    requires p.Valid() && Reachable(p, s) && s.wg == 0
    ensures AllExited(s) <==> forall r | 0 <= r < |s.requests| :: !s.requests[r].pc.Spawning?
    ensures AllExited(s) ==> s.inFlight.None?
    ensures (forall r | 0 <= r < |s.requests| :: s.requests[r].pc.Forwarded? || s.requests[r].pc.Refused?) ==> s.mu.Free?
  {
    ReachableInv(p, s);
    NotCounted(s);
    QuietState(s);
  }

  lemma QuietState(s: State)
    requires MutexInv(s) && FlightInv(s) && InstallerInv(s)
    requires forall w | 0 <= w < |s.wakes| :: !Live(s.wakes[w].pc)
    ensures AllExited(s) <==> forall r | 0 <= r < |s.requests| :: !s.requests[r].pc.Spawning?
    ensures AllExited(s) ==> s.inFlight.None?
    ensures (forall r | 0 <= r < |s.requests| :: s.requests[r].pc.Forwarded? || s.requests[r].pc.Refused?) ==> s.mu.Free?
  {
    if AllExited(s) {
      forall r | 0 <= r < |s.requests|
        ensures !s.requests[r].pc.Spawning?
      {}
    }
  }

  /** On its way to a spawn, or still able to get on it. */
  predicate Inside(pc: RequestPc) {
    pc.Arrived? || pc.Entering? || pc.Deciding? || pc.Installing? || pc.Spawning?
  }

  ghost predicate NoneInside(s: State) {
    forall r | 0 <= r < |s.requests| :: !Inside(s.requests[r].pc)
  }

  ghost predicate NoArrivals(es: seq<Event>) { Arrive !in es }

  /** es is a continuation of s without arrivals after which some wake goroutine runs. */
  ghost predicate Launches(p: Params, s: State, es: seq<Event>) {
    NoArrivals(es) && After(p, s, es).Some? && SomeLive(After(p, s, es).value)
  }

  lemma First(p: Params, s: State, e: Event, es: seq<Event>)
    requires Enabled(p, s, e)
    ensures After(p, s, [e] + es) == After(p, Next(p, s, e), es)
  {
    assert [e][..0] == [];
    AfterConcat(p, s, [e], es);
  }

  lemma Prefixed(p: Params, s: State, e: Event, es: seq<Event>)
    requires Enabled(p, s, e) && e != Arrive && Launches(p, Next(p, s, e), es)
    ensures Launches(p, s, [e] + es)
  {
    First(p, s, e, es);
  }

  lemma SpawnLaunches(p: Params, s: State, r: nat) returns (es: seq<Event>)
    requires Inv(p, s) && r < |s.requests| && s.requests[r].pc.Spawning?
    ensures Launches(p, s, es)
  {
    var e := OfRequest(r, Spawn);
    var t := Next(p, s, e);
    assert Live(t.wakes[s.requests[r].pc.w].pc);
    assert Launches(p, t, []);
    Prefixed(p, s, e, []);
    es := [e] + [];
  }

  lemma InstallLaunches(p: Params, s: State, r: nat) returns (es: seq<Event>)
    requires p.Valid() && Inv(p, s) && r < |s.requests| && s.requests[r].pc.Installing?
    ensures Launches(p, s, es)
  {
    var e := OfRequest(r, Install);
    InvStep(p, s, e);
    es := SpawnLaunches(p, Next(p, s, e), r);
    Prefixed(p, s, e, es);
    es := [e] + es;
  }

  /** Once the debounce window has passed, the request that holds the mutex decides to start. */
  lemma ChooseLaunches(p: Params, s: State, r: nat) returns (es: seq<Event>)
    requires p.Valid() && Inv(p, s) && r < |s.requests| && s.requests[r].pc.Deciding?
    requires s.inFlight.None? && (s.lastWoLAt.Some? ==> s.lastWoLAt.value + p.debounce <= s.now)
    ensures Launches(p, s, es)
  {
    var e := OfRequest(r, Choose);
    InvStep(p, s, e);
    es := InstallLaunches(p, Next(p, s, e), r);
    Prefixed(p, s, e, es);
    es := [e] + es;
  }

  lemma DecideLaunches(p: Params, s: State, r: nat) returns (es: seq<Event>)
    requires p.Valid() && Inv(p, s) && r < |s.requests| && s.requests[r].pc.Deciding? && s.wg == 0
    ensures Launches(p, s, es)
  {
    if s.inFlight.Some? {
      var w := s.inFlight.value;
      NoneLive(s.wakes, w);
      es := SpawnLaunches(p, s, s.wakes[w].installer);
    } else {
      var later := if s.lastWoLAt.Some? && s.lastWoLAt.value + p.debounce > s.now then s.lastWoLAt.value + p.debounce else s.now;
      var e := Advance(later);
      InvStep(p, s, e);
      es := ChooseLaunches(p, Next(p, s, e), r);
      Prefixed(p, s, e, es);
      es := [e] + es;
    }
  }

  /** Whoever holds the mutex while no goroutine runs is a request on its way to a decision. */
  lemma LockedLaunches(p: Params, s: State) returns (es: seq<Event>)
    requires p.Valid() && Inv(p, s) && s.mu.Held? && s.wg == 0
    ensures Launches(p, s, es)
  {
    if s.mu.agent.ByWake? {
      NoneLive(s.wakes, s.mu.agent.w);
      assert false;
    }
    var r := s.mu.agent.r;
    if s.requests[r].pc.Deciding? {
      es := DecideLaunches(p, s, r);
    } else {
      es := InstallLaunches(p, s, r);
    }
  }

  lemma EnterLaunches(p: Params, s: State, r: nat) returns (es: seq<Event>)
    requires p.Valid() && Inv(p, s) && r < |s.requests| && s.requests[r].pc.Entering? && s.wg == 0
    ensures Launches(p, s, es)
  {
    if s.mu.Held? {
      es := LockedLaunches(p, s);
    } else {
      var e := OfRequest(r, Lock);
      InvStep(p, s, e);
      es := DecideLaunches(p, Next(p, s, e), r);
      Prefixed(p, s, e, es);
      es := [e] + es;
    }
  }

  lemma ArriveLaunches(p: Params, s: State, r: nat) returns (es: seq<Event>)
    requires p.Valid() && Inv(p, s) && r < |s.requests| && s.requests[r].pc.Arrived? && s.wg == 0
    ensures Launches(p, s, es)
  {
    var e, f := StoreChanges(false), OfRequest(r, ReadStore);
    InvStep(p, s, e);
    var t := Next(p, s, e);
    InvStep(p, t, f);
    es := EnterLaunches(p, Next(p, t, f), r);
    Prefixed(p, t, f, es);
    Prefixed(p, s, e, [f] + es);
    es := [e] + ([f] + es);
  }

  lemma InsideLaunches(p: Params, s: State, r: nat) returns (es: seq<Event>)
    requires p.Valid() && Inv(p, s) && r < |s.requests| && Inside(s.requests[r].pc) && s.wg == 0
    ensures Launches(p, s, es)
  {
    match s.requests[r].pc
    case Arrived => es := ArriveLaunches(p, s, r);
    case Entering => es := EnterLaunches(p, s, r);
    case Deciding => es := DecideLaunches(p, s, r);
    case Installing => es := InstallLaunches(p, s, r);
    case Spawning(_) => es := SpawnLaunches(p, s, r);
  }

  /** With every wake exited and no request inside, nothing but an arrival changes that. */
  lemma StaysQuiet(p: Params, s: State, e: Event)
    requires Enabled(p, s, e) && e != Arrive && AllExited(s) && NoneInside(s)
    ensures AllExited(Next(p, s, e)) && NoneInside(Next(p, s, e))
  {}

  lemma {:induction false} QuietRun(p: Params, s: State, es: seq<Event>)
    requires After(p, s, es).Some? && NoArrivals(es) && AllExited(s) && NoneInside(s)
    ensures AllExited(After(p, s, es).value) && NoneInside(After(p, s, es).value)
  {
    if es != [] {
      assert es[|es| - 1] in es;
      QuietRun(p, s, es[..|es| - 1]);
      StaysQuiet(p, After(p, s, es[..|es| - 1]).value, es[|es| - 1]);
    }
  }

  /** What can start after Close. Close returns with the wait group at zero; from there, whatever
      happens short of a new request, no wake goroutine ever runs again, if and only if no request is
      on its way to a spawn: none has arrived without having read the store, waits for the mutex,
      holds it, or is about to spawn. */
  lemma NothingStartsExactly(p: Params, s: State)
    requires p.Valid() && Reachable(p, s) && s.wg == 0
    ensures (forall es | NoArrivals(es) && After(p, s, es).Some? :: !SomeLive(After(p, s, es).value)) <==> NoneInside(s)
  {
    ReachableInv(p, s);
    if NoneInside(s) {
      NotCounted(s);
      QuietState(s);
      forall es | NoArrivals(es) && After(p, s, es).Some?
        ensures !SomeLive(After(p, s, es).value)
      {
        QuietRun(p, s, es);
      }
    } else {
      var r :| 0 <= r < |s.requests| && Inside(s.requests[r].pc);
      var es := InsideLaunches(p, s, r);
      assert Launches(p, s, es);
    }
  }

  /** A request that arrives after Close has returned can start a wake: Close stops polls, not
      ensureWake. */
  lemma LateArrivalLaunches(p: Params, s: State) returns (es: seq<Event>)
    requires p.Valid() && Reachable(p, s) && s.wg == 0
    ensures NoArrivals(es) && After(p, s, [Arrive] + es).Some? && SomeLive(After(p, s, [Arrive] + es).value)
    ensures s.closed ==> After(p, s, [Arrive] + es).value.closed
  {
    ReachableInv(p, s);
    InvStep(p, s, Arrive);
    es := ArriveLaunches(p, Next(p, s, Arrive), |s.requests|);
    First(p, s, Arrive, es);
    if s.closed {
      StaysClosed(p, s, [Arrive] + es);
    }
  }

  lemma {:induction false} StaysClosed(p: Params, s: State, es: seq<Event>)
    requires s.closed && After(p, s, es).Some?
    ensures After(p, s, es).value.closed
  {
    if es != [] {
      StaysClosed(p, s, es[..|es| - 1]);
    }
  }

  /** Turns still needed after done is closed: the mutex, the field, the wait group. */
  function LeaveRank(s: State, w: nat): nat
    requires w < |s.wakes|
  {
    match s.wakes[w].pc
    case Broadcast => if s.mu.Free? then 3 else 4
    case Clearing => 2
    case Cleared => 1
    case _ => 0
  }

  /** The step that brings a finished wake out: its own, or that of the request holding the mutex. */
  function LeaveTurn(s: State, w: nat): Event
    requires w < |s.wakes|
  {
    match s.wakes[w].pc
    case Broadcast =>
      if s.mu.Held? && s.mu.agent.ByRequest? then OfRequest(s.mu.agent.r, Choose) else OfWake(w, Relock)
    case Clearing => OfWake(w, ClearInFlight)
    case _ => OfWake(w, WaitGroupDone)
  }

  /** A request that holds the mutex while this wake is in flight joins it and unlocks. */
  lemma LeaveTurnHelps(p: Params, s: State, w: nat)
    requires Inv(p, s) && w < |s.wakes| && DoneClosed(s.wakes[w].pc) && !s.wakes[w].pc.Exited?
    ensures Enabled(p, s, LeaveTurn(s, w)) && w < |Next(p, s, LeaveTurn(s, w)).wakes|
    ensures LeaveRank(Next(p, s, LeaveTurn(s, w)), w) < LeaveRank(s, w)
  {
    if s.wakes[w].pc.Broadcast? && s.mu.Held? {
      HolderDecides(s, w);
    }
  }

  lemma HolderDecides(s: State, w: nat)
    requires MutexInv(s) && FlightInv(s) && w < |s.wakes| && s.wakes[w].pc.Broadcast? && s.mu.Held?
    ensures s.inFlight == Some(w) && s.mu.agent.ByRequest? && s.requests[s.mu.agent.r].pc.Deciding?
  {
    assert Uncleared(s.wakes[w].pc);
    assert s.mu.agent.ByWake? ==> Uncleared(s.wakes[s.mu.agent.w].pc);
  }

  predicate Locks(e: Event) { e.OfRequest? && e.act.Lock? }

  /** Only a request that locks the mutex takes a finished wake further from its exit, by one turn. */
  lemma OnlyLocksHinder(p: Params, s: State, e: Event, w: nat)
    requires Enabled(p, s, e) && Inv(p, s) && w < |s.wakes| && DoneClosed(s.wakes[w].pc)
    ensures w < |Next(p, s, e).wakes| && DoneClosed(Next(p, s, e).wakes[w].pc)
    ensures LeaveRank(Next(p, s, e), w) <= LeaveRank(s, w) + (if Locks(e) then 1 else 0)
  {
    WakesFrame(p, s, e);
    if e.OfWake? && e.w != w && e.move.Relock? {
      assert Uncleared(s.wakes[e.w].pc);
    }
  }

  function LockCount(es: seq<Event>): nat {
    if es == [] then 0 else LockCount(es[..|es| - 1]) + (if Locks(es[|es| - 1]) then 1 else 0)
  }

  /** How many steps of a run are the leaving turn of wake w at the moment they are taken. */
  function LeaveTurns(p: Params, s: State, es: seq<Event>, w: nat): nat {
    if es == [] then 0
    else
      var front := es[..|es| - 1];
      var before := After(p, s, front);
      LeaveTurns(p, s, front, w) +
      (if before.Some? && w < |before.value.wakes| && !before.value.wakes[w].pc.Exited? &&
          es[|es| - 1] == LeaveTurn(before.value, w) then 1 else 0)
  }

  lemma {:induction false} LeaveTurnsLowerRank(p: Params, s: State, es: seq<Event>, w: nat)
    requires p.Valid() && Inv(p, s) && w < |s.wakes| && DoneClosed(s.wakes[w].pc) && After(p, s, es).Some?
    ensures w < |After(p, s, es).value.wakes| && DoneClosed(After(p, s, es).value.wakes[w].pc)
    ensures LeaveRank(After(p, s, es).value, w) + LeaveTurns(p, s, es, w) <= LeaveRank(s, w) + LockCount(es)
  {
    if es != [] {
      var front, e := es[..|es| - 1], es[|es| - 1];
      LeaveTurnsLowerRank(p, s, front, w);
      InvRun(p, s, front);
      var t := After(p, s, front).value;
      OnlyLocksHinder(p, t, e, w);
      if !t.wakes[w].pc.Exited? {
        LeaveTurnHelps(p, t, w);
      }
    }
  }

  /** Progress of the rest: once done is closed, a wake has cleared the field and left the wait group
      after four of its turns and one more for each request that locks the mutex in between; and
      its turn is always possible. */
  lemma EveryWakeLeaves(p: Params, s: State, es: seq<Event>, w: nat)
    requires p.Valid() && Reachable(p, s) && w < |s.wakes| && s.wakes[w].closes == 1 && After(p, s, es).Some?
    ensures w < |After(p, s, es).value.wakes|
    ensures
      var t := After(p, s, es).value;
      && LeaveTurns(p, s, es, w) <= 4 + LockCount(es)
      && (LeaveTurns(p, s, es, w) == 4 + LockCount(es) ==> t.wakes[w].pc.Exited?)
      && (!t.wakes[w].pc.Exited? ==> Enabled(p, t, LeaveTurn(t, w)))
  {
    ReachableInv(p, s);
    assert WakeOk(s, w);
    LeaveTurnsLowerRank(p, s, es, w);
    InvRun(p, s, es);
    if !After(p, s, es).value.wakes[w].pc.Exited? {
      LeaveTurnHelps(p, After(p, s, es).value, w);
    }
  }

  /** This request has taken the mutex. */
  predicate HasLocked(pc: RequestPc) {
    !pc.Arrived? && !pc.Entering? && pc != Forwarded(Direct)
  }

  function LockedCount(requests: seq<Request>): nat {
    if requests == [] then 0
    else LockedCount(requests[..|requests| - 1]) + (if HasLocked(requests[|requests| - 1].pc) then 1 else 0)
  }

  lemma {:induction false} LockedCountUpdate(requests: seq<Request>, r: nat, q: Request)
    requires r < |requests|
    ensures LockedCount(requests[r := q]) + (if HasLocked(requests[r].pc) then 1 else 0)
         == LockedCount(requests) + (if HasLocked(q.pc) then 1 else 0)
  {
    var last := |requests| - 1;
    if r == last {
      assert requests[r := q][..last] == requests[..last];
    } else {
      LockedCountUpdate(requests[..last], r, q);
      assert requests[r := q][..last] == requests[..last][r := q];
    }
  }

  lemma {:induction false} LockedAtMostAll(requests: seq<Request>)
    ensures LockedCount(requests) <= |requests|
  {
    if requests != [] {
      LockedAtMostAll(requests[..|requests| - 1]);
    }
  }

  lemma LockStep(p: Params, s: State, e: Event)
    requires Enabled(p, s, e)
    ensures LockedCount(Next(p, s, e).requests) == LockedCount(s.requests) + (if Locks(e) then 1 else 0)
  {
    match e
    case OfRequest(r, act) => LockedCountUpdate(s.requests, r, RequestAfter(p, s, r, act));
    case Arrive => assert Next(p, s, e).requests[..|s.requests|] == s.requests;
    case _ =>
  }

  /** Every request locks the mutex at most once, so what a finished wake has to wait out is bounded by
      the requests there are. */
  lemma {:induction false} LocksAreFew(p: Params, s: State, es: seq<Event>)
    requires After(p, s, es).Some?
    ensures LockCount(es) == LockedCount(After(p, s, es).value.requests) - LockedCount(s.requests)
    ensures LockCount(es) <= |After(p, s, es).value.requests|
  {
    if es != [] {
      LocksAreFew(p, s, es[..|es| - 1]);
      LockStep(p, After(p, s, es[..|es| - 1]).value, es[|es| - 1]);
    }
    LockedAtMostAll(After(p, s, es).value.requests);
  }

  /** A run in which the wait group is at zero, so that Close can return, while a request has
      released the mutex and is still to spawn its goroutine. */
  function RacyClose(): seq<Event> {
    [Arrive, OfRequest(0, ReadStore), OfRequest(0, Lock), OfRequest(0, Choose), OfRequest(0, Install),
     CloseCoordinator]
  }

  lemma RacyCloseFirstHalf(p: Params)
    ensures After(p, Init(0), RacyClose()[..3]) == Some(Deciding0())
  {
    var s0, es := Init(0), RacyClose();
    assert es[..0] == [];
    StepTo(p, s0, es, 0, s0);
    StepTo(p, s0, es, 1, Next(p, s0, Arrive));
    var s2 := Next(p, Next(p, s0, Arrive), OfRequest(0, ReadStore));
    StepTo(p, s0, es, 2, s2);
    assert Next(p, s2, OfRequest(0, Lock)).requests == [Request(Deciding, None, 0, 0, false, 0)];
    assert s2.log == [Read(ByRequest(0), false, None)];
  }

  function Deciding0(): State {
    State(0, Held(ByRequest(0)), None, None, false, false, 0, [Request(Deciding, None, 0, 0, false, 0)], [], [],
          [Read(ByRequest(0), false, None)])
  }

  lemma CloseDoesNotWaitForSpawn(p: Params)
    requires p.Valid()
    ensures
      var end := After(p, Init(0), RacyClose());
      end.Some? && end.value.closed && end.value.wg == 0 && Enabled(p, end.value, OfRequest(0, Spawn))
  {
    RacyCloseSecondHalf(p);
    var es := RacyClose();
    StepTo(p, Init(0), es, 5, Spawning0());
    assert es[..6] == es;
  }

  /** The wake is installed and the mutex released. */
  function Spawning0(): State {
    State(0, Free, Some(0), Some(0), false, false, 0, [Request(Spawning(0), None, 0, 0, false, 0)],
          [Wake(Installed, 0, 0, 0, 0, None, None, 0, 0)], [0], [Read(ByRequest(0), false, None)])
  }

  lemma RacyCloseSecondHalf(p: Params)
    requires p.Valid()
    ensures After(p, Init(0), RacyClose()[..5]) == Some(Spawning0())
  {
    RacyCloseFirstHalf(p);
    var es, s4 := RacyClose(), Deciding0().(mu := Held(ByRequest(0)), requests := [Request(Installing, None, 0, 0, false, 0)]);
    assert Next(p, Deciding0(), OfRequest(0, Choose)) == s4;
    StepTo(p, Init(0), es, 3, Deciding0());
    assert Next(p, s4, OfRequest(0, Install)) == Spawning0();
    StepTo(p, Init(0), es, 4, s4);
  }

  lemma StepTo(p: Params, s: State, es: seq<Event>, i: nat, t: State)
    requires i < |es| && After(p, s, es[..i]) == Some(t) && Enabled(p, t, es[i])
    ensures After(p, s, es[..i + 1]) == Some(Next(p, t, es[i]))
  {
    assert es[..i + 1][..i] == es[..i];
  }
}
