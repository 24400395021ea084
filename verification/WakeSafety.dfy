/** What every reachable state of the wake protocol satisfies, for any number of requests and
    wakes and any interleaving of their steps with the store, the clock, cancellations and Close. */
module WakeSafety {
  import opened Prelude
  import opened WakeProtocol

  predicate HoldsMu(pc: RequestPc) { pc.Deciding? || pc.Installing? }

  /** Installed in the coordinator and not cleared yet. */
  predicate Uncleared(pc: WakePc) { !pc.Cleared? && !pc.Exited? }

  predicate DoneClosed(pc: WakePc) { pc.Broadcast? || pc.Clearing? || pc.Cleared? || pc.Exited? }

  /** The goroutine has been spawned and has not run wg.Done. */
  predicate Live(pc: WakePc) { !pc.Installed? && !pc.Exited? }

  /** Mutual exclusion: the mutex is held by exactly the agent that is inside its lock section. */
  ghost predicate MutexInv(s: State) {
    && (s.mu.Held? ==>
          match s.mu.agent
          case ByRequest(r) => r < |s.requests|
          case ByWake(w) => w < |s.wakes|)
    && (forall r | 0 <= r < |s.requests| :: HoldsMu(s.requests[r].pc) <==> s.mu == Held(ByRequest(r)))
    && (forall w | 0 <= w < |s.wakes| :: s.wakes[w].pc.Clearing? <==> s.mu == Held(ByWake(w)))
  }

  /** Single flight: wakeInFlight names the one wake that is installed and not cleared. */
  ghost predicate FlightInv(s: State) {
    && (s.inFlight.Some? ==> s.inFlight.value < |s.wakes|)
    && (forall w | 0 <= w < |s.wakes| :: Uncleared(s.wakes[w].pc) <==> s.inFlight == Some(w))
    && (forall r | 0 <= r < |s.requests| :: s.requests[r].pc.Installing? ==> s.inFlight.None?)
  }

  /** A wake without a goroutine has exactly one request about to spawn it. */
  ghost predicate InstallerInv(s: State) {
    && (forall r | 0 <= r < |s.requests| && s.requests[r].pc.Spawning? ::
          var w := s.requests[r].pc.w;
          w < |s.wakes| && s.wakes[w].pc.Installed? && s.wakes[w].installer == r)
    && (forall w | 0 <= w < |s.wakes| && s.wakes[w].pc.Installed? ::
          var r := s.wakes[w].installer;
          r < |s.requests| && s.requests[r].pc == Spawning(w))
  }

  /** The read log holds a Healthy read by this agent at the remembered position. */
  predicate Backed(s: State, seen: Option<nat>, agent: Agent) {
    seen.Some? && seen.value < |s.log| && s.log[seen.value].healthy && s.log[seen.value].agent == agent
  }

  predicate WakeOk(s: State, w: nat)
    requires w < |s.wakes|
  {
    var k := s.wakes[w];
    && (k.err.Some? <==> k.pc.ErrSet? || DoneClosed(k.pc))
    && k.closes == (if DoneClosed(k.pc) then 1 else 0)
    && k.sends == (if k.pc.Installed? || k.pc.Spawned? then 0 else 1)
    && (k.pc == Returned(Healthy) || k.err == Some(Healthy) ==>
          Backed(s, k.seen, ByWake(w)) && s.log[k.seen.value].inFlight == Some(w))
  }

  predicate RequestOk(s: State, r: nat)
    requires r < |s.requests|
  {
    var q := s.requests[r];
    && q.forwards == (if q.pc.Forwarded? then 1 else 0)
    && q.refusals == (if q.pc.Refused? then 1 else 0)
    && (q.pc == Forwarded(Direct) || q.pc == Forwarded(OwnPoll) ==> Backed(s, q.seen, ByRequest(r)))
    && (q.pc.Waiting? ==> q.pc.w < |s.wakes|)
    && (q.pc.Forwarded? && q.pc.via.Joined? ==>
          q.pc.via.w < |s.wakes| && s.wakes[q.pc.via.w].closes == 1 &&
          s.wakes[q.pc.via.w].err == Some(Healthy))
    && (q.pc.Refused? && q.pc.why.WakeFailed? ==>
          q.pc.why.w < |s.wakes| && s.wakes[q.pc.why.w].closes == 1 &&
          s.wakes[q.pc.why.w].err == Some(TimedOut))
  }

  ghost predicate WakesInv(s: State) {
    forall w | 0 <= w < |s.wakes| :: WakeOk(s, w)
  }

  ghost predicate RequestsInv(s: State) {
    forall r | 0 <= r < |s.requests| :: RequestOk(s, r)
  }

  ghost predicate StampInv(p: Params, s: State) {
    && |s.stamps| == |s.wakes|
    && s.lastWoLAt == (if s.stamps == [] then None else Some(s.stamps[|s.stamps| - 1]))
    && (s.stamps != [] ==> s.stamps[|s.stamps| - 1] <= s.now)
    && (p.debounce > 0 ==> Spaced(s.stamps, p.debounce))
    && (forall r | 0 <= r < |s.requests| && s.requests[r].pc.Installing? ::
          p.debounce > 0 ==> Since(s.lastWoLAt, s.now) >= p.debounce)
  }

  function LiveCount(wakes: seq<Wake>): nat {
    if wakes == [] then 0
    else LiveCount(wakes[..|wakes| - 1]) + (if Live(wakes[|wakes| - 1].pc) then 1 else 0)
  }

  ghost predicate Inv(p: Params, s: State) {
    MutexInv(s) && FlightInv(s) && InstallerInv(s) && WakesInv(s) && RequestsInv(s) && StampInv(p, s) &&
    s.wg == LiveCount(s.wakes)
  }

  lemma MutexRequest(p: Params, s: State, r: nat, act: RequestAction)
    requires RequestCan(p, s, r, act) && MutexInv(s) && InstallerInv(s)
    ensures MutexInv(RequestStep(p, s, r, act))
  {}

  lemma MutexWake(p: Params, s: State, w: nat, move: WakeAction)
    requires WakeCan(p, s, w, move) && MutexInv(s) && InstallerInv(s)
    ensures MutexInv(WakeStep(p, s, w, move))
  {}

  lemma FlightRequest(p: Params, s: State, r: nat, act: RequestAction)
    requires RequestCan(p, s, r, act) && MutexInv(s) && FlightInv(s) && InstallerInv(s)
    ensures FlightInv(RequestStep(p, s, r, act))
  {}

  lemma FlightWake(p: Params, s: State, w: nat, move: WakeAction)
    requires WakeCan(p, s, w, move) && MutexInv(s) && FlightInv(s) && InstallerInv(s)
    ensures FlightInv(WakeStep(p, s, w, move))
  {}

  lemma InstallKeeps(p: Params, s: State, r: nat)
    requires RequestCan(p, s, r, Install) && InstallerInv(s)
    ensures InstallerInv(RequestStep(p, s, r, Install))
  {}

  lemma SpawnKeeps(p: Params, s: State, r: nat)
    requires RequestCan(p, s, r, Spawn) && InstallerInv(s)
    ensures InstallerInv(RequestStep(p, s, r, Spawn))
  {}

  lemma InstallerRequest(p: Params, s: State, r: nat, act: RequestAction)
    requires RequestCan(p, s, r, act) && InstallerInv(s)
    ensures InstallerInv(RequestStep(p, s, r, act))
  {
    if act.Install? {
      InstallKeeps(p, s, r);
    } else if act.Spawn? {
      SpawnKeeps(p, s, r);
    } else {
      assert !RequestAfter(p, s, r, act).pc.Spawning? || RequestAfter(p, s, r, act).pc == s.requests[r].pc;
    }
  }

  lemma InstallerWake(p: Params, s: State, w: nat, move: WakeAction)
    requires WakeCan(p, s, w, move) && InstallerInv(s)
    ensures InstallerInv(WakeStep(p, s, w, move))
  {}

  lemma WakesRequest(p: Params, s: State, r: nat, act: RequestAction)
    requires RequestCan(p, s, r, act) && FlightInv(s) && InstallerInv(s) && WakesInv(s)
    ensures WakesInv(RequestStep(p, s, r, act))
  {
    var t := RequestStep(p, s, r, act);
    forall i | 0 <= i < |t.wakes|
      ensures WakeOk(t, i)
    {
      assert i < |s.wakes| ==> WakeOk(s, i);
    }
  }

  lemma WakesWake(p: Params, s: State, w: nat, move: WakeAction)
    requires WakeCan(p, s, w, move) && FlightInv(s) && InstallerInv(s) && WakesInv(s)
    ensures WakesInv(WakeStep(p, s, w, move))
  {
    var t := WakeStep(p, s, w, move);
    forall i | 0 <= i < |t.wakes|
      ensures WakeOk(t, i)
    {
      assert i < |s.wakes| ==> WakeOk(s, i);
    }
  }

  lemma RequestsRequest(p: Params, s: State, r: nat, act: RequestAction)
    requires RequestCan(p, s, r, act) && InstallerInv(s) && FlightInv(s) && WakesInv(s) && RequestsInv(s)
    ensures RequestsInv(RequestStep(p, s, r, act))
  {
    var t := RequestStep(p, s, r, act);
    if act.ReturnDone? {
      var w := s.requests[r].pc.w;
      assert WakeOk(s, w);
      assert s.wakes[w].err.value.Healthy? || s.wakes[w].err.value.TimedOut?;
    }
    forall i | 0 <= i < |t.requests|
      ensures RequestOk(t, i)
    {
      assert RequestOk(s, i);
    }
  }

  /** Once wake.done is closed, neither it nor wake.err changes again. */
  lemma ResultStays(p: Params, s: State, e: Event, w: nat)
    requires Enabled(p, s, e) && InstallerInv(s) && WakesInv(s)
    requires w < |s.wakes| && s.wakes[w].closes == 1
    ensures w < |Next(p, s, e).wakes|
    ensures Next(p, s, e).wakes[w].closes == 1 && Next(p, s, e).wakes[w].err == s.wakes[w].err
  {
    assert WakeOk(s, w);
  }

  lemma RequestsWake(p: Params, s: State, w: nat, move: WakeAction)
    requires WakeCan(p, s, w, move) && InstallerInv(s) && WakesInv(s) && RequestsInv(s)
    ensures RequestsInv(WakeStep(p, s, w, move))
  {
    var t := WakeStep(p, s, w, move);
    assert WakeOk(s, w);
    forall i | 0 <= i < |t.requests|
      ensures RequestOk(t, i)
    {
      assert RequestOk(s, i);
    }
  }

  lemma StampInstall(p: Params, s: State, r: nat)
    requires RequestCan(p, s, r, Install) && p.Valid() && MutexInv(s) && StampInv(p, s)
    ensures StampInv(p, RequestStep(p, s, r, Install))
  {
    if p.debounce > 0 {
      SpacedSnoc(s.stamps, p.debounce, s.now);
    }
  }

  lemma StampRequest(p: Params, s: State, r: nat, act: RequestAction)
    requires RequestCan(p, s, r, act) && p.Valid() && MutexInv(s) && StampInv(p, s)
    ensures StampInv(p, RequestStep(p, s, r, act))
  {
    if act.Install? {
      StampInstall(p, s, r);
    }
  }

  lemma StampWake(p: Params, s: State, w: nat, move: WakeAction)
    requires WakeCan(p, s, w, move) && p.Valid() && MutexInv(s) && StampInv(p, s)
    ensures StampInv(p, WakeStep(p, s, w, move))
  {}

  lemma {:induction false} LiveCountUpdate(wakes: seq<Wake>, w: nat, k: Wake)
    requires w < |wakes|
    ensures LiveCount(wakes[w := k]) + (if Live(wakes[w].pc) then 1 else 0)
         == LiveCount(wakes) + (if Live(k.pc) then 1 else 0)
  {
    var last := |wakes| - 1;
    if w == last {
      assert wakes[w := k][..last] == wakes[..last];
    } else {
      LiveCountUpdate(wakes[..last], w, k);
      assert wakes[w := k][..last] == wakes[..last][w := k];
    }
  }

  lemma {:induction false} NoneLive(wakes: seq<Wake>, w: nat)
    requires w < |wakes| && LiveCount(wakes) == 0
    ensures !Live(wakes[w].pc)
  {
    if w < |wakes| - 1 {
      NoneLive(wakes[..|wakes| - 1], w);
    }
  }

  /** The wake whose record a step changes, if any. */
  function Subject(s: State, e: Event): Option<nat> {
    match e
    case OfRequest(r, Spawn) => if r < |s.requests| && s.requests[r].pc.Spawning? then Some(s.requests[r].pc.w) else None
    case OfWake(w, _) => Some(w)
    case _ => None
  }

  predicate Installs(e: Event) { e.OfRequest? && e.act.Install? }

  /** A step changes at most the record of one wake, or appends an installed one. */
  lemma WakesFrame(p: Params, s: State, e: Event)
    requires Enabled(p, s, e)
    ensures
      match Subject(s, e)
      case Some(w) => w < |s.wakes| && |Next(p, s, e).wakes| == |s.wakes| &&
                      Next(p, s, e).wakes == s.wakes[w := Next(p, s, e).wakes[w]]
      case None => if Installs(e) then |Next(p, s, e).wakes| == |s.wakes| + 1 &&
                                       Next(p, s, e).wakes[..|s.wakes|] == s.wakes &&
                                       Next(p, s, e).wakes[|s.wakes|].pc == Installed
                   else Next(p, s, e).wakes == s.wakes
  {}

  lemma LiveChange(p: Params, s: State, e: Event, w: nat)
    requires Enabled(p, s, e) && InstallerInv(s) && Subject(s, e) == Some(w)
    ensures w < |s.wakes| && w < |Next(p, s, e).wakes|
    ensures e.OfRequest? ==> !Live(s.wakes[w].pc) && Live(Next(p, s, e).wakes[w].pc)
    ensures e.OfWake? ==> Live(s.wakes[w].pc) && (Live(Next(p, s, e).wakes[w].pc) <==> !e.move.WaitGroupDone?)
  {}

  lemma WaitGroupStep(p: Params, s: State, e: Event)
    requires Enabled(p, s, e) && InstallerInv(s) && s.wg == LiveCount(s.wakes)
    ensures Next(p, s, e).wg == LiveCount(Next(p, s, e).wakes)
  {
    WakesFrame(p, s, e);
    var t := Next(p, s, e);
    match Subject(s, e)
    case Some(w) =>
      LiveCountUpdate(s.wakes, w, t.wakes[w]);
      LiveChange(p, s, e, w);
    case None =>
  }

  lemma EnvironmentStep(p: Params, s: State, e: Event)
    requires p.Valid() && Enabled(p, s, e) && Inv(p, s) && !e.OfRequest? && !e.OfWake?
    ensures Inv(p, Next(p, s, e))
  {
    var t := Next(p, s, e);
    forall w | 0 <= w < |t.wakes|
      ensures WakeOk(t, w)
    {
      assert WakeOk(s, w);
    }
    forall r | 0 <= r < |t.requests|
      ensures RequestOk(t, r)
    {
      assert r < |s.requests| ==> RequestOk(s, r);
    }
  }

  lemma InvStep(p: Params, s: State, e: Event)
    requires p.Valid() && Enabled(p, s, e) && Inv(p, s)
    ensures Inv(p, Next(p, s, e))
  {
    WaitGroupStep(p, s, e);
    match e
    case OfRequest(r, act) =>
      MutexRequest(p, s, r, act);
      FlightRequest(p, s, r, act);
      InstallerRequest(p, s, r, act);
      WakesRequest(p, s, r, act);
      RequestsRequest(p, s, r, act);
      StampRequest(p, s, r, act);
    case OfWake(w, move) =>
      MutexWake(p, s, w, move);
      FlightWake(p, s, w, move);
      InstallerWake(p, s, w, move);
      WakesWake(p, s, w, move);
      RequestsWake(p, s, w, move);
      StampWake(p, s, w, move);
    case _ => EnvironmentStep(p, s, e);
  }

  lemma {:induction false} InvRun(p: Params, s: State, es: seq<Event>)
    requires p.Valid() && Inv(p, s) && After(p, s, es).Some?
    ensures Inv(p, After(p, s, es).value)
  {
    if es != [] {
      InvRun(p, s, es[..|es| - 1]);
      InvStep(p, After(p, s, es[..|es| - 1]).value, es[|es| - 1]);
    }
  }

  ghost predicate Reachable(p: Params, s: State) {
    exists now: int, es: seq<Event> :: After(p, Init(now), es) == Some(s)
  }

  lemma ReachableInv(p: Params, s: State)
    requires p.Valid() && Reachable(p, s)
    ensures Inv(p, s)
  {
    var now: int, es: seq<Event> :| After(p, Init(now), es) == Some(s);
    InvRun(p, Init(now), es);
  }
}
