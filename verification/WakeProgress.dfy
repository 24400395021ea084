/** Timing and progress of the wake protocol, in runs where a due deadline of a poll context is acted
    on before time moves past it. */
module WakeProgress {
  import opened Prelude
  import opened WakeProtocol
  import opened WakeSafety

  predicate UnderDeadline(pc: WakePc) { pc.Sending? || pc.Polling? }

  /** Time does not pass the deadline of a wake that is still sending or polling: SendWoL returns
      by the deadline of the context it was given, and the poll loop notices that it is over. */
  ghost predicate Timely(p: Params, s: State, e: Event) {
    e.Advance? ==> forall w | 0 <= w < |s.wakes| && UnderDeadline(s.wakes[w].pc) :: e.to <= s.wakes[w].deadline
  }

  ghost predicate TimelyRun(p: Params, s: State, es: seq<Event>) {
    es == [] ||
    (TimelyRun(p, s, es[..|es| - 1]) &&
     (After(p, s, es[..|es| - 1]).Some? ==> Timely(p, After(p, s, es[..|es| - 1]).value, es[|es| - 1])))
  }

  predicate WakeTimed(p: Params, s: State, w: nat)
    requires w < |s.wakes|
  {
    var k := s.wakes[w];
    && (k.pc.Installed? || k.pc.Spawned? || k.pc.Sending? ==> k.polls == 0)
    && (UnderDeadline(k.pc) ==> s.now <= k.deadline)
    && (k.pc.Sending? ==> k.deadline - p.wakeTimeout <= s.now)
    && (k.pc.Polling? ==> k.deadline - p.wakeTimeout <= k.pc.start && k.pc.start + k.polls * p.pollInterval <= s.now)
    && k.polls * p.pollInterval <= p.wakeTimeout
  }

  ghost predicate TimedInv(p: Params, s: State) {
    forall w | 0 <= w < |s.wakes| :: WakeTimed(p, s, w)
  }

  lemma OwnTimed(p: Params, s: State, w: nat, move: WakeAction)
    requires p.Valid() && WakeCan(p, s, w, move) && WakeTimed(p, s, w)
    ensures WakeTimed(p, WakeStep(p, s, w, move), w)
  {
    PlusOne(s.wakes[w].polls, p.pollInterval);
  }

  lemma TimedStep(p: Params, s: State, e: Event)
    requires p.Valid() && Enabled(p, s, e) && Timely(p, s, e) && InstallerInv(s) && TimedInv(p, s)
    ensures TimedInv(p, Next(p, s, e))
  {
    var t := Next(p, s, e);
    forall w | 0 <= w < |t.wakes|
      ensures WakeTimed(p, t, w)
    {
      if w < |s.wakes| {
        assert WakeTimed(p, s, w);
        if e.OfWake? && e.w == w {
          OwnTimed(p, s, w, e.move);
        }
      }
    }
  }

  lemma {:induction false} TimedRun(p: Params, s: State, es: seq<Event>)
    requires p.Valid() && Inv(p, s) && TimedInv(p, s)
    requires After(p, s, es).Some? && TimelyRun(p, s, es)
    ensures Inv(p, After(p, s, es).value) && TimedInv(p, After(p, s, es).value)
  {
    InvRun(p, s, es);
    if es != [] {
      TimedRun(p, s, es[..|es| - 1]);
      TimedStep(p, After(p, s, es[..|es| - 1]).value, es[|es| - 1]);
    }
  }

  /** Store reads made by an agent so far. */
  function ReadsBy(log: seq<Read>, agent: Agent): nat {
    if log == [] then 0
    else ReadsBy(log[..|log| - 1], agent) + (if log[|log| - 1].agent == agent then 1 else 0)
  }

  ghost predicate PollsLogged(s: State) {
    && (forall w | 0 <= w < |s.wakes| :: ReadsBy(s.log, ByWake(w)) == s.wakes[w].polls)
    && (forall w: nat | |s.wakes| <= w :: ReadsBy(s.log, ByWake(w)) == 0)
  }

  /** The reads of this agent that a step makes. */
  function ReadsNow(e: Event, agent: Agent): nat {
    match e
    case OfRequest(r, act) => if (act.ReadStore? || act.SelfPollRead?) && agent == ByRequest(r) then 1 else 0
    case OfWake(w, move) => if move.PollRead? && agent == ByWake(w) then 1 else 0
    case _ => 0
  }

  lemma LogGrows(p: Params, s: State, e: Event, agent: Agent)
    requires Enabled(p, s, e)
    ensures ReadsBy(Next(p, s, e).log, agent) == ReadsBy(s.log, agent) + ReadsNow(e, agent)
  {
    var t := Next(p, s, e);
    assert t.log != s.log ==> t.log[..|t.log| - 1] == s.log;
  }

  lemma PollsMatchReads(p: Params, s: State, e: Event, w: nat)
    requires Enabled(p, s, e) && InstallerInv(s) && w < |Next(p, s, e).wakes|
    ensures Next(p, s, e).wakes[w].polls == (if w < |s.wakes| then s.wakes[w].polls else 0) + ReadsNow(e, ByWake(w))
  {}

  lemma LogStep(p: Params, s: State, e: Event)
    requires Enabled(p, s, e) && InstallerInv(s) && PollsLogged(s)
    ensures PollsLogged(Next(p, s, e))
  {
    var t := Next(p, s, e);
    forall w: nat
      ensures ReadsBy(t.log, ByWake(w)) == if w < |t.wakes| then t.wakes[w].polls else 0
    {
      LogGrows(p, s, e, ByWake(w));
      if w < |t.wakes| {
        PollsMatchReads(p, s, e, w);
      }
    }
  }

  lemma {:induction false} LogRun(p: Params, now: int, es: seq<Event>)
    requires p.Valid() && After(p, Init(now), es).Some?
    ensures PollsLogged(After(p, Init(now), es).value)
  {
    if es != [] {
      LogRun(p, now, es[..|es| - 1]);
      InvRun(p, Init(now), es[..|es| - 1]);
      LogStep(p, After(p, Init(now), es[..|es| - 1]).value, es[|es| - 1]);
    }
  }

  /** How often the ticker can fire before the wake context ends. */
  function MaxPolls(p: Params): nat
    requires p.Valid()
  {
    p.wakeTimeout / p.pollInterval
  }

  lemma TicksFit(p: Params, polls: nat)
    requires p.Valid() && polls * p.pollInterval <= p.wakeTimeout
    ensures polls <= MaxPolls(p)
  {
    QuotientBound(polls, p.wakeTimeout, p.pollInterval);
  }

  /** A wake reads the health store at most wakeTimeout / pollInterval times. */
  lemma ReadBound(p: Params, now: int, es: seq<Event>, w: nat)
    requires p.Valid() && After(p, Init(now), es).Some? && TimelyRun(p, Init(now), es)
    ensures ReadsBy(After(p, Init(now), es).value.log, ByWake(w)) <= MaxPolls(p)
  {
    TimedRun(p, Init(now), es);
    LogRun(p, now, es);
    var s := After(p, Init(now), es).value;
    if w < |s.wakes| {
      assert WakeTimed(p, s, w);
      TicksFit(p, s.wakes[w].polls);
    }
  }

  /** Time does not pass the deadline of the poll that request r makes on its own. */
  predicate PromptFor(s: State, e: Event, r: nat) {
    e.Advance? && r < |s.requests| && (s.requests[r].pc.Preparing? || s.requests[r].pc.SelfPolling?) ==>
      e.to <= s.requests[r].pc.deadline
  }

  predicate PromptRun(p: Params, s: State, es: seq<Event>, r: nat) {
    es == [] ||
    (PromptRun(p, s, es[..|es| - 1], r) &&
     (After(p, s, es[..|es| - 1]).Some? ==> PromptFor(After(p, s, es[..|es| - 1]).value, es[|es| - 1], r)))
  }

  predicate RequestTimed(p: Params, now: int, pc: RequestPc) {
    match pc
    case Preparing(deadline) => deadline - p.wakeTimeout <= now <= deadline
    case SelfPolling(deadline, start, polls) =>
      now <= deadline && deadline - p.wakeTimeout <= start && start + polls * p.pollInterval <= now
    case _ => true
  }

  /** What the log holds of a request: one read on arrival, and those of its own poll. */
  predicate ReadsFit(limit: nat, count: nat, pc: RequestPc) {
    match pc
    case Arrived => count == 0
    case SelfPolling(_, _, polls) => count == polls + 1
    case Forwarded(_) => count <= limit + 1
    case Refused(_) => count <= limit + 1
    case _ => count == 1
  }

  predicate RequestReads(p: Params, s: State, r: nat)
    requires p.Valid()
  {
    if r < |s.requests| then
      RequestTimed(p, s.now, s.requests[r].pc) && ReadsFit(MaxPolls(p), ReadsBy(s.log, ByRequest(r)), s.requests[r].pc)
    else ReadsBy(s.log, ByRequest(r)) == 0
  }

  lemma SelfPollReads(p: Params, s: State, r: nat)
    requires p.Valid() && RequestCan(p, s, r, SelfPollRead) && RequestReads(p, s, r)
    ensures RequestReads(p, RequestStep(p, s, r, SelfPollRead), r)
  {
    LogGrows(p, s, OfRequest(r, SelfPollRead), ByRequest(r));
    var polls := s.requests[r].pc.polls;
    PlusOne(polls, p.pollInterval);
    TicksFit(p, polls + 1);
  }

  lemma SelfPollEnds(p: Params, s: State, r: nat)
    requires p.Valid() && RequestCan(p, s, r, SelfPollStop) && RequestReads(p, s, r)
    ensures RequestReads(p, RequestStep(p, s, r, SelfPollStop), r)
  {
    LogGrows(p, s, OfRequest(r, SelfPollStop), ByRequest(r));
    TicksFit(p, s.requests[r].pc.polls);
  }

  lemma OtherReads(p: Params, s: State, r: nat, act: RequestAction, limit: nat)
    requires p.wakeTimeout > 0 && RequestCan(p, s, r, act) && !act.SelfPollRead? && !act.SelfPollStop?
    requires RequestTimed(p, s.now, s.requests[r].pc)
    requires ReadsFit(limit, ReadsBy(s.log, ByRequest(r)), s.requests[r].pc)
    ensures
      var t := RequestStep(p, s, r, act);
      && RequestTimed(p, t.now, t.requests[r].pc)
      && ReadsFit(limit, ReadsBy(t.log, ByRequest(r)), t.requests[r].pc)
  {
    LogGrows(p, s, OfRequest(r, act), ByRequest(r));
    assert 0 * p.pollInterval == 0;
  }

  lemma OwnReads(p: Params, s: State, r: nat, act: RequestAction)
    requires p.Valid() && RequestCan(p, s, r, act) && RequestReads(p, s, r)
    ensures RequestReads(p, RequestStep(p, s, r, act), r)
  {
    if act.SelfPollRead? {
      SelfPollReads(p, s, r);
    } else if act.SelfPollStop? {
      SelfPollEnds(p, s, r);
    } else {
      OtherReads(p, s, r, act, MaxPolls(p));
    }
  }

  lemma ReadsStep(p: Params, s: State, e: Event, r: nat)
    requires p.Valid() && Enabled(p, s, e) && PromptFor(s, e, r) && RequestReads(p, s, r)
    ensures RequestReads(p, Next(p, s, e), r)
  {
    LogGrows(p, s, e, ByRequest(r));
    if e.OfRequest? && e.r == r {
      OwnReads(p, s, r, e.act);
    }
  }

  lemma {:induction false} ReadsRun(p: Params, now: int, es: seq<Event>, r: nat)
    requires p.Valid() && After(p, Init(now), es).Some? && PromptRun(p, Init(now), es, r)
    ensures RequestReads(p, After(p, Init(now), es).value, r)
  {
    if es != [] {
      ReadsRun(p, now, es[..|es| - 1], r);
      ReadsStep(p, After(p, Init(now), es[..|es| - 1]).value, es[|es| - 1], r);
    }
  }

  /** A request reads the store once on arrival and at most wakeTimeout / pollInterval times in the
      poll of its own. */
  lemma SelfReadBound(p: Params, now: int, es: seq<Event>, r: nat)
    requires p.Valid() && After(p, Init(now), es).Some? && PromptRun(p, Init(now), es, r)
    ensures ReadsBy(After(p, Init(now), es).value.log, ByRequest(r)) <= 1 + MaxPolls(p)
  {
    ReadsRun(p, now, es, r);
    var s := After(p, Init(now), es).value;
    if r < |s.requests| && s.requests[r].pc.SelfPolling? {
      TicksFit(p, s.requests[r].pc.polls);
    }
  }

  predicate PollDue(p: Params, s: State, k: Wake)
    requires k.pc.Polling?
  {
    s.closed || k.deadline <= s.now || NextTick(p, k.pc.start, k.polls) <= s.now
  }

  /** Turns still needed before done is closed. */
  function Rank(p: Params, s: State, w: nat): int
    requires p.Valid() && w < |s.wakes|
  {
    var k := s.wakes[w];
    match k.pc
    case Installed => 2 * MaxPolls(p) + 7
    case Spawned => 2 * MaxPolls(p) + 6
    case Sending => 2 * MaxPolls(p) + 5
    case Polling(_) => 2 * (MaxPolls(p) - k.polls) + (if PollDue(p, s, k) then 3 else 4)
    case Returned(_) => 2
    case ErrSet => 1
    case _ => 0
  }

  /** The step that brings wake w forward: its own next action, the spawn its installer owes it, or,
      when its poll has nothing to do yet, the passing of time to the next tick or the deadline. */
  function Turn(p: Params, s: State, w: nat): Event
    requires w < |s.wakes|
  {
    var k := s.wakes[w];
    match k.pc
    case Installed => OfRequest(k.installer, Spawn)
    case Spawned => OfWake(w, CallSend)
    case Sending => OfWake(w, SendReturns)
    case Polling(start) =>
      if s.closed || k.deadline <= s.now then OfWake(w, PollStop)
      else if NextTick(p, start, k.polls) <= s.now then OfWake(w, PollRead)
      else Advance(Min(k.deadline, NextTick(p, start, k.polls)))
    case Returned(_) => OfWake(w, SetErr)
    case _ => OfWake(w, CloseDone)
  }

  /** What a turn does for its wake: it is possible, it is timely, and it lowers the rank. */
  ghost predicate Helps(p: Params, s: State, w: nat, e: Event)
    requires p.Valid() && w < |s.wakes|
  {
    Enabled(p, s, e) && Timely(p, s, e) && w < |Next(p, s, e).wakes| &&
    0 <= Rank(p, Next(p, s, e), w) < Rank(p, s, w)
  }

  /** The only wake under a deadline is the one in flight, so time may pass up to its deadline. */
  lemma WaitHelps(p: Params, s: State, w: nat)
    requires p.Valid() && Inv(p, s) && TimedInv(p, s) && w < |s.wakes| && s.wakes[w].pc.Polling?
    requires Turn(p, s, w).Advance?
    ensures Helps(p, s, w, Turn(p, s, w))
  {
    assert WakeTimed(p, s, w) && Uncleared(s.wakes[w].pc);
    TicksFit(p, s.wakes[w].polls);
  }

  lemma ReadHelps(p: Params, s: State, w: nat)
    requires p.Valid() && TimedInv(p, s) && w < |s.wakes| && s.wakes[w].pc.Polling?
    requires Turn(p, s, w) == OfWake(w, PollRead)
    ensures Helps(p, s, w, OfWake(w, PollRead))
  {
    assert WakeTimed(p, s, w);
    PollsGrow(p, s, w);
  }

  lemma StopHelps(p: Params, s: State, w: nat)
    requires p.Valid() && TimedInv(p, s) && w < |s.wakes| && s.wakes[w].pc.Polling?
    requires Turn(p, s, w) == OfWake(w, PollStop)
    ensures Helps(p, s, w, OfWake(w, PollStop))
  {
    assert WakeTimed(p, s, w);
    TicksFit(p, s.wakes[w].polls);
  }

  lemma MoveHelps(p: Params, s: State, w: nat)
    requires p.Valid() && Inv(p, s) && TimedInv(p, s) && w < |s.wakes|
    requires !s.wakes[w].pc.Polling? && s.wakes[w].closes == 0
    ensures Helps(p, s, w, Turn(p, s, w))
  {
    assert WakeOk(s, w) && WakeTimed(p, s, w);
  }

  /** Until done is closed, the turn of a wake is always possible and brings it closer to the end. */
  lemma TurnHelps(p: Params, s: State, w: nat)
    requires p.Valid() && Inv(p, s) && TimedInv(p, s) && w < |s.wakes| && s.wakes[w].closes == 0
    ensures Helps(p, s, w, Turn(p, s, w))
  {
    if !s.wakes[w].pc.Polling? {
      MoveHelps(p, s, w);
    } else if Turn(p, s, w).Advance? {
      WaitHelps(p, s, w);
    } else if Turn(p, s, w) == OfWake(w, PollRead) {
      ReadHelps(p, s, w);
    } else {
      StopHelps(p, s, w);
    }
  }

  lemma PollsGrow(p: Params, s: State, w: nat)
    requires p.Valid() && w < |s.wakes| && WakeTimed(p, s, w) && Enabled(p, s, OfWake(w, PollRead))
    ensures s.wakes[w].polls + 1 <= MaxPolls(p)
  {
    TicksFit(p, s.wakes[w].polls + 1);
  }

  /** Steps about other wakes, requests, the store or the clock leave the rank alone or make the
      next poll due. */
  lemma OthersDoNotHinder(p: Params, s: State, e: Event, w: nat)
    requires p.Valid() && Enabled(p, s, e) && Inv(p, s) && w < |s.wakes| && Subject(s, e) != Some(w)
    ensures w < |Next(p, s, e).wakes| && Rank(p, Next(p, s, e), w) <= Rank(p, s, w)
  {
    WakesFrame(p, s, e);
    var t := Next(p, s, e);
    assert t.wakes[w] == s.wakes[w];
    assert s.now <= t.now && (s.closed ==> t.closed);
  }

  lemma OwnStepHelps(p: Params, s: State, w: nat, move: WakeAction)
    requires p.Valid() && WakeCan(p, s, w, move) && TimedInv(p, s)
    ensures Rank(p, WakeStep(p, s, w, move), w) <= Rank(p, s, w)
  {
    assert WakeTimed(p, s, w);
    TicksFit(p, s.wakes[w].polls);
    if move.PollRead? {
      PollsGrow(p, s, w);
    }
  }

  /** No step at all takes a wake further from the end. */
  lemma NothingHinders(p: Params, s: State, e: Event, w: nat)
    requires p.Valid() && Enabled(p, s, e) && Inv(p, s) && TimedInv(p, s) && w < |s.wakes|
    ensures w < |Next(p, s, e).wakes| && Rank(p, Next(p, s, e), w) <= Rank(p, s, w)
  {
    if Subject(s, e) != Some(w) {
      OthersDoNotHinder(p, s, e, w);
    } else if e.OfWake? {
      OwnStepHelps(p, s, w, e.move);
    }
  }

  /** How many steps of a run are the turn of wake w at the moment they are taken. */
  function Turns(p: Params, s: State, es: seq<Event>, w: nat): nat {
    if es == [] then 0
    else
      var front := es[..|es| - 1];
      var before := After(p, s, front);
      Turns(p, s, front, w) +
      (if before.Some? && w < |before.value.wakes| && before.value.wakes[w].closes == 0 &&
          es[|es| - 1] == Turn(p, before.value, w) then 1 else 0)
  }

  lemma {:induction false} TurnsLowerRank(p: Params, s: State, es: seq<Event>, w: nat)
    requires p.Valid() && Inv(p, s) && TimedInv(p, s) && w < |s.wakes|
    requires After(p, s, es).Some? && TimelyRun(p, s, es)
    ensures w < |After(p, s, es).value.wakes|
    ensures Rank(p, After(p, s, es).value, w) + Turns(p, s, es, w) <= Rank(p, s, w)
  {
    if es != [] {
      var front := es[..|es| - 1];
      TurnsLowerRank(p, s, front, w);
      TimedRun(p, s, front);
      var t := After(p, s, front).value;
      NothingHinders(p, t, es[|es| - 1], w);
      if t.wakes[w].closes == 0 {
        TurnHelps(p, t, w);
      }
    }
  }

  lemma RankBounds(p: Params, s: State, w: nat)
    requires p.Valid() && Inv(p, s) && TimedInv(p, s) && w < |s.wakes|
    ensures 0 <= Rank(p, s, w) <= 2 * MaxPolls(p) + 7
    ensures Rank(p, s, w) == 0 <==> s.wakes[w].closes == 1
  {
    assert WakeOk(s, w) && WakeTimed(p, s, w);
    TicksFit(p, s.wakes[w].polls);
  }

  ghost predicate TimelyReachable(p: Params, s: State) {
    exists now: int, es: seq<Event> :: After(p, Init(now), es) == Some(s) && TimelyRun(p, Init(now), es)
  }

  lemma TimelyInv(p: Params, s: State)
    requires p.Valid() && TimelyReachable(p, s)
    ensures Inv(p, s) && TimedInv(p, s)
  {
    var now: int, es: seq<Event> :| After(p, Init(now), es) == Some(s) && TimelyRun(p, Init(now), es);
    TimedRun(p, Init(now), es);
  }

  /** The turn of a wake is possible, and takes it closer to the end, as long as done is open. */
  lemma TurnIsPossible(p: Params, s: State, w: nat)
    requires p.Valid() && TimelyReachable(p, s) && w < |s.wakes| && s.wakes[w].closes == 0
    ensures Enabled(p, s, Turn(p, s, w)) && Timely(p, s, Turn(p, s, w))
    ensures w < |Next(p, s, Turn(p, s, w)).wakes|
    ensures Rank(p, Next(p, s, Turn(p, s, w)), w) < Rank(p, s, w)
  {
    TimelyInv(p, s);
    TurnHelps(p, s, w);
  }

  /** Progress: from any state of a timely run, a wake closes done after at most
      2 * (wakeTimeout / pollInterval) + 7 of its turns, whatever else happens in between and in
      whatever order. */
  lemma EveryWakeFinishes(p: Params, s: State, es: seq<Event>, w: nat)
    requires p.Valid() && TimelyReachable(p, s) && w < |s.wakes|
    requires After(p, s, es).Some? && TimelyRun(p, s, es)
    ensures w < |After(p, s, es).value.wakes|
    ensures Turns(p, s, es, w) <= 2 * MaxPolls(p) + 7
    ensures Turns(p, s, es, w) == 2 * MaxPolls(p) + 7 ==> After(p, s, es).value.wakes[w].closes == 1
  {
    TimelyInv(p, s);
    TurnsLowerRank(p, s, es, w);
    TimedRun(p, s, es);
    RankBounds(p, s, w);
    RankBounds(p, After(p, s, es).value, w);
  }

  /** A request that waits on a wake whose done is open has a goroutine working for it, or a request
      that is about to spawn one; once done is closed it can return at once. */
  lemma WaiterIsServed(p: Params, s: State, r: nat)
    requires p.Valid() && Reachable(p, s) && r < |s.requests| && s.requests[r].pc.Waiting?
    ensures
      var w := s.requests[r].pc.w;
      && w < |s.wakes|
      && (s.wakes[w].closes == 0 ==>
            Live(s.wakes[w].pc) ||
            (s.wakes[w].installer < |s.requests| && s.requests[s.wakes[w].installer].pc == Spawning(w)))
      && (Enabled(p, s, OfRequest(r, ReturnDone)) <==> s.wakes[w].closes == 1)
  {
    ReachableInv(p, s);
    assert RequestOk(s, r);
    assert WakeOk(s, s.requests[r].pc.w);
  }

  /** Whoever holds the mutex has a step of its own to take, and none of those steps waits. */
  lemma MutexHolderCanMove(p: Params, s: State)
    requires p.Valid() && Reachable(p, s) && s.mu.Held?
    ensures
      match s.mu.agent
      case ByRequest(r) => Enabled(p, s, OfRequest(r, Choose)) || Enabled(p, s, OfRequest(r, Install))
      case ByWake(w) => Enabled(p, s, OfWake(w, ClearInFlight))
  {
    ReachableInv(p, s);
  }
}
