/** What leads to which answer in the wake protocol, both ways: a Healthy read is followed by a forward,
    and a refusal has a reason that lies outside the protocol. */
module WakeAnswers {
  import opened Prelude
  import opened WakeProtocol
  import opened WakeSafety

  /** Whoever has read Healthy has acted on it: a request has forwarded, a wake ends Healthy. */
  ghost predicate ReadsActedOn(s: State) {
    forall i | 0 <= i < |s.log| && s.log[i].healthy ::
      match s.log[i].agent
      case ByRequest(r) =>
        r < |s.requests| && (s.requests[r].pc == Forwarded(Direct) || s.requests[r].pc == Forwarded(OwnPoll))
      case ByWake(w) =>
        w < |s.wakes| && (s.wakes[w].pc == Returned(Healthy) || s.wakes[w].err == Some(Healthy))
  }

  lemma RequestActs(p: Params, s: State, r: nat, act: RequestAction)
    requires RequestCan(p, s, r, act) && InstallerInv(s) && ReadsActedOn(s)
    ensures ReadsActedOn(RequestStep(p, s, r, act))
  {}

  lemma WakeActs(p: Params, s: State, w: nat, move: WakeAction)
    requires WakeCan(p, s, w, move) && WakesInv(s) && ReadsActedOn(s)
    ensures ReadsActedOn(WakeStep(p, s, w, move))
  {
    assert WakeOk(s, w);
  }

  lemma ActedStep(p: Params, s: State, e: Event)
    requires p.Valid() && Enabled(p, s, e) && Inv(p, s) && ReadsActedOn(s)
    ensures ReadsActedOn(Next(p, s, e))
  {
    match e
    case OfRequest(r, act) => RequestActs(p, s, r, act);
    case OfWake(w, move) => WakeActs(p, s, w, move);
    case _ =>
  }

  /** This long has passed since an instant, or the coordinator has been closed. */
  predicate OutOfTime(p: Params, s: State, began: int) {
    s.closed || began + p.wakeTimeout <= s.now
  }

  predicate WakeFair(p: Params, s: State, w: nat)
    requires w < |s.wakes|
  {
    var k := s.wakes[w];
    && (k.pc.Sending? || k.pc.Polling? ==> k.deadline == k.began + p.wakeTimeout)
    && (k.pc == Returned(TimedOut) || k.err == Some(TimedOut) ==> OutOfTime(p, s, k.began))
  }

  predicate RequestFair(p: Params, s: State, r: nat)
    requires r < |s.requests|
  {
    var q := s.requests[r];
    match q.pc
    case Preparing(deadline) => deadline == q.began + p.wakeTimeout
    case SelfPolling(deadline, _, _) => deadline == q.began + p.wakeTimeout
    case Refused(Interrupted(_)) => q.ended
    case Refused(PollFailed) => q.ended || OutOfTime(p, s, q.began)
    case _ => true
  }

  ghost predicate FairInv(p: Params, s: State) {
    && (forall w | 0 <= w < |s.wakes| :: WakeFair(p, s, w))
    && (forall r | 0 <= r < |s.requests| :: RequestFair(p, s, r))
  }

  lemma WakeStaysFair(p: Params, s: State, e: Event, w: nat)
    requires Enabled(p, s, e) && InstallerInv(s) && WakesInv(s) && w < |Next(p, s, e).wakes|
    requires w < |s.wakes| ==> WakeFair(p, s, w)
    ensures WakeFair(p, Next(p, s, e), w)
  {
    assert w < |s.wakes| ==> WakeOk(s, w);
  }

  lemma RequestStaysFair(p: Params, s: State, e: Event, r: nat)
    requires Enabled(p, s, e) && r < |Next(p, s, e).requests|
    requires r < |s.requests| ==> RequestFair(p, s, r)
    ensures RequestFair(p, Next(p, s, e), r)
  {}

  lemma FairStep(p: Params, s: State, e: Event)
    requires p.Valid() && Enabled(p, s, e) && Inv(p, s) && FairInv(p, s)
    ensures FairInv(p, Next(p, s, e))
  {
    var t := Next(p, s, e);
    forall w | 0 <= w < |t.wakes|
      ensures WakeFair(p, t, w)
    {
      WakeStaysFair(p, s, e, w);
    }
    forall r | 0 <= r < |t.requests|
      ensures RequestFair(p, t, r)
    {
      RequestStaysFair(p, s, e, r);
    }
  }

  lemma {:induction false} AnswersRun(p: Params, now: int, es: seq<Event>)
    requires p.Valid() && After(p, Init(now), es).Some?
    ensures ReadsActedOn(After(p, Init(now), es).value) && FairInv(p, After(p, Init(now), es).value)
  {
    if es != [] {
      var front := es[..|es| - 1];
      AnswersRun(p, now, front);
      InvRun(p, Init(now), front);
      ActedStep(p, After(p, Init(now), front).value, es[|es| - 1]);
      FairStep(p, After(p, Init(now), front).value, es[|es| - 1]);
    }
  }

  lemma ReachableAnswers(p: Params, s: State)
    requires p.Valid() && Reachable(p, s)
    ensures Inv(p, s) && ReadsActedOn(s) && FairInv(p, s)
  {
    ReachableInv(p, s);
    var now: int, es: seq<Event> :| After(p, Init(now), es) == Some(s);
    AnswersRun(p, now, es);
  }

  /** Health is acted on: a request whose own read found the server healthy has been forwarded, without
      a wake or by its own poll; a wake that found it healthy ends so. No refused request, and no wake
      that times out, has a Healthy read of its own. */
  lemma HealthIsActedOn(p: Params, s: State, i: nat)
    requires p.Valid() && Reachable(p, s) && i < |s.log| && s.log[i].healthy
    ensures
      match s.log[i].agent
      case ByRequest(r) =>
        r < |s.requests| && (s.requests[r].pc == Forwarded(Direct) || s.requests[r].pc == Forwarded(OwnPoll))
      case ByWake(w) =>
        && w < |s.wakes| && (s.wakes[w].pc == Returned(Healthy) || s.wakes[w].err == Some(Healthy))
        && s.wakes[w].err != Some(TimedOut)
  {
    ReachableAnswers(p, s);
    if s.log[i].agent.ByWake? {
      assert WakeOk(s, s.log[i].agent.w);
    }
  }

  /** A refusal has a reason. The request's own context has ended; or the coordinator has been closed; or
      a full wake timeout has passed, since the wake it joined called SendWoL or since it began a poll
      of its own. In the last two cases neither it nor that wake ever read Healthy. */
  lemma RefusalHasReason(p: Params, s: State, r: nat)
    requires p.Valid() && Reachable(p, s) && r < |s.requests| && s.requests[r].pc.Refused?
    ensures
      var q := s.requests[r];
      && (q.ended || s.closed ||
          match q.pc.why
          case WakeFailed(w) => w < |s.wakes| && s.wakes[w].began + p.wakeTimeout <= s.now
          case PollFailed => q.began + p.wakeTimeout <= s.now
          case Interrupted(_) => false)
      && (forall i | 0 <= i < |s.log| && s.log[i].healthy ::
            s.log[i].agent != ByRequest(r) && (q.pc.why.WakeFailed? ==> s.log[i].agent != ByWake(q.pc.why.w)))
  {
    ReachableAnswers(p, s);
    assert RequestFair(p, s, r) && RequestOk(s, r);
    var why := s.requests[r].pc.why;
    if why.WakeFailed? {
      assert WakeFair(p, s, why.w) && WakeOk(s, why.w);
    }
  }

  /** The decision in ensureWake, in terms of time: join a wake that is in flight; otherwise start one
      unless a positive debounce has not passed since the last start. */
  lemma DecisionIsExact(p: Params, inFlight: bool, lastWoLAt: Option<int>, now: int)
    requires p.Valid()
    ensures
      var decision := Decide(inFlight, p.debounce, lastWoLAt, now);
      && (decision.Join? <==> inFlight)
      && (decision.Start? <==> (!inFlight && (p.debounce <= 0 || lastWoLAt.None? || lastWoLAt.value + p.debounce <= now)))
  {}

  /** What a request that holds the mutex goes on to do. */
  lemma ChoiceIsExact(p: Params, s: State, r: nat)
    requires p.Valid() && Reachable(p, s) && Enabled(p, s, OfRequest(r, Choose))
    ensures
      var pc := Next(p, s, OfRequest(r, Choose)).requests[r].pc;
      && (s.inFlight.Some? ==> pc == Waiting(s.inFlight.value))
      && (pc == Installing <==>
            (s.inFlight.None? && (p.debounce <= 0 || s.lastWoLAt.None? || s.lastWoLAt.value + p.debounce <= s.now)))
      && (pc == Unlocked <==>
            (s.inFlight.None? && p.debounce > 0 && s.lastWoLAt.Some? && s.now < s.lastWoLAt.value + p.debounce))
  {
    DecisionIsExact(p, s.inFlight.Some?, s.lastWoLAt, s.now);
  }

  /** A poll sees a healthy server at its next tick, which is the end of the current interval: the wake
      then ends Healthy, and a request that polls on its own is forwarded. */
  lemma NextTickSucceeds(p: Params, s: State, w: nat, r: nat, to: int)
    requires p.Valid() && s.healthy && s.now <= to && w < |s.wakes| && r < |s.requests|
    ensures s.wakes[w].pc.Polling? && s.wakes[w].pc.start + s.wakes[w].polls * p.pollInterval + p.pollInterval <= to ==>
              Enabled(p, Next(p, s, Advance(to)), OfWake(w, PollRead)) &&
              Next(p, Next(p, s, Advance(to)), OfWake(w, PollRead)).wakes[w].pc == Returned(Healthy)
    ensures var pc := s.requests[r].pc;
            pc.SelfPolling? && pc.start + pc.polls * p.pollInterval + p.pollInterval <= to ==>
              Enabled(p, Next(p, s, Advance(to)), OfRequest(r, SelfPollRead)) &&
              Next(p, Next(p, s, Advance(to)), OfRequest(r, SelfPollRead)).requests[r].pc == Forwarded(OwnPoll)
  {
    PlusOne(s.wakes[w].polls, p.pollInterval);
    if s.requests[r].pc.SelfPolling? {
      PlusOne(s.requests[r].pc.polls, p.pollInterval);
    }
  }
}
