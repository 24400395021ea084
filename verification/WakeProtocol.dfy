/** The wake protocol of internal/proxy/wake_coordinator.go as a transition system: any number of
    request handlers and wake goroutines over one coordinator, one step per atomic action.

    The mutex, the clock, the health store, the per-wake done channel, the coordinator's close
    signal and the wait group are all part of the state. The store changes arbitrarily, request
    contexts may be cancelled at any moment, and time only moves forward. */
module WakeProtocol {
  import opened Prelude

  /** Durations and instants are in nanoseconds. The constructor rejects a wake timeout that is not
      positive and replaces a poll interval that is not positive by a default. */
  datatype Params = Params(wakeTimeout: int, debounce: int, pollInterval: int) {
    predicate Valid() {
      wakeTimeout > 0 && pollInterval > 0 && debounce <= MAX_DURATION
    }
  }

  /** A nil error, or one that wraps ErrWakeTimeout. */
  datatype Verdict = Healthy | TimedOut

  datatype Decision = Join | Debounced | Start

  /** The three-way choice made while the mutex is held in ensureWake. */
  function Decide(waking: bool, debounce: int, lastWoLAt: Option<int>, now: int): Decision {
    if waking then Join
    else if debounce > 0 && Since(lastWoLAt, now) < debounce then Debounced
    else Start
  }

  datatype Agent = ByRequest(r: nat) | ByWake(w: nat)

  datatype Via = Direct | OwnPoll | Joined(w: nat)

  datatype Refusal = WakeFailed(w: nat) | Interrupted(w: nat) | PollFailed

  datatype RequestPc =
    | Arrived                    // about to read the health store
    | Entering                   // found unhealthy; about to lock
    | Deciding                   // holds the mutex
    | Installing                 // holds the mutex, decided to start a wake
    | Spawning(w: nat)           // unlocked; the goroutine does not run yet
    | Waiting(w: nat)            // in waitForWake
    | Unlocked                   // left the lock section inside the debounce window; about to create its poll context
    | Preparing(deadline: int)   // about to create the ticker
    | SelfPolling(deadline: int, start: int, polls: nat)
    | Forwarded(via: Via)
    | Refused(why: Refusal)

  /** seen is the position in the read log of the Healthy read this request relied on itself; ended says
      that its context has ended; began is when it began a poll of its own. */
  datatype Request = Request(pc: RequestPc, seen: Option<nat>, forwards: nat, refusals: nat, ended: bool, began: int)

  datatype WakePc =
    | Installed                  // recorded as in flight; not spawned yet
    | Spawned                    // goroutine runs; context not created yet
    | Sending                    // inside SendWoL
    | Polling(start: int)
    | Returned(verdict: Verdict) // the poll returned
    | ErrSet                     // wake.err written
    | Broadcast                  // wake.done closed; about to lock
    | Clearing                   // holds the mutex
    | Cleared                    // unlocked; about to run wg.Done
    | Exited

  datatype Wake = Wake(
    pc: WakePc,
    installer: nat,
    began: int,                  // when it called SendWoL
    deadline: int,
    polls: nat,
    seen: Option<nat>,
    err: Option<Verdict>,
    sends: nat,                  // calls of SendWoL
    closes: nat)                 // executions of close(wake.done)

  datatype Holder = Free | Held(agent: Agent)

  /** One health store read: who read what, and which wake was in flight at that moment. */
  datatype Read = Read(agent: Agent, healthy: bool, inFlight: Option<nat>)

  datatype State = State(
    now: int,
    mu: Holder,
    inFlight: Option<nat>,
    lastWoLAt: Option<int>,
    closed: bool,
    healthy: bool,
    wg: nat,
    requests: seq<Request>,
    wakes: seq<Wake>,
    stamps: seq<int>,            // every value lastWoLAt ever took, in order
    log: seq<Read>)

  datatype RequestAction =
    | ReadStore
    | Lock
    | Choose
    | Install
    | Spawn
    | ReturnDone
    | EndContext
    | Interrupt
    | BeginPoll
    | BeginTicks
    | SelfPollRead
    | SelfPollStop

  datatype WakeAction =
    | CallSend
    | SendReturns
    | PollRead
    | PollStop
    | SetErr
    | CloseDone
    | Relock
    | ClearInFlight
    | WaitGroupDone

  datatype Event =
    | Arrive
    | OfRequest(r: nat, act: RequestAction)
    | OfWake(w: nat, move: WakeAction)
    | StoreChanges(healthy: bool)
    | CloseCoordinator
    | Advance(to: int)

  function Init(now: int): State {
    State(now, Free, None, None, false, false, 0, [], [], [], [])
  }

  /** The instant before which the next read of a poll cannot happen: the k-th tick of a ticker is
      not delivered before k intervals have passed since the ticker was created. */
  function NextTick(p: Params, start: int, polls: nat): int {
    start + (polls + 1) * p.pollInterval
  }

  predicate RequestCan(p: Params, s: State, r: nat, act: RequestAction) {
    r < |s.requests| &&
    var pc := s.requests[r].pc;
    match act
    case ReadStore => pc.Arrived?
    case Lock => pc.Entering? && s.mu.Free?
    case Choose => pc.Deciding?
    case Install => pc.Installing?
    case Spawn => pc.Spawning? && pc.w < |s.wakes|
    case ReturnDone => pc.Waiting? && pc.w < |s.wakes| && s.wakes[pc.w].closes > 0
    case EndContext => !pc.Forwarded? && !pc.Refused?
    case Interrupt => pc.Waiting? && s.requests[r].ended
    case BeginPoll => pc.Unlocked?
    case BeginTicks => pc.Preparing?
    case SelfPollRead => pc.SelfPolling? && NextTick(p, pc.start, pc.polls) <= s.now
    case SelfPollStop => pc.SelfPolling? && (s.requests[r].ended || s.closed || pc.deadline <= s.now)
  }

  predicate WakeCan(p: Params, s: State, w: nat, move: WakeAction) {
    w < |s.wakes| &&
    var k := s.wakes[w];
    match move
    case CallSend => k.pc.Spawned?
    case SendReturns => k.pc.Sending?
    case PollRead => k.pc.Polling? && NextTick(p, k.pc.start, k.polls) <= s.now
    case PollStop => k.pc.Polling? && (s.closed || k.deadline <= s.now)
    case SetErr => k.pc.Returned?
    case CloseDone => k.pc.ErrSet?
    case Relock => k.pc.Broadcast? && s.mu.Free?
    case ClearInFlight => k.pc.Clearing?
    case WaitGroupDone => k.pc.Cleared?
  }

  predicate Enabled(p: Params, s: State, e: Event) {
    match e
    case OfRequest(r, act) => RequestCan(p, s, r, act)
    case OfWake(w, move) => WakeCan(p, s, w, move)
    case Advance(to) => s.now <= to
    case _ => true
  }

  /** downstream.ServeHTTP for this request. */
  function Forward(q: Request, via: Via): Request {
    q.(pc := Forwarded(via), forwards := q.forwards + 1)
  }

  /** http.Error with 503 for this request. */
  function Refuse(q: Request, why: Refusal): Request {
    q.(pc := Refused(why), refusals := q.refusals + 1)
  }

  function Decided(p: Params, s: State): Decision {
    Decide(s.inFlight.Some?, p.debounce, s.lastWoLAt, s.now)
  }

  /** The request's own record after its step. */
  function RequestAfter(p: Params, s: State, r: nat, act: RequestAction): Request
    requires RequestCan(p, s, r, act)
  {
    var q := s.requests[r];
    match act
    case ReadStore =>
      if s.healthy then Forward(q.(seen := Some(|s.log|)), Direct) else q.(pc := Entering)
    case Lock => q.(pc := Deciding)
    case Choose =>
      (match Decided(p, s)
       case Join => q.(pc := Waiting(if s.inFlight.Some? then s.inFlight.value else 0))
       case Debounced => q.(pc := Unlocked)
       case Start => q.(pc := Installing))
    case Install => q.(pc := Spawning(|s.wakes|))
    case Spawn => q.(pc := Waiting(q.pc.w))
    case ReturnDone =>
      if s.wakes[q.pc.w].err == Some(Healthy) then Forward(q, Joined(q.pc.w)) else Refuse(q, WakeFailed(q.pc.w))
    case EndContext => q.(ended := true)
    case Interrupt => Refuse(q, Interrupted(q.pc.w))
    case BeginPoll => q.(pc := Preparing(s.now + p.wakeTimeout), began := s.now)
    case BeginTicks => q.(pc := SelfPolling(q.pc.deadline, s.now, 0))
    case SelfPollRead =>
      if s.healthy then Forward(q.(seen := Some(|s.log|)), OwnPoll)
      else q.(pc := SelfPolling(q.pc.deadline, q.pc.start, q.pc.polls + 1))
    case SelfPollStop => Refuse(q, PollFailed)
  }

  /** One step of a request handler. Installing a wake records it as in flight, stamps lastWoLAt and
      unlocks in one lock section; the goroutine is added to the wait group and spawned later. */
  function RequestStep(p: Params, s: State, r: nat, act: RequestAction): State
    requires RequestCan(p, s, r, act)
  {
    s.(requests := s.requests[r := RequestAfter(p, s, r, act)],
       mu := if act.Lock? then Held(ByRequest(r))
             else if act.Install? || (act.Choose? && !Decided(p, s).Start?) then Free
             else s.mu,
       inFlight := if act.Install? then Some(|s.wakes|) else s.inFlight,
       lastWoLAt := if act.Install? then Some(s.now) else s.lastWoLAt,
       stamps := if act.Install? then s.stamps + [s.now] else s.stamps,
       wakes := if act.Install? then s.wakes + [Wake(Installed, r, 0, 0, 0, None, None, 0, 0)]
                else if act.Spawn? then
                  s.wakes[s.requests[r].pc.w := s.wakes[s.requests[r].pc.w].(pc := Spawned)]
                else s.wakes,
       log := if act.ReadStore? || act.SelfPollRead? then s.log + [Read(ByRequest(r), s.healthy, s.inFlight)]
              else s.log,
       wg := if act.Spawn? then s.wg + 1 else s.wg)
  }

  /** The wake's own record after a step of its goroutine. */
  function WakeAfter(p: Params, s: State, w: nat, move: WakeAction): Wake
    requires WakeCan(p, s, w, move)
  {
    var k := s.wakes[w];
    match move
    case CallSend => k.(pc := Sending, began := s.now, deadline := s.now + p.wakeTimeout, sends := k.sends + 1)
    case SendReturns => k.(pc := Polling(s.now))
    case PollRead =>
      if s.healthy then k.(pc := Returned(Healthy), seen := Some(|s.log|), polls := k.polls + 1)
      else k.(polls := k.polls + 1)
    case PollStop => k.(pc := Returned(TimedOut))
    case SetErr => k.(pc := ErrSet, err := Some(k.pc.verdict))
    case CloseDone => k.(pc := Broadcast, closes := k.closes + 1)
    case Relock => k.(pc := Clearing)
    case ClearInFlight => k.(pc := Cleared)
    case WaitGroupDone => k.(pc := Exited)
  }

  /** One step of a wake goroutine. The field is cleared without looking which wake it names. */
  function WakeStep(p: Params, s: State, w: nat, move: WakeAction): State
    requires WakeCan(p, s, w, move)
  {
    s.(wakes := s.wakes[w := WakeAfter(p, s, w, move)],
       mu := if move.Relock? then Held(ByWake(w)) else if move.ClearInFlight? then Free else s.mu,
       inFlight := if move.ClearInFlight? then None else s.inFlight,
       log := if move.PollRead? then s.log + [Read(ByWake(w), s.healthy, s.inFlight)] else s.log,
       wg := if move.WaitGroupDone? && s.wg > 0 then s.wg - 1 else s.wg)
  }

  function Next(p: Params, s: State, e: Event): State
    requires Enabled(p, s, e)
  {
    match e
    case Arrive => s.(requests := s.requests + [Request(Arrived, None, 0, 0, false, 0)])
    case OfRequest(r, act) => RequestStep(p, s, r, act)
    case OfWake(w, move) => WakeStep(p, s, w, move)
    case StoreChanges(h) => s.(healthy := h)
    case CloseCoordinator => s.(closed := true)
    case Advance(to) => s.(now := to)
  }

  /** The state after a sequence of steps from s, or None if some step was not possible. */
  function After(p: Params, s: State, es: seq<Event>): Option<State> {
    if es == [] then Some(s)
    else
      match After(p, s, es[..|es| - 1])
      case None => None
      case Some(t) => if Enabled(p, t, es[|es| - 1]) then Some(Next(p, t, es[|es| - 1])) else None
  }

  lemma {:induction false} AfterConcat(p: Params, s: State, es: seq<Event>, fs: seq<Event>)
    requires After(p, s, es).Some?
    ensures After(p, s, es + fs) == After(p, After(p, s, es).value, fs)
    decreases |fs|
  {
    if fs == [] {
      assert es + fs == es;
    } else {
      var last := |fs| - 1;
      AfterConcat(p, s, es, fs[..last]);
      assert (es + fs)[..|es + fs| - 1] == es + fs[..last];
    }
  }
}
