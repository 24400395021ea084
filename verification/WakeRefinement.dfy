/** The simple form of the wake protocol: a cell that holds at most one current flight. A caller that
    starts or joins a flight waits for it, and only a caller that waits for a flight can take its
    result, which is published once. */
module SingleFlightCell {
  import opened Prelude
  import opened WakeProtocol

  /** waiting leads from each waiting caller to its flight. */
  datatype Cell = Cell(current: Option<nat>, results: seq<Option<Verdict>>, waiting: map<nat, nat>)

  datatype Action =
    | Tau
    | StartFlight(r: nat)
    | JoinFlight(r: nat)
    | Publish(w: nat, v: Verdict)
    | Finish
    | Take(r: nat, w: nat, v: Verdict)
    | GiveUp(r: nat)

  predicate Allowed(c: Cell, a: Action) {
    match a
    case Tau => true
    case StartFlight(r) => c.current.None? && r !in c.waiting
    case JoinFlight(r) => c.current.Some? && r !in c.waiting
    case Publish(w, _) => c.current == Some(w) && w < |c.results| && c.results[w].None?
    case Finish => c.current.Some? && c.current.value < |c.results| && c.results[c.current.value].Some?
    case Take(r, w, v) => r in c.waiting && c.waiting[r] == w && w < |c.results| && c.results[w] == Some(v)
    case GiveUp(r) => r in c.waiting
  }

  function Do(c: Cell, a: Action): Cell
    requires Allowed(c, a)
  {
    match a
    case StartFlight(r) => Cell(Some(|c.results|), c.results + [None], c.waiting[r := |c.results|])
    case JoinFlight(r) => c.(waiting := c.waiting[r := c.current.value])
    case Publish(w, v) => c.(results := c.results[w := Some(v)])
    case Finish => c.(current := None)
    case Take(r, _, _) => c.(waiting := c.waiting - {r})
    case GiveUp(r) => c.(waiting := c.waiting - {r})
    case Tau => c
  }

  function DoAll(c: Cell, actions: seq<Action>): Option<Cell> {
    if actions == [] then Some(c)
    else
      match DoAll(c, actions[..|actions| - 1])
      case None => None
      case Some(d) => if Allowed(d, actions[|actions| - 1]) then Some(Do(d, actions[|actions| - 1])) else None
  }
}

/** Every run of the wake protocol is a run of the single-flight cell. */
module WakeRefinement {
  import opened Prelude
  import opened WakeProtocol
  import opened WakeSafety
  import opened SingleFlightCell

  function ResultAt(wakes: seq<Wake>, w: nat): Option<Verdict>
    requires w < |wakes|
  {
    if wakes[w].closes > 0 then wakes[w].err else None
  }

  /** The wake a request waits for; its installer waits for it from the moment of installation. */
  function WaitsFor(pc: RequestPc): Option<nat> {
    match pc
    case Spawning(w) => Some(w)
    case Waiting(w) => Some(w)
    case _ => None
  }

  function WaitingMap(requests: seq<Request>): map<nat, nat> {
    map r: nat | r < |requests| && WaitsFor(requests[r].pc).Some? :: WaitsFor(requests[r].pc).value
  }

  function Abstract(s: State): Cell {
    Cell(s.inFlight, seq(|s.wakes|, w requires 0 <= w < |s.wakes| => ResultAt(s.wakes, w)), WaitingMap(s.requests))
  }

  /** What a step looks like from outside. */
  function Observe(p: Params, s: State, e: Event): Action
    requires Enabled(p, s, e)
  {
    match e
    case OfRequest(r, Choose) => if s.inFlight.Some? then JoinFlight(r) else Tau
    case OfRequest(r, Install) => StartFlight(r)
    case OfRequest(r, ReturnDone) =>
      var w := s.requests[r].pc.w;
      Take(r, w, if s.wakes[w].err == Some(Healthy) then Healthy else TimedOut)
    case OfRequest(r, Interrupt) => GiveUp(r)
    case OfWake(w, CloseDone) => if s.wakes[w].err.Some? then Publish(w, s.wakes[w].err.value) else Tau
    case OfWake(w, ClearInFlight) => Finish
    case _ => Tau
  }

  function Trace(p: Params, s: State, es: seq<Event>): seq<Action>
    requires After(p, s, es).Some?
  {
    if es == [] then []
    else Trace(p, s, es[..|es| - 1]) + [Observe(p, After(p, s, es[..|es| - 1]).value, es[|es| - 1])]
  }

  predicate Publishes(e: Event) { e.OfWake? && e.move.CloseDone? }

  /** The step of a request changes what that request waits for, and nothing about the others. */
  lemma WaitingUpdate(requests: seq<Request>, r: nat, q: Request)
    requires r < |requests|
    ensures WaitingMap(requests[r := q])
         == match WaitsFor(q.pc)
            case Some(w) => WaitingMap(requests)[r := w]
            case None => WaitingMap(requests) - {r}
  {}

  lemma WaitingAppend(requests: seq<Request>, q: Request)
    requires WaitsFor(q.pc).None?
    ensures WaitingMap(requests + [q]) == WaitingMap(requests)
  {}

  lemma SameWaiting(requests: seq<Request>, r: nat, q: Request)
    requires r < |requests| && WaitsFor(q.pc) == WaitsFor(requests[r].pc)
    ensures WaitingMap(requests[r := q]) == WaitingMap(requests)
  {}

  /** What a request waits for after a step of its own. */
  lemma WaitsAfter(p: Params, s: State, r: nat, act: RequestAction)
    requires RequestCan(p, s, r, act)
    ensures WaitsFor(RequestAfter(p, s, r, act).pc)
         == match act
            case Choose => s.inFlight
            case Install => Some(|s.wakes|)
            case ReturnDone => None
            case Interrupt => None
            case _ => WaitsFor(s.requests[r].pc)
  {}

  lemma RequestWaiting(p: Params, s: State, r: nat, act: RequestAction)
    requires RequestCan(p, s, r, act) && Allowed(Abstract(s), Observe(p, s, OfRequest(r, act)))
    ensures WaitingMap(s.requests[r := RequestAfter(p, s, r, act)]) == Do(Abstract(s), Observe(p, s, OfRequest(r, act))).waiting
  {
    var q := RequestAfter(p, s, r, act);
    WaitsAfter(p, s, r, act);
    if WaitsFor(q.pc) == WaitsFor(s.requests[r].pc) {
      SameWaiting(s.requests, r, q);
    } else {
      WaitingUpdate(s.requests, r, q);
    }
  }

  /** The waiting callers after a step. */
  lemma WaitingStep(p: Params, s: State, e: Event)
    requires Enabled(p, s, e) && Allowed(Abstract(s), Observe(p, s, e))
    ensures WaitingMap(Next(p, s, e).requests) == Do(Abstract(s), Observe(p, s, e)).waiting
  {
    match e
    case OfRequest(r, act) => RequestWaiting(p, s, r, act);
    case Arrive => WaitingAppend(s.requests, Request(Arrived, None, 0, 0, false, 0));
    case _ =>
  }

  lemma ResultsFrame(p: Params, s: State, e: Event)
    requires Enabled(p, s, e) && Inv(p, s) && !Installs(e) && !Publishes(e)
    ensures Abstract(Next(p, s, e)).results == Abstract(s).results
  {
    WakesFrame(p, s, e);
    var t := Next(p, s, e);
    forall w | 0 <= w < |s.wakes|
      ensures ResultAt(t.wakes, w) == ResultAt(s.wakes, w)
    {
      assert WakeOk(s, w);
    }
  }

  /** The results after a step. */
  lemma ResultsStep(p: Params, s: State, e: Event)
    requires p.Valid() && Enabled(p, s, e) && Inv(p, s) && Allowed(Abstract(s), Observe(p, s, e))
    ensures Abstract(Next(p, s, e)).results == Do(Abstract(s), Observe(p, s, e)).results
  {
    if Installs(e) {
      assert Abstract(Next(p, s, e)).results == Abstract(s).results + [None];
    } else if Publishes(e) {
      assert WakeOk(s, e.w);
      assert Abstract(Next(p, s, e)).results == Abstract(s).results[e.w := s.wakes[e.w].err];
    } else {
      ResultsFrame(p, s, e);
    }
  }

  lemma RequestAllowed(p: Params, s: State, r: nat, act: RequestAction)
    requires p.Valid() && RequestCan(p, s, r, act) && Inv(p, s)
    ensures Allowed(Abstract(s), Observe(p, s, OfRequest(r, act)))
  {
    if act.ReturnDone? {
      var w := s.requests[r].pc.w;
      assert WakeOk(s, w);
      assert s.wakes[w].err.value.Healthy? || s.wakes[w].err.value.TimedOut?;
    }
  }

  lemma WakeAllowed(p: Params, s: State, w: nat, move: WakeAction)
    requires p.Valid() && WakeCan(p, s, w, move) && Inv(p, s)
    ensures Allowed(Abstract(s), Observe(p, s, OfWake(w, move)))
  {
    assert WakeOk(s, w);
  }

  lemma StepAllowed(p: Params, s: State, e: Event)
    requires p.Valid() && Enabled(p, s, e) && Inv(p, s)
    ensures Allowed(Abstract(s), Observe(p, s, e))
  {
    match e
    case OfRequest(r, act) => RequestAllowed(p, s, r, act);
    case OfWake(w, move) => WakeAllowed(p, s, w, move);
    case _ =>
  }

  lemma InFlightStep(p: Params, s: State, e: Event)
    requires p.Valid() && Enabled(p, s, e) && Inv(p, s) && Allowed(Abstract(s), Observe(p, s, e))
    ensures Next(p, s, e).inFlight == Do(Abstract(s), Observe(p, s, e)).current
  {}

  lemma StepRefines(p: Params, s: State, e: Event)
    requires p.Valid() && Enabled(p, s, e) && Inv(p, s)
    ensures Allowed(Abstract(s), Observe(p, s, e))
    ensures Do(Abstract(s), Observe(p, s, e)) == Abstract(Next(p, s, e))
  {
    StepAllowed(p, s, e);
    WaitingStep(p, s, e);
    ResultsStep(p, s, e);
    InFlightStep(p, s, e);
  }

  /** Refinement: seen through Observe, any run from any start is a run of the single-flight cell
      that begins with no flight and nobody waiting. */
  lemma {:induction false} RunRefines(p: Params, now: int, es: seq<Event>)
    requires p.Valid() && After(p, Init(now), es).Some?
    ensures DoAll(Cell(None, [], map[]), Trace(p, Init(now), es)) == Some(Abstract(After(p, Init(now), es).value))
  {
    if es == [] {
      assert Abstract(Init(now)) == Cell(None, [], map[]);
    } else {
      var front := es[..|es| - 1];
      RunRefines(p, now, front);
      InvRun(p, Init(now), front);
      StepRefines(p, After(p, Init(now), front).value, es[|es| - 1]);
      var trace := Trace(p, Init(now), es);
      assert trace[..|trace| - 1] == Trace(p, Init(now), front);
    }
  }
}
