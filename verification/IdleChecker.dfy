/** The idle tracker as a transition system: checker goroutines of any number of Start/Stop cycles, which
    read the clock before they take the lock, next to callers that record activity in the same two
    steps (internal/proxy/idle_tracker.go). */
module IdleChecker {
  import opened Prelude
  import opened Tables
  import opened IdleTracking
  import opened IdleTiming
  import opened Lifecycle

  /** What a checker goroutine does inside its loop. */
  datatype Work =
    | Ticking                  // in the select
    | Stamped(stamp: int)      // has read the clock; about to lock

  /** readings are activities whose caller has read the clock and not yet locked. ops logs the locked
      sections, in the order in which they ran. */
  datatype State = State(
    now: int,
    life: Life<Work>,
    readings: seq<(string, int)>,
    tracker: Tracker,
    ops: seq<Timed>)

  datatype Event =
    | Advance(to: int)
    | OfCallers(step: Step<Work>)
    | TickArrives(c: nat)
    | SweepLocked(c: nat, order: seq<string>)
    | LeaveLoop(c: nat)
    | CloseDone(c: nat)
    | ReadClock(id: string)
    | RecordLocked(i: nat)
    | RegisterLocked(id: string, idleTimeout: Duration)
    | TakeTriggers(count: nat)

  function Init(now: int, t: Tracker): State { State(now, NewLife(), [], t, []) }

  predicate WorkIsTicking(s: State, c: nat) { InLoop(s.life, c) && s.life.cycles[c].phase.work.Ticking? }

  predicate WorkIsStamped(s: State, c: nat) { InLoop(s.life, c) && s.life.cycles[c].phase.work.Stamped? }

  ghost predicate Enabled(s: State, e: Event) {
    match e
    case Advance(to) => s.now <= to
    case OfCallers(step) => !step.Works? && !step.LeavesLoop? && !step.ClosesDone? && Can(s.life, step)
    case TickArrives(c) => WorkIsTicking(s, c)
    case SweepLocked(c, order) => WorkIsStamped(s, c) && IsOrder(order, s.tracker.routes.Keys)
    case LeaveLoop(c) => WorkIsTicking(s, c) && s.life.cycles[c].cancelled
    case CloseDone(c) => Can(s.life, ClosesDone(c))
    case RecordLocked(i) => i < |s.readings|
    case _ => true
  }

  ghost function LifePart(s: State, e: Event): Option<Step<Work>>
    requires Enabled(s, e)
  {
    match e
    case OfCallers(step) => Some(step)
    case TickArrives(c) => Some(Works(c, Stamped(s.now)))
    case SweepLocked(c, _) => Some(Works(c, Ticking))
    case LeaveLoop(c) => Some(LeavesLoop(c))
    case CloseDone(c) => Some(ClosesDone(c))
    case _ => None
  }

  /** The locked section that an event is, if any. */
  ghost function Section(s: State, e: Event): Option<Op>
    requires Enabled(s, e)
  {
    match e
    case SweepLocked(c, order) => Some(Check(order, s.life.cycles[c].phase.work.stamp))
    case RecordLocked(i) => Some(Activity(s.readings[i].0, s.readings[i].1))
    case RegisterLocked(id, idleTimeout) => Some(Register(id, idleTimeout))
    case TakeTriggers(count) => Some(Take(count))
    case _ => None
  }

  ghost function Next(s: State, e: Event): State
    requires Enabled(s, e)
  {
    var op := Section(s, e);
    State(if e.Advance? then e.to else s.now,
          if LifePart(s, e).Some? then Do(s.life, LifePart(s, e).value, Ticking) else s.life,
          if e.ReadClock? then s.readings + [(e.id, s.now)]
          else if e.RecordLocked? then s.readings[..e.i] + s.readings[e.i + 1..]
          else s.readings,
          if op.Some? then Apply(s.tracker, op.value) else s.tracker,
          if op.Some? then s.ops + [Timed(op.value, s.now)] else s.ops)
  }

  ghost function After(s: State, es: seq<Event>): Option<State> {
    if es == [] then Some(s)
    else
      match After(s, es[..|es| - 1])
      case None => None
      case Some(t) => if Enabled(t, es[|es| - 1]) then Some(Next(t, es[|es| - 1])) else None
  }

  /** A locked section runs at most delay after its clock reading, and the timeout of this route is not
      changed. */
  ghost predicate Prompt(s: State, e: Event, delay: int, id: string) {
    Enabled(s, e) ==>
      match e
      case SweepLocked(c, _) => s.now <= s.life.cycles[c].phase.work.stamp + delay
      case RecordLocked(i) => s.now <= s.readings[i].1 + delay
      case RegisterLocked(other, idleTimeout) =>
        other == id ==> id in s.tracker.routes && idleTimeout == s.tracker.routes[id].idleTimeout
      case _ => true
  }

  ghost predicate PromptRun(s: State, es: seq<Event>, delay: int, id: string) {
    es == [] ||
    (PromptRun(s, es[..|es| - 1], delay, id) &&
     (After(s, es[..|es| - 1]).Some? ==> Prompt(After(s, es[..|es| - 1]).value, es[|es| - 1], delay, id)))
  }

  /** Clock readings do not lie ahead. */
  ghost predicate ReadingsPast(s: State) {
    && (forall c | 0 <= c < |s.life.cycles| && WorkIsStamped(s, c) :: s.life.cycles[c].phase.work.stamp <= s.now)
    && (forall i | 0 <= i < |s.readings| :: s.readings[i].1 <= s.now)
  }

  /** The log explains the tracker, and is well timed. */
  ghost predicate Logged(t: Tracker, s: State, delay: int, id: string) {
    && s.tracker == Run(t, s.ops) && WellTimed(t, s.ops, delay, id)
    && (s.ops != [] ==> s.ops[|s.ops| - 1].exec <= s.now)
  }

  lemma PastStep(s: State, e: Event)
    requires Enabled(s, e) && ReadingsPast(s)
    ensures ReadingsPast(Next(s, e))
  {
    var u := Next(s, e);
    forall c | 0 <= c < |u.life.cycles| && WorkIsStamped(u, c)
      ensures u.life.cycles[c].phase.work.stamp <= u.now
    {
      assert WorkIsStamped(s, c) || e == TickArrives(c);
    }
  }

  lemma LoggedSnoc(t: Tracker, ops: seq<Timed>, x: Timed, delay: int, id: string)
    requires WellTimed(t, ops, delay, id) && StampFits(x, delay)
    requires ops != [] ==> ops[|ops| - 1].exec <= x.exec
    requires x.op.Check? ==> IsOrder(x.op.order, Run(t, ops).routes.Keys)
    requires x.op.Register? && x.op.id == id ==>
               id in Run(t, ops).routes && x.op.idleTimeout == Run(t, ops).routes[id].idleTimeout
    ensures WellTimed(t, ops + [x], delay, id) && Run(t, ops + [x]) == Apply(Run(t, ops), x.op)
  {
    assert (ops + [x])[..|ops|] == ops;
  }

  lemma LoggedStep(t: Tracker, s: State, e: Event, delay: int, id: string)
    requires Enabled(s, e) && Prompt(s, e, delay, id) && ReadingsPast(s) && Logged(t, s, delay, id)
    ensures Logged(t, Next(s, e), delay, id)
  {
    var op := Section(s, e);
    if op.Some? {
      LoggedSnoc(t, s.ops, Timed(op.value, s.now), delay, id);
    }
  }

  lemma {:induction false} RunIsLogged(now: int, t: Tracker, es: seq<Event>, delay: int, id: string)
    requires After(Init(now, t), es).Some? && PromptRun(Init(now, t), es, delay, id)
    ensures ReadingsPast(After(Init(now, t), es).value) && Logged(t, After(Init(now, t), es).value, delay, id)
    ensures LifeInv(After(Init(now, t), es).value.life)
  {
    if es != [] {
      RunIsLogged(now, t, es[..|es| - 1], delay, id);
      var s, e := After(Init(now, t), es[..|es| - 1]).value, es[|es| - 1];
      PastStep(s, e);
      LoggedStep(t, s, e, delay, id);
      if LifePart(s, e).Some? {
        LifeStep(s.life, LifePart(s, e).value, Ticking);
      }
    }
  }

  /** Cooldown of the whole tracker: over any run with any Start and Stop calls, even with checker
      goroutines of several cycles at work at once, if every locked section runs within delay of its
      clock reading and the route's timeout is kept, consecutive triggers of the route have stamps at
      least idleTimeout - delay apart. */
  lemma CheckerSpacing(now: int, t: Tracker, es: seq<Event>, delay: int, id: string)
    requires id in t.routes && 0 < t.routes[id].idleTimeout && 0 <= delay && |t.ch| <= CAPACITY
    requires After(Init(now, t), es).Some? && PromptRun(Init(now, t), es, delay, id)
    ensures
      var s := After(Init(now, t), es).value;
      var stamps, gap := TriggerStamps(t, s.ops, id), t.routes[id].idleTimeout - delay;
      && s.tracker == Run(t, s.ops)
      && Spaced(stamps, gap)
      && (stamps != [] ==> (|stamps| - 1) * gap <= stamps[|stamps| - 1] - stamps[0])
  {
    RunIsLogged(now, t, es, delay, id);
    TriggersAreSpaced(t, After(Init(now, t), es).value.ops, delay, id);
  }

  lemma OrderOf(keys: set<string>) returns (order: seq<string>)
    ensures IsOrder(order, keys)
  {
    order := [];
    var todo := keys;
    while todo != {}
      invariant todo <= keys && Distinct(order) && Members(order) == keys - todo
    {
      var k :| k in todo;
      DistinctSnoc(order, k);
      order, todo := order + [k], todo - {k};
    }
  }

  /** A Stop that waits for a checker is not stuck: the goroutine can finish its sweep, leave, or close
      done, or has closed it. */
  lemma CheckerStopIsNotStuck(s: State, i: nat) returns (e: Event)
    requires LifeInv(s.life) && i < |s.life.callers| && s.life.callers[i].Awaiting?
    ensures Enabled(s, e)
    ensures
      var c := s.life.callers[i].c;
      && c < |s.life.cycles|
      && match s.life.cycles[c].phase
         case Looping(Ticking) => e == LeaveLoop(c)
         case Looping(Stamped(_)) => e.SweepLocked? && e.c == c
         case Leaving => e == CloseDone(c)
         case Gone => e == OfCallers(OfCaller(i, ReturnStop))
  {
    var c := s.life.callers[i].c;
    assert CallerOk(s.life, i);
    assert CycleOk(s.life, c);
    match s.life.cycles[c].phase
    case Looping(Ticking) => e := LeaveLoop(c);
    case Looping(Stamped(_)) =>
      var order := OrderOf(s.tracker.routes.Keys);
      e := SweepLocked(c, order);
    case Leaving => e := CloseDone(c);
    case Gone => e := OfCallers(OfCaller(i, ReturnStop));
  }

  /** A tick ends in a sweep for the moment of the tick: whatever time the lock takes, the sweep emits
      min(|E|, f) of the routes that were idle for their timeout when the clock was read, and restamps
      exactly these with that reading. */
  lemma TickSweeps(s: State, c: nat, to: int, order: seq<string>)
    requires Enabled(s, TickArrives(c)) && s.now <= to && IsOrder(order, s.tracker.routes.Keys) && |s.tracker.ch| <= 64
    ensures
      var s1 := Next(Next(s, TickArrives(c)), Advance(to));
      Enabled(s1, SweepLocked(c, order)) && SweepsExactly(s.tracker, s.now, Next(s1, SweepLocked(c, order)).tracker)
  {
    SweepIsExact(s.tracker, order, s.now);
    var s1 := Next(Next(s, TickArrives(c)), Advance(to));
    assert Next(s1, SweepLocked(c, order)).tracker == Sweep(s.tracker, order, s.now);
  }

  /** An activity is recorded for the moment at which its caller read the clock. */
  lemma ActivityIsRecorded(s: State, id: string, to: int)
    requires s.now <= to
    ensures
      var s1 := Next(Next(s, ReadClock(id)), Advance(to));
      Enabled(s1, RecordLocked(|s.readings|)) &&
      var u := Next(s1, RecordLocked(|s.readings|));
      && u.readings == s.readings && id in u.tracker.routes && u.tracker.routes[id].lastSeen == Some(s.now)
      && u.tracker.ch == s.tracker.ch && u.tracker.routes - {id} == s.tracker.routes - {id}
  {
    var s1 := Next(Next(s, ReadClock(id)), Advance(to));
    assert s1.readings[..|s.readings|] + s1.readings[|s.readings| + 1..] == s.readings;
  }

  /** A registration sets the timeout and keeps the last-seen time, and the consumer takes the oldest
      triggers; neither touches anything else. */
  lemma SectionsTakeEffect(s: State, id: string, idleTimeout: Duration, count: nat)
    requires count <= |s.tracker.ch|
    ensures
      var t, u := s.tracker, Next(s, RegisterLocked(id, idleTimeout)).tracker;
      && id in u.routes && u.routes[id].idleTimeout == idleTimeout
      && u.routes[id].lastSeen == (if id in t.routes then t.routes[id].lastSeen else None)
      && u.routes - {id} == t.routes - {id} && u.ch == t.ch
    ensures
      var u := Next(s, TakeTriggers(count)).tracker;
      s.tracker.ch == s.tracker.ch[..count] + u.ch && u.routes == s.tracker.routes
  {}
}
