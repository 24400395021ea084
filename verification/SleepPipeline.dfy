/** The sleep pipeline as a transition system: the tracker's successful sends into the bounded trigger
    channel, and a coordinator whose Start and Stop are called by any number of callers at once
    (internal/proxy/sleep_coordinator.go). */
module SleepPipeline {
  import opened Prelude
  import opened IdleTracking
  import opened Lifecycle

  /** What a goroutine of the coordinator does inside its loop. */
  datatype Work =
    | Idle                   // in the select
    | Handling(id: string)   // received a trigger; Sleep not called yet
    | Sleeping               // inside Sleep

  datatype State = State(
    life: Life<Work>,
    ch: seq<string>,
    chClosed: bool,
    emitted: seq<string>,    // every trigger ever sent
    slept: seq<string>)      // every call of Sleep

  datatype Event =
    | Emit(id: string)
    | CloseTriggers
    | OfCallers(step: Step<Work>)
    | Receive(c: nat)
    | CallSleep(c: nat)
    | SleepReturns(c: nat)
    | LeaveLoop(c: nat)
    | CloseDone(c: nat)

  function Init(): State { State(NewLife(), [], false, [], []) }

  predicate WorkIs(s: State, c: nat, work: Work) {
    c < |s.life.cycles| && s.life.cycles[c].phase == Looping(work)
  }

  predicate Enabled(s: State, e: Event) {
    match e
    case Emit(_) => |s.ch| < CAPACITY && !s.chClosed
    case CloseTriggers => true
    case OfCallers(step) => !step.Works? && !step.LeavesLoop? && !step.ClosesDone? && Can(s.life, step)
    case Receive(c) => WorkIs(s, c, Idle) && s.ch != []
    case CallSleep(c) => InLoop(s.life, c) && s.life.cycles[c].phase.work.Handling?
    case SleepReturns(c) => WorkIs(s, c, Sleeping)
    case LeaveLoop(c) => WorkIs(s, c, Idle) && (s.life.cycles[c].cancelled || (s.chClosed && s.ch == []))
    case CloseDone(c) => Can(s.life, ClosesDone(c))
  }

  /** The lifecycle step that an event is, if any. */
  function LifePart(s: State, e: Event): Option<Step<Work>>
    requires Enabled(s, e)
  {
    match e
    case Emit(_) => None
    case CloseTriggers => None
    case OfCallers(step) => Some(step)
    case Receive(c) => Some(Works(c, Handling(s.ch[0])))
    case CallSleep(c) => Some(Works(c, Sleeping))
    case SleepReturns(c) => Some(Works(c, Idle))
    case LeaveLoop(c) => Some(LeavesLoop(c))
    case CloseDone(c) => Some(ClosesDone(c))
  }

  function Next(s: State, e: Event): State
    requires Enabled(s, e)
  {
    State(if LifePart(s, e).Some? then Do(s.life, LifePart(s, e).value, Idle) else s.life,
          if e.Emit? then s.ch + [e.id] else if e.Receive? then s.ch[1..] else s.ch,
          s.chClosed || e.CloseTriggers?,
          if e.Emit? then s.emitted + [e.id] else s.emitted,
          if e.CallSleep? then s.slept + [s.life.cycles[e.c].phase.work.id] else s.slept)
  }

  function Run(s: State, es: seq<Event>): Option<State> {
    if es == [] then Some(s)
    else
      match Run(s, es[..|es| - 1])
      case None => None
      case Some(t) => if Enabled(t, es[|es| - 1]) then Some(Next(t, es[|es| - 1])) else None
  }

  /** What a goroutine has received and not yet passed to Sleep. */
  function Hand(cycle: Cycle<Work>): seq<string> {
    if cycle.phase.Looping? && cycle.phase.work.Handling? then [cycle.phase.work.id] else []
  }

  function Hands(cycles: seq<Cycle<Work>>): seq<string> {
    if cycles == [] then [] else Hands(cycles[..|cycles| - 1]) + Hand(cycles[|cycles| - 1])
  }

  function Count(ids: seq<string>, id: string): nat {
    if ids == [] then 0 else Count(ids[..|ids| - 1], id) + (if ids[|ids| - 1] == id then 1 else 0)
  }

  lemma {:induction false} CountConcat(a: seq<string>, b: seq<string>, id: string)
    ensures Count(a + b, id) == Count(a, id) + Count(b, id)
  {
    if b == [] {
      assert a + b == a;
    } else {
      CountConcat(a, b[..|b| - 1], id);
      assert (a + b)[..|a + b| - 1] == a + b[..|b| - 1];
    }
  }

  lemma Regroup(a: seq<string>, b: seq<string>, c: seq<string>)
    ensures a + (b + c) == a + b + c
  {}

  lemma {:induction false} HandsConcat(a: seq<Cycle<Work>>, b: seq<Cycle<Work>>)
    ensures Hands(a + b) == Hands(a) + Hands(b)
  {
    if b == [] {
      assert a + b == a;
    } else {
      var front, last := b[..|b| - 1], b[|b| - 1];
      HandsConcat(a, front);
      assert (a + b)[..|a + b| - 1] == a + front;
      Regroup(Hands(a), Hands(front), Hand(last));
    }
  }

  /** The hands before, at and after cycle c. */
  lemma HandsSplit(cycles: seq<Cycle<Work>>, c: nat)
    requires c < |cycles|
    ensures Hands(cycles) == Hands(cycles[..c]) + Hand(cycles[c]) + Hands(cycles[c + 1..])
  {
    HandsConcat(cycles[..c + 1], cycles[c + 1..]);
    assert cycles == cycles[..c + 1] + cycles[c + 1..];
    assert cycles[..c + 1][..c] == cycles[..c];
  }

  /** What changes when one hand does. */
  lemma HandsUpdate(cycles: seq<Cycle<Work>>, c: nat, cycle: Cycle<Work>)
    requires c < |cycles|
    ensures Hands(cycles[c := cycle]) == Hands(cycles[..c]) + Hand(cycle) + Hands(cycles[c + 1..])
  {
    var after := cycles[c := cycle];
    HandsSplit(after, c);
    assert after[..c] == cycles[..c] && after[c + 1..] == cycles[c + 1..];
  }

  lemma CountThree(a: seq<string>, b: seq<string>, c: seq<string>, id: string)
    ensures Count(a + b + c, id) == Count(a, id) + Count(b, id) + Count(c, id)
  {
    CountConcat(a, b, id);
    CountConcat(a + b, c, id);
  }

  lemma HandsCount(cycles: seq<Cycle<Work>>, c: nat, cycle: Cycle<Work>, id: string)
    requires c < |cycles|
    ensures Count(Hands(cycles[c := cycle]), id) + Count(Hand(cycles[c]), id)
         == Count(Hands(cycles), id) + Count(Hand(cycle), id)
    ensures |Hands(cycles[c := cycle])| + |Hand(cycles[c])| == |Hands(cycles)| + |Hand(cycle)|
  {
    var before, after := Hands(cycles[..c]), Hands(cycles[c + 1..]);
    HandsSplit(cycles, c);
    HandsUpdate(cycles, c, cycle);
    CountThree(before, Hand(cycles[c]), after, id);
    CountThree(before, Hand(cycle), after, id);
  }

  lemma {:induction false} SameHands(before: seq<Cycle<Work>>, after: seq<Cycle<Work>>)
    requires |before| <= |after|
    requires forall c | 0 <= c < |after| :: Hand(after[c]) == if c < |before| then Hand(before[c]) else []
    ensures Hands(after) == Hands(before)
    decreases |after|
  {
    if |before| < |after| {
      SameHands(before, after[..|after| - 1]);
    } else if after != [] {
      SameHands(before[..|before| - 1], after[..|after| - 1]);
    }
  }

  /** The steps of callers change no hand. */
  lemma CallersKeepHands(s: State, step: Step<Work>)
    requires Enabled(s, OfCallers(step))
    ensures Hands(Do(s.life, step, Idle).cycles) == Hands(s.life.cycles)
  {
    SameHands(s.life.cycles, Do(s.life, step, Idle).cycles);
  }

  /** Every trigger sent is in exactly one place: passed to Sleep, in some goroutine's hand, or still
      in the channel; and the channel holds the latest ones, in order. */
  ghost predicate Conserved(s: State) {
    && |s.ch| <= CAPACITY && Suffix(s.ch, s.emitted)
    && |s.emitted| == |s.slept| + |Hands(s.life.cycles)| + |s.ch|
    && forall id :: Count(s.emitted, id)
                 == Count(s.slept, id) + Count(Hands(s.life.cycles), id) + Count(s.ch, id)
  }

  predicate Suffix(tail: seq<string>, all: seq<string>) {
    |tail| <= |all| && all[|all| - |tail|..] == tail
  }

  lemma SuffixShrinks(tail: seq<string>, all: seq<string>)
    requires Suffix(tail, all) && tail != []
    ensures Suffix(tail[1..], all)
  {
    assert all[|all| - |tail[1..]|..] == all[|all| - |tail|..][1..];
  }

  lemma SuffixGrows(tail: seq<string>, all: seq<string>, id: string)
    requires Suffix(tail, all)
    ensures Suffix(tail + [id], all + [id])
  {
    assert (all + [id])[|all| - |tail|..] == all[|all| - |tail|..] + [id];
  }

  lemma CountFirst(ids: seq<string>, id: string)
    requires ids != []
    ensures Count(ids, id) == Count([ids[0]], id) + Count(ids[1..], id)
  {
    CountConcat([ids[0]], ids[1..], id);
    assert ids == [ids[0]] + ids[1..];
  }

  lemma CountEmpty(id: string)
    ensures Count([], id) == 0
  {}

  /** An empty hand takes a trigger. */
  lemma HandFills(cycles: seq<Cycle<Work>>, c: nat, cycle: Cycle<Work>, hand: seq<string>, id: string)
    requires c < |cycles| && Hand(cycles[c]) == [] && Hand(cycle) == hand
    ensures Count(Hands(cycles[c := cycle]), id) == Count(Hands(cycles), id) + Count(hand, id)
    ensures |Hands(cycles[c := cycle])| == |Hands(cycles)| + |hand|
  {
    HandsCount(cycles, c, cycle, id);
    CountEmpty(id);
  }

  /** A hand gives its trigger away. */
  lemma HandEmpties(cycles: seq<Cycle<Work>>, c: nat, cycle: Cycle<Work>, hand: seq<string>, id: string)
    requires c < |cycles| && Hand(cycles[c]) == hand && Hand(cycle) == []
    ensures Count(Hands(cycles[c := cycle]), id) + Count(hand, id) == Count(Hands(cycles), id)
    ensures |Hands(cycles[c := cycle])| + |hand| == |Hands(cycles)|
  {
    HandsCount(cycles, c, cycle, id);
    CountEmpty(id);
  }

  /** A trigger moves from the channel into a hand. */
  lemma ReceiveMoves(cycles: seq<Cycle<Work>>, c: nat, cycle: Cycle<Work>, ch: seq<string>, id: string)
    requires c < |cycles| && ch != [] && Hand(cycles[c]) == [] && Hand(cycle) == [ch[0]]
    ensures Count(Hands(cycles[c := cycle]), id) + Count(ch[1..], id) == Count(Hands(cycles), id) + Count(ch, id)
    ensures |Hands(cycles[c := cycle])| + |ch[1..]| == |Hands(cycles)| + |ch|
  {
    HandFills(cycles, c, cycle, [ch[0]], id);
    CountFirst(ch, id);
  }

  /** A trigger moves from a hand to Sleep. */
  lemma CallSleepMoves(s: State, c: nat, id: string)
    requires Enabled(s, CallSleep(c))
    ensures
      var t := Next(s, CallSleep(c));
      && Count(t.slept, id) + Count(Hands(t.life.cycles), id) == Count(s.slept, id) + Count(Hands(s.life.cycles), id)
      && |t.slept| + |Hands(t.life.cycles)| == |s.slept| + |Hands(s.life.cycles)|
  {
    var hand := [s.life.cycles[c].phase.work.id];
    HandEmpties(s.life.cycles, c, s.life.cycles[c].(phase := Looping(Sleeping)), hand, id);
    CountConcat(s.slept, hand, id);
  }

  lemma ReceiveConserves(s: State, c: nat)
    requires Enabled(s, Receive(c)) && Conserved(s)
    ensures Conserved(Next(s, Receive(c)))
  {
    var t := Next(s, Receive(c));
    SuffixShrinks(s.ch, s.emitted);
    ReceiveMoves(s.life.cycles, c, t.life.cycles[c], s.ch, "");
    forall id
      ensures Count(t.emitted, id) == Count(t.slept, id) + Count(Hands(t.life.cycles), id) + Count(t.ch, id)
    {
      ReceiveMoves(s.life.cycles, c, t.life.cycles[c], s.ch, id);
    }
  }

  lemma CallSleepConserves(s: State, c: nat)
    requires Enabled(s, CallSleep(c)) && Conserved(s)
    ensures Conserved(Next(s, CallSleep(c)))
  {
    var t := Next(s, CallSleep(c));
    CallSleepMoves(s, c, "");
    forall id
      ensures Count(t.emitted, id) == Count(t.slept, id) + Count(Hands(t.life.cycles), id) + Count(t.ch, id)
    {
      CallSleepMoves(s, c, id);
    }
  }

  lemma EmitConserves(s: State, new_: string)
    requires Enabled(s, Emit(new_)) && Conserved(s)
    ensures Conserved(Next(s, Emit(new_)))
  {
    SuffixGrows(s.ch, s.emitted, new_);
    forall id
      ensures Count(s.emitted + [new_], id) - Count(s.ch + [new_], id) == Count(s.emitted, id) - Count(s.ch, id)
    {
      CountConcat(s.emitted, [new_], id);
      CountConcat(s.ch, [new_], id);
    }
  }

  lemma OtherKeepsHands(s: State, e: Event)
    requires Enabled(s, e) && (e.SleepReturns? || e.LeaveLoop? || e.CloseDone?)
    ensures Hands(Next(s, e).life.cycles) == Hands(s.life.cycles)
  {
    SameHands(s.life.cycles, Next(s, e).life.cycles);
  }

  lemma ConservedStep(s: State, e: Event)
    requires Enabled(s, e) && Conserved(s)
    ensures Conserved(Next(s, e))
  {
    match e
    case Emit(id) => EmitConserves(s, id);
    case OfCallers(step) => CallersKeepHands(s, step);
    case Receive(c) => ReceiveConserves(s, c);
    case CallSleep(c) => CallSleepConserves(s, c);
    case CloseTriggers =>
    case _ => OtherKeepsHands(s, e);
  }

  /** A goroutine is out of its loop only for a reason. */
  ghost predicate LeftForReason(s: State) {
    forall c | 0 <= c < |s.life.cycles| && !s.life.cycles[c].phase.Looping? :: s.life.cycles[c].cancelled || s.chClosed
  }

  lemma ReasonStep(s: State, e: Event)
    requires Enabled(s, e) && LeftForReason(s)
    ensures LeftForReason(Next(s, e))
  {
    var t := Next(s, e);
    forall c | 0 <= c < |t.life.cycles| && !t.life.cycles[c].phase.Looping?
      ensures t.life.cycles[c].cancelled || t.chClosed
    {
      assert c < |s.life.cycles|;
    }
  }

  ghost predicate Inv(s: State) { LifeInv(s.life) && Conserved(s) && LeftForReason(s) }

  lemma InvStep(s: State, e: Event)
    requires Enabled(s, e) && Inv(s)
    ensures Inv(Next(s, e))
  {
    ConservedStep(s, e);
    ReasonStep(s, e);
    if LifePart(s, e).Some? {
      LifeStep(s.life, LifePart(s, e).value, Idle);
    }
  }

  lemma {:induction false} InvRun(s: State, es: seq<Event>)
    requires Inv(s) && Run(s, es).Some?
    ensures Inv(Run(s, es).value)
  {
    if es != [] {
      InvRun(s, es[..|es| - 1]);
      InvStep(Run(s, es[..|es| - 1]).value, es[|es| - 1]);
    }
  }

  ghost predicate Reachable(s: State) {
    exists es: seq<Event> :: Run(Init(), es) == Some(s)
  }

  lemma ReachableInv(s: State)
    requires Reachable(s)
    ensures Inv(s)
  {
    var es: seq<Event> :| Run(Init(), es) == Some(s);
    InvRun(Init(), es);
  }

  /** No trigger is lost or duplicated over any run with any Start and Stop calls. */
  lemma TriggersConserved(s: State, id: string)
    requires Reachable(s)
    ensures Count(s.emitted, id) == Count(s.slept, id) + Count(Hands(s.life.cycles), id) + Count(s.ch, id)
    ensures |s.ch| <= 64 && Suffix(s.ch, s.emitted)
  {
    ReachableInv(s);
  }

  /** A goroutine does not leave its loop unless its Stop has cancelled it, the context given to Start has
      ended, or the trigger channel has been closed. */
  lemma LeavesForAReason(s: State, c: nat)
    requires Reachable(s) && c < |s.life.cycles| && !s.life.cycles[c].phase.Looping?
    ensures s.chClosed || s.life.cycles[c].parentEnded ||
            exists k | 0 <= k < |s.life.callers| :: s.life.callers[k] == Awaiting(c) || s.life.callers[k] == StopReturned(c)
  {
    ReachableInv(s);
    assert CycleOk(s.life, c);
    SafeState(s.life, c, s.life.cycles[c].startedBy, s.life.cycles[c].startedBy);
  }

  /** A Stop that waits is not stuck: the goroutine of its cycle has a next step that leads out, or
      has closed done already. */
  lemma StopIsNotStuck(s: State, i: nat)
    requires Reachable(s) && i < |s.life.callers| && s.life.callers[i].Awaiting?
    ensures
      var c := s.life.callers[i].c;
      && c < |s.life.cycles|
      && match s.life.cycles[c].phase
         case Looping(Idle) => Enabled(s, LeaveLoop(c))
         case Looping(Handling(_)) => Enabled(s, CallSleep(c))
         case Looping(Sleeping) => Enabled(s, SleepReturns(c))
         case Leaving => Enabled(s, CloseDone(c))
         case Gone => Enabled(s, OfCallers(OfCaller(i, ReturnStop)))
  {
    ReachableInv(s);
    assert CallerOk(s.life, i);
    assert CycleOk(s.life, s.life.callers[i].c);
  }
}
