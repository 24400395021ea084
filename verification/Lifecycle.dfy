/** Start and Stop of a background goroutine, called by any number of callers at once. The idle tracker
    and the sleep coordinator have the same locked sections and give each cycle its own done channel;
    they differ in the work W that their goroutine does inside its loop. */
module Lifecycle {
  import opened Prelude

  datatype Phase<W> =
    | Looping(work: W)
    | Leaving                // left the loop; the deferred close(done) is next
    | Gone

  /** One Start/Stop cycle. startedBy is the Start call that opened it, claimedBy the Stop call that took
      it; closes counts close(done); parentEnded says that the context given to Start has ended. */
  datatype Cycle<W> = Cycle(
    phase: Phase<W>,
    cancelled: bool,
    closes: nat,
    claimedBy: Option<nat>,
    startedBy: nat,
    parentEnded: bool)

  datatype CallerPc =
    | WantsStart
    | WantsStop
    | Started(c: nat)
    | AlreadyRunning
    | NotRunning
    | Claimed(c: nat)        // captured cancel and done, unlocked
    | Awaiting(c: nat)       // called cancel; waits for done
    | StopReturned(c: nat)

  /** current is the cycle that the cancel and done fields belong to. */
  datatype Life<W> = Life(running: bool, current: nat, cycles: seq<Cycle<W>>, callers: seq<CallerPc>)

  datatype CallerAction = LockStart | LockStop | Cancel | ReturnStop

  datatype Step<W> =
    | CallStart
    | CallStop
    | ParentCancels(c: nat)
    | OfCaller(i: nat, act: CallerAction)
    | Works(c: nat, work: W)
    | LeavesLoop(c: nat)
    | ClosesDone(c: nat)

  function NewLife<W>(): Life<W> { Life(false, 0, [], []) }

  predicate CallerCan<W>(s: Life<W>, i: nat, act: CallerAction) {
    i < |s.callers| &&
    var pc := s.callers[i];
    match act
    case LockStart => pc.WantsStart?
    case LockStop => pc.WantsStop? && (s.running ==> s.current < |s.cycles|)
    case Cancel => pc.Claimed? && pc.c < |s.cycles|
    case ReturnStop => pc.Awaiting? && pc.c < |s.cycles| && s.cycles[pc.c].closes > 0
  }

  predicate Can<W>(s: Life<W>, e: Step<W>) {
    match e
    case CallStart => true
    case CallStop => true
    case ParentCancels(c) => c < |s.cycles|
    case OfCaller(i, act) => CallerCan(s, i, act)
    case Works(c, _) => c < |s.cycles| && s.cycles[c].phase.Looping?
    case LeavesLoop(c) => c < |s.cycles| && s.cycles[c].phase.Looping?
    case ClosesDone(c) => c < |s.cycles| && s.cycles[c].phase.Leaving?
  }

  function CallerAfter<W>(s: Life<W>, i: nat, act: CallerAction): CallerPc
    requires CallerCan(s, i, act)
  {
    match act
    case LockStart => if s.running then AlreadyRunning else Started(|s.cycles|)
    case LockStop => if s.running then Claimed(s.current) else NotRunning
    case Cancel => Awaiting(s.callers[i].c)
    case ReturnStop => StopReturned(s.callers[i].c)
  }

  /** The cycles after a caller's step; a cycle begins with its goroutine at work first. */
  function CyclesAfter<W>(s: Life<W>, i: nat, act: CallerAction, first: W): seq<Cycle<W>>
    requires CallerCan(s, i, act)
  {
    match act
    case LockStart => if s.running then s.cycles else s.cycles + [Cycle(Looping(first), false, 0, None, i, false)]
    case LockStop =>
      if s.running then s.cycles[s.current := s.cycles[s.current].(claimedBy := Some(i))] else s.cycles
    case Cancel => s.cycles[s.callers[i].c := s.cycles[s.callers[i].c].(cancelled := true)]
    case ReturnStop => s.cycles
  }

  function CallerDo<W>(s: Life<W>, i: nat, act: CallerAction, first: W): Life<W>
    requires CallerCan(s, i, act)
  {
    Life(if act.LockStart? then true else if act.LockStop? then false else s.running,
         if act.LockStart? && !s.running then |s.cycles| else s.current,
         CyclesAfter(s, i, act, first),
         s.callers[i := CallerAfter(s, i, act)])
  }

  function SetPhase<W>(s: Life<W>, c: nat, phase: Phase<W>): Life<W>
    requires c < |s.cycles|
  {
    s.(cycles := s.cycles[c := s.cycles[c].(phase := phase)])
  }

  function Do<W>(s: Life<W>, e: Step<W>, first: W): Life<W>
    requires Can(s, e)
  {
    match e
    case CallStart => s.(callers := s.callers + [WantsStart])
    case CallStop => s.(callers := s.callers + [WantsStop])
    case ParentCancels(c) => s.(cycles := s.cycles[c := s.cycles[c].(cancelled := true, parentEnded := true)])
    case OfCaller(i, act) => CallerDo(s, i, act, first)
    case Works(c, work) => SetPhase(s, c, Looping(work))
    case LeavesLoop(c) => SetPhase(s, c, Leaving)
    case ClosesDone(c) => s.(cycles := s.cycles[c := s.cycles[c].(phase := Gone, closes := s.cycles[c].closes + 1)])
  }

  /** This caller took cycle c, and is in the middle of its Stop call or has finished it. */
  predicate Claims(pc: CallerPc, c: nat) {
    pc == Claimed(c) || pc == Awaiting(c) || pc == StopReturned(c)
  }

  predicate CycleOk<W>(s: Life<W>, c: nat)
    requires c < |s.cycles|
  {
    var g := s.cycles[c];
    && g.closes == (if g.phase.Gone? then 1 else 0)
    && (g.claimedBy.None? <==> s.running && c == s.current)
    && (g.claimedBy.Some? ==> g.claimedBy.value < |s.callers| && Claims(s.callers[g.claimedBy.value], c))
    && g.startedBy < |s.callers| && s.callers[g.startedBy] == Started(c)
    && (g.cancelled ==>
          g.parentEnded || (g.claimedBy.Some? && s.callers[g.claimedBy.value] != Claimed(c)))
  }

  predicate CallerOk<W>(s: Life<W>, i: nat)
    requires i < |s.callers|
  {
    var pc := s.callers[i];
    && (pc.Started? ==> pc.c < |s.cycles| && s.cycles[pc.c].startedBy == i)
    && (pc.Claimed? || pc.Awaiting? || pc.StopReturned? ==>
          && pc.c < |s.cycles| && s.cycles[pc.c].claimedBy == Some(i)
          && (pc.Awaiting? ==> s.cycles[pc.c].cancelled)
          && (pc.StopReturned? ==> s.cycles[pc.c].phase.Gone?))
  }

  ghost predicate LifeInv<W>(s: Life<W>) {
    && (s.running ==> s.cycles != [] && s.current == |s.cycles| - 1)
    && (forall c | 0 <= c < |s.cycles| :: CycleOk(s, c))
    && (forall i | 0 <= i < |s.callers| :: CallerOk(s, i))
  }

  lemma CallerKeeps<W>(s: Life<W>, i: nat, act: CallerAction, first: W)
    requires CallerCan(s, i, act) && LifeInv(s)
    ensures LifeInv(CallerDo(s, i, act, first))
  {
    var t := CallerDo(s, i, act, first);
    assert CallerOk(s, i);
    if act.ReturnStop? {
      assert CycleOk(s, s.callers[i].c);
    }
    forall c | 0 <= c < |t.cycles|
      ensures CycleOk(t, c)
    {
      assert c < |s.cycles| ==> CycleOk(s, c);
    }
    forall j | 0 <= j < |t.callers|
      ensures CallerOk(t, j)
    {
      assert CallerOk(s, j);
      if act.LockStop? && s.running {
        assert CycleOk(s, s.current);
      }
    }
  }

  /** Every step of any callers and goroutines keeps the invariant, whatever the work. */
  lemma LifeStep<W>(s: Life<W>, e: Step<W>, first: W)
    requires Can(s, e) && LifeInv(s)
    ensures LifeInv(Do(s, e, first))
  {
    if e.OfCaller? {
      CallerKeeps(s, e.i, e.act, first);
    } else {
      var t := Do(s, e, first);
      forall c | 0 <= c < |t.cycles|
        ensures CycleOk(t, c)
      {
        assert CycleOk(s, c);
      }
      forall j | 0 <= j < |t.callers|
        ensures CallerOk(t, j)
      {
        assert j < |s.callers| ==> CallerOk(s, j);
      }
    }
  }

  function After<W>(s: Life<W>, es: seq<Step<W>>, first: W): Option<Life<W>> {
    if es == [] then Some(s)
    else
      match After(s, es[..|es| - 1], first)
      case None => None
      case Some(t) => if Can(t, es[|es| - 1]) then Some(Do(t, es[|es| - 1], first)) else None
  }

  lemma {:induction false} LifeRun<W>(s: Life<W>, es: seq<Step<W>>, first: W)
    requires LifeInv(s) && After(s, es, first).Some?
    ensures LifeInv(After(s, es, first).value)
  {
    if es != [] {
      LifeRun(s, es[..|es| - 1], first);
      LifeStep(After(s, es[..|es| - 1], first).value, es[|es| - 1], first);
    }
  }

  /** Over any run, whatever the work: a cycle is opened by exactly one Start; done of a cycle is closed at most once, and only when its
      goroutine has left; at most one Stop takes a cycle; a Stop that has returned belongs to a cycle
      whose goroutine is gone; a goroutine that has not gone is the running cycle's or has a Stop in
      progress for it; and a cycle is cancelled only by its Stop or by the context given to Start. */
  lemma LifecycleSafety<W>(es: seq<Step<W>>, first: W, c: nat, i: nat, j: nat)
    requires After(NewLife(), es, first).Some?
    requires c < |After(NewLife(), es, first).value.cycles|
    requires i < |After(NewLife(), es, first).value.callers| && j < |After(NewLife(), es, first).value.callers|
    ensures
      var s := After(NewLife(), es, first).value;
      && s.cycles[c].closes <= 1 && (s.cycles[c].closes == 1 <==> s.cycles[c].phase.Gone?)
      && (Claims(s.callers[i], c) && Claims(s.callers[j], c) ==> i == j)
      && (s.callers[i] == StopReturned(c) ==> s.cycles[c].phase.Gone?)
      && (!s.cycles[c].phase.Gone? ==>
            (s.running && c == s.current) ||
            exists k | 0 <= k < |s.callers| :: s.callers[k] == Claimed(c) || s.callers[k] == Awaiting(c))
      && (s.running && c == s.current ==> !Claims(s.callers[i], c))
      && (exists k | 0 <= k < |s.callers| :: s.callers[k] == Started(c))
      && (s.callers[i] == Started(c) && s.callers[j] == Started(c) ==> i == j)
      && (s.cycles[c].cancelled ==>
            s.cycles[c].parentEnded ||
            exists k | 0 <= k < |s.callers| :: s.callers[k] == Awaiting(c) || s.callers[k] == StopReturned(c))
  {
    LifeRun(NewLife(), es, first);
    SafeState(After(NewLife(), es, first).value, c, i, j);
  }

  lemma SafeState<W>(s: Life<W>, c: nat, i: nat, j: nat)
    requires LifeInv(s) && c < |s.cycles| && i < |s.callers| && j < |s.callers|
    ensures s.cycles[c].closes <= 1 && (s.cycles[c].closes == 1 <==> s.cycles[c].phase.Gone?)
    ensures Claims(s.callers[i], c) && Claims(s.callers[j], c) ==> i == j
    ensures s.callers[i] == StopReturned(c) ==> s.cycles[c].phase.Gone?
    ensures !s.cycles[c].phase.Gone? ==>
              (s.running && c == s.current) ||
              exists k | 0 <= k < |s.callers| :: s.callers[k] == Claimed(c) || s.callers[k] == Awaiting(c)
    ensures s.running && c == s.current ==> !Claims(s.callers[i], c)
    ensures exists k | 0 <= k < |s.callers| :: s.callers[k] == Started(c)
    ensures s.callers[i] == Started(c) && s.callers[j] == Started(c) ==> i == j
    ensures s.cycles[c].cancelled ==>
              s.cycles[c].parentEnded ||
              exists k | 0 <= k < |s.callers| :: s.callers[k] == Awaiting(c) || s.callers[k] == StopReturned(c)
  {
    assert CycleOk(s, c) && CallerOk(s, i) && CallerOk(s, j);
    if s.cycles[c].claimedBy.Some? {
      assert CallerOk(s, s.cycles[c].claimedBy.value);
    }
  }

  /** No Stop call is between its lock section and its return. */
  predicate NoStopInProgress<W>(s: Life<W>) {
    forall i | 0 <= i < |s.callers| :: !s.callers[i].Claimed? && !s.callers[i].Awaiting?
  }

  /** Without a Stop in progress and without a running cycle no goroutine is left. */
  lemma AllGone<W>(s: Life<W>)
    requires LifeInv(s) && !s.running && NoStopInProgress(s)
    ensures forall c | 0 <= c < |s.cycles| :: s.cycles[c].phase.Gone?
  {
    forall c | 0 <= c < |s.cycles|
      ensures s.cycles[c].phase.Gone?
    {
      assert CycleOk(s, c);
      assert CallerOk(s, s.cycles[c].claimedBy.value);
    }
  }

  /** The goroutine of this cycle is still in its loop. */
  predicate InLoop<W>(s: Life<W>, c: nat) {
    c < |s.cycles| && s.cycles[c].phase.Looping?
  }

  ghost predicate OneInLoop<W>(s: Life<W>) {
    forall c, d | 0 <= c < d < |s.cycles| :: !InLoop(s, c) || !InLoop(s, d)
  }

  predicate Starts<W>(e: Step<W>) { e.OfCaller? && e.act.LockStart? }

  /** Only a Start can bring a goroutine into its loop. */
  lemma LoopsEnd<W>(s: Life<W>, e: Step<W>, first: W, c: nat)
    requires Can(s, e) && InLoop(Do(s, e, first), c)
    ensures InLoop(s, c) || (Starts(e) && !s.running && c == |s.cycles|)
  {}

  lemma OneInLoopStays<W>(s: Life<W>, e: Step<W>, first: W)
    requires Can(s, e) && OneInLoop(s)
    requires Starts(e) && !s.running ==> forall c | 0 <= c < |s.cycles| :: !InLoop(s, c)
    ensures OneInLoop(Do(s, e, first))
  {
    var t := Do(s, e, first);
    forall c, d | 0 <= c < d < |t.cycles|
      ensures !InLoop(t, c) || !InLoop(t, d)
    {
      if InLoop(t, c) && InLoop(t, d) {
        LoopsEnd(s, e, first, c);
        LoopsEnd(s, e, first, d);
      }
    }
  }
}
