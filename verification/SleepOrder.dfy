/** The order in which the sleep coordinator calls Sleep, and exactly when it is the order of emission. */
module SleepOrder {
  import opened Prelude
  import opened IdleTracking
  import opened Lifecycle
  import opened SleepPipeline

  /** Sleep has been called for a first part of the triggers, in the order of their emission. */
  predicate InOrder(s: State) { s.slept <= s.emitted }

  /** What has been passed to Sleep, then what is in hand, then the channel, is what was emitted. */
  ghost predicate Sequenced(s: State) {
    s.emitted == s.slept + Hands(s.life.cycles) + s.ch
  }

  lemma {:induction false} EmptyHands(cycles: seq<Cycle<Work>>)
    requires forall c | 0 <= c < |cycles| :: Hand(cycles[c]) == []
    ensures Hands(cycles) == []
  {
    if cycles != [] {
      EmptyHands(cycles[..|cycles| - 1]);
    }
  }

  lemma {:induction false} OnlyHand(cycles: seq<Cycle<Work>>, c: nat)
    requires c < |cycles| && forall d | 0 <= d < |cycles| && d != c :: Hand(cycles[d]) == []
    ensures Hands(cycles) == Hand(cycles[c])
  {
    var last := |cycles| - 1;
    if c == last {
      EmptyHands(cycles[..last]);
    } else {
      OnlyHand(cycles[..last], c);
    }
  }

  /** With one goroutine in its loop, its hand is the only one that can hold something. */
  lemma LoopHand(s: State, c: nat)
    requires OneInLoop(s.life) && InLoop(s.life, c)
    ensures Hands(s.life.cycles) == Hand(s.life.cycles[c])
  {
    forall d | 0 <= d < |s.life.cycles| && d != c
      ensures Hand(s.life.cycles[d]) == []
    {
      assert !InLoop(s.life, d);
    }
    OnlyHand(s.life.cycles, c);
  }

  lemma FewInHand(s: State)
    requires OneInLoop(s.life)
    ensures |Hands(s.life.cycles)| <= 1
  {
    if c :| 0 <= c < |s.life.cycles| && InLoop(s.life, c) {
      LoopHand(s, c);
    } else {
      forall c | 0 <= c < |s.life.cycles|
        ensures Hand(s.life.cycles[c]) == []
      {
        assert !InLoop(s.life, c);
      }
      EmptyHands(s.life.cycles);
    }
  }

  /** If nothing has been out of order so far and one goroutine is in its loop, what comes next is
      settled: its hand, then the channel. */
  lemma SequencedNow(s: State)
    requires Conserved(s) && InOrder(s) && OneInLoop(s.life)
    ensures Sequenced(s)
  {
    FewInHand(s);
    Settled(s.emitted, s.slept, Hands(s.life.cycles), s.ch);
  }

  lemma Settled(emitted: seq<string>, slept: seq<string>, hands: seq<string>, ch: seq<string>)
    requires slept <= emitted && Suffix(ch, emitted) && |emitted| == |slept| + |hands| + |ch| && |hands| <= 1
    requires forall id :: Count(emitted, id) == Count(slept, id) + Count(hands, id) + Count(ch, id)
    ensures emitted == slept + hands + ch
  {
    if hands == [] {
      Joined(emitted, slept, ch);
      PutDown(slept, ch);
    } else {
      var h := hands[0];
      assert hands == [h];
      CountOne(h, h);
      SettledWith(emitted, slept, h, ch);
    }
  }

  lemma SettledWith(emitted: seq<string>, slept: seq<string>, h: string, ch: seq<string>)
    requires slept <= emitted && Suffix(ch, emitted) && |emitted| == |slept| + 1 + |ch|
    requires Count(emitted, h) == Count(slept, h) + 1 + Count(ch, h)
    ensures emitted == slept + [h] + ch
  {
    Between(emitted, slept, ch);
    MiddleIs(slept, emitted[|slept|], ch, h);
  }

  lemma Joined(all: seq<string>, front: seq<string>, tail: seq<string>)
    requires front <= all && Suffix(tail, all) && |all| == |front| + |tail|
    ensures all == front + tail
  {}

  lemma MiddleIs(slept: seq<string>, z: string, ch: seq<string>, h: string)
    requires Count(slept + [z] + ch, h) == Count(slept, h) + 1 + Count(ch, h)
    ensures z == h
  {
    CountThree(slept, [z], ch, h);
    CountOne(z, h);
  }

  lemma Between(all: seq<string>, front: seq<string>, tail: seq<string>)
    requires front <= all && Suffix(tail, all) && |all| == |front| + 1 + |tail|
    ensures all == front + [all[|front|]] + tail
  {}

  lemma CountOne(x: string, id: string)
    ensures Count([x], id) == if x == id then 1 else 0
  {
    assert [x][..0] == [];
  }

  lemma OnlyHandAfter(s: State, e: Event, c: nat)
    requires Enabled(s, e) && OneInLoop(s.life) && InLoop(s.life, c) && (e == Receive(c) || e == CallSleep(c))
    ensures Hands(Next(s, e).life.cycles) == Hand(Next(s, e).life.cycles[c])
  {
    OneInLoopStays(s.life, LifePart(s, e).value, Idle);
    LoopHand(Next(s, e), c);
  }

  lemma ReceiveKeepsOrder(s: State, c: nat)
    requires Enabled(s, Receive(c)) && OneInLoop(s.life) && Sequenced(s)
    ensures Sequenced(Next(s, Receive(c)))
  {
    LoopHand(s, c);
    OnlyHandAfter(s, Receive(c), c);
    MoveFirst(s.slept, s.ch);
  }

  lemma MoveFirst(a: seq<string>, b: seq<string>)
    requires b != []
    ensures a + [] + b == a + [b[0]] + b[1..]
  {}

  lemma PutDown(a: seq<string>, b: seq<string>)
    ensures a + b == a + [] + b
  {}

  lemma CallSleepKeepsOrder(s: State, c: nat)
    requires Enabled(s, CallSleep(c)) && OneInLoop(s.life) && Sequenced(s)
    ensures Sequenced(Next(s, CallSleep(c)))
  {
    LoopHand(s, c);
    OnlyHandAfter(s, CallSleep(c), c);
    PutDown(s.slept + [s.life.cycles[c].phase.work.id], s.ch);
  }

  lemma OrderStep(s: State, e: Event)
    requires Enabled(s, e) && OneInLoop(s.life) && Sequenced(s)
    ensures Sequenced(Next(s, e))
  {
    match e
    case Receive(c) => ReceiveKeepsOrder(s, c);
    case CallSleep(c) => CallSleepKeepsOrder(s, c);
    case OfCallers(step) => CallersKeepHands(s, step);
    case Emit(id) => Regroup(s.slept + Hands(s.life.cycles), s.ch, [id]);
    case CloseTriggers =>
    case _ => OtherKeepsHands(s, e);
  }

  predicate StartsCycle(e: Event) { e.OfCallers? && Starts(e.step) }

  predicate NoStarts(es: seq<Event>) {
    forall i | 0 <= i < |es| :: !StartsCycle(es[i])
  }

  lemma {:induction false} OrderedWithoutStarts(s: State, es: seq<Event>)
    requires Run(s, es).Some? && NoStarts(es) && OneInLoop(s.life) && Sequenced(s)
    ensures OneInLoop(Run(s, es).value.life) && Sequenced(Run(s, es).value)
  {
    if es != [] {
      OrderedWithoutStarts(s, es[..|es| - 1]);
      var t, e := Run(s, es[..|es| - 1]).value, es[|es| - 1];
      OrderStep(t, e);
      if LifePart(t, e).Some? {
        OneInLoopStays(t.life, LifePart(t, e).value, Idle);
      }
    }
  }

  /** The run consists of sends and of steps of goroutines in their loops. */
  predicate OnlyLoops(es: seq<Event>) {
    forall i | 0 <= i < |es| :: es[i].Emit? || es[i].Receive? || es[i].CallSleep? || es[i].SleepReturns?
  }

  /** s with the goroutine of cycle c at this work and these channel contents and sleeps. */
  function At(s: State, c: nat, work: Work, ch: seq<string>, slept: seq<string>): State
    requires c < |s.life.cycles|
  {
    s.(life := SetPhase(s.life, c, Looping(work)), ch := ch, slept := slept)
  }

  lemma Extend(s: State, es: seq<Event>, t: State, e: Event, u: State) returns (longer: seq<Event>)
    requires Run(s, es) == Some(t) && Enabled(t, e) && Next(t, e) == u
    ensures longer == es + [e] && Run(s, longer) == Some(u)
  {
    longer := es + [e];
    assert longer[..|es|] == es;
  }

  lemma WakesUp(s: State, es: seq<Event>, t: State, c: nat) returns (longer: seq<Event>)
    requires Run(s, es) == Some(t) && OnlyLoops(es) && WorkIs(t, c, Sleeping)
    ensures OnlyLoops(longer) && Run(s, longer) == Some(At(t, c, Idle, t.ch, t.slept))
  {
    longer := Extend(s, es, t, SleepReturns(c), At(t, c, Idle, t.ch, t.slept));
  }

  /** A goroutine that holds a trigger, or sleeps, gets back to its select. */
  lemma BackToSelect(s: State, es: seq<Event>, t: State, c: nat) returns (longer: seq<Event>, slept: seq<string>)
    requires Run(s, es) == Some(t) && OnlyLoops(es) && InLoop(t.life, c)
    ensures OnlyLoops(longer) && Run(s, longer) == Some(At(t, c, Idle, t.ch, slept))
  {
    match t.life.cycles[c].phase.work
    case Idle =>
      longer, slept := es, t.slept;
      assert At(t, c, Idle, t.ch, slept) == t;
    case Handling(id) =>
      slept := t.slept + [id];
      var u := At(t, c, Sleeping, t.ch, slept);
      longer := Extend(s, es, t, CallSleep(c), u);
      longer := WakesUp(s, longer, u, c);
      assert At(u, c, Idle, u.ch, slept) == At(t, c, Idle, t.ch, slept);
    case Sleeping =>
      slept := t.slept;
      longer := WakesUp(s, es, t, c);
  }

  /** A goroutine in its select empties the channel. */
  lemma {:induction false} Drain(s: State, es: seq<Event>, t: State, c: nat) returns (longer: seq<Event>, slept: seq<string>)
    requires Run(s, es) == Some(t) && OnlyLoops(es) && WorkIs(t, c, Idle)
    ensures OnlyLoops(longer) && Run(s, longer) == Some(At(t, c, Idle, [], slept))
    decreases |t.ch|
  {
    if t.ch == [] {
      longer, slept := es, t.slept;
      assert At(t, c, Idle, [], slept) == t;
    } else {
      var u := At(t, c, Handling(t.ch[0]), t.ch[1..], t.slept);
      longer := Extend(s, es, t, Receive(c), u);
      longer, slept := BackToSelect(s, longer, u, c);
      var v := At(u, c, Idle, u.ch, slept);
      longer, slept := Drain(s, longer, v, c);
      assert At(v, c, Idle, [], slept) == At(t, c, Idle, [], slept);
    }
  }

  /** A second trigger that differs from what order would call for. */
  function Surprise(slept: seq<string>, emitted: seq<string>): string {
    if |slept| <= |emitted| && (emitted + ["a"])[|slept|] == "b" then "c" else "b"
  }

  lemma NotAPrefix(slept: seq<string>, emitted: seq<string>)
    requires |slept| <= |emitted|
    ensures !(slept + [Surprise(slept, emitted)] <= emitted + ["a", Surprise(slept, emitted)])
  {
    var y := Surprise(slept, emitted);
    assert (emitted + ["a", y])[|slept|] == (emitted + ["a"])[|slept|] != y;
    assert (slept + [y])[|slept|] == y;
  }

  lemma EmitTwo(s: State, es: seq<Event>, t: State, y: string) returns (longer: seq<Event>)
    requires Run(s, es) == Some(t) && OnlyLoops(es) && t.ch == [] && !t.chClosed
    ensures OnlyLoops(longer) && Run(s, longer) == Some(t.(ch := ["a", y], emitted := t.emitted + ["a", y]))
  {
    var t1 := t.(ch := ["a"], emitted := t.emitted + ["a"]);
    longer := Extend(s, es, t, Emit("a"), t1);
    Regroup(t.emitted, ["a"], [y]);
    longer := Extend(s, longer, t1, Emit(y), t.(ch := ["a", y], emitted := t.emitted + ["a", y]));
  }

  /** Two goroutines in their selects, and an empty channel: the later trigger overtakes. */
  lemma Overtake(s: State, es: seq<Event>, t: State, c: nat, d: nat) returns (longer: seq<Event>)
    requires Run(s, es) == Some(t) && OnlyLoops(es) && c != d && WorkIs(t, c, Idle) && WorkIs(t, d, Idle)
    requires t.ch == [] && !t.chClosed && |t.slept| <= |t.emitted|
    ensures OnlyLoops(longer) && Run(s, longer).Some? && !InOrder(Run(s, longer).value)
  {
    var y := Surprise(t.slept, t.emitted);
    longer := EmitTwo(s, es, t, y);
    longer := BothReceive(s, longer, t.(ch := ["a", y], emitted := t.emitted + ["a", y]), c, d, y);
    NotAPrefix(t.slept, t.emitted);
  }

  lemma BothTake(s: State, es: seq<Event>, t: State, c: nat, d: nat, y: string) returns (longer: seq<Event>, u: State)
    requires Run(s, es) == Some(t) && OnlyLoops(es) && c != d && WorkIs(t, c, Idle) && WorkIs(t, d, Idle)
    requires t.ch == ["a", y]
    ensures OnlyLoops(longer) && Run(s, longer) == Some(u)
    ensures WorkIs(u, d, Handling(y)) && u.slept == t.slept && u.emitted == t.emitted
  {
    var t1 := At(t, c, Handling("a"), [y], t.slept);
    longer := Extend(s, es, t, Receive(c), t1);
    u := At(t1, d, Handling(y), [], t.slept);
    longer := Extend(s, longer, t1, Receive(d), u);
  }

  /** The first goroutine takes the earlier trigger, the second passes the later one to Sleep. */
  lemma BothReceive(s: State, es: seq<Event>, t: State, c: nat, d: nat, y: string) returns (longer: seq<Event>)
    requires Run(s, es) == Some(t) && OnlyLoops(es) && c != d && WorkIs(t, c, Idle) && WorkIs(t, d, Idle)
    requires t.ch == ["a", y]
    ensures OnlyLoops(longer) && Run(s, longer).Some?
    ensures Run(s, longer).value.slept == t.slept + [y] && Run(s, longer).value.emitted == t.emitted
  {
    var u;
    longer, u := BothTake(s, es, t, c, d, y);
    longer := Extend(s, longer, u, CallSleep(d), At(u, d, Sleeping, u.ch, t.slept + [y]));
  }

  /** From any state with two goroutines in their loops and an open channel, a run without any step of
      a caller brings Sleep out of order. */
  lemma TwoLoopsOvertake(s: State, c: nat, d: nat) returns (es: seq<Event>)
    requires Inv(s) && c != d && InLoop(s.life, c) && InLoop(s.life, d) && !s.chClosed
    ensures OnlyLoops(es) && Run(s, es).Some? && !InOrder(Run(s, es).value)
  {
    var slept;
    es, slept := BackToSelect(s, [], s, d);
    var t := At(s, d, Idle, s.ch, slept);
    es, slept := BackToSelect(s, es, t, c);
    var u := At(t, c, Idle, t.ch, slept);
    es, slept := Drain(s, es, u, c);
    var v := At(u, c, Idle, [], slept);
    InvRun(s, es);
    assert |multiset(v.slept)| <= |multiset(v.emitted)|;
    es := Overtake(s, es, v, c, d);
  }

  /** Exactly when order is safe. In a state in which Sleep has been called in order so far, over an open
      channel: without another Start it stays in order, whatever else happens, if and only if at most
      one goroutine is still in its loop. A goroutine that is leaving does no harm. */
  lemma OrderIsSafeExactly(s: State)
    requires Reachable(s) && !s.chClosed && InOrder(s)
    ensures (forall es | NoStarts(es) && Run(s, es).Some? :: InOrder(Run(s, es).value)) <==> OneInLoop(s.life)
  {
    ReachableInv(s);
    if OneInLoop(s.life) {
      SequencedNow(s);
      forall es | NoStarts(es) && Run(s, es).Some?
        ensures InOrder(Run(s, es).value)
      {
        OrderedWithoutStarts(s, es);
        InFront(Run(s, es).value);
      }
    } else {
      var c, d :| 0 <= c < d < |s.life.cycles| && InLoop(s.life, c) && InLoop(s.life, d);
      var es := TwoLoopsOvertake(s, c, d);
      assert NoStarts(es);
    }
  }

  lemma InFront(s: State)
    requires Sequenced(s)
    ensures InOrder(s) && s.emitted[|s.slept|..] == Hands(s.life.cycles) + s.ch
    ensures |s.emitted| == |s.slept| + |Hands(s.life.cycles)| + |s.ch|
  {
    var hands := Hands(s.life.cycles);
    assert s.emitted == s.slept + (hands + s.ch);
  }

  /** In every state of the run at most one goroutine is in its loop. */
  ghost predicate OrderlyRun(s: State, es: seq<Event>) {
    (es == [] || OrderlyRun(s, es[..|es| - 1])) && (Run(s, es).Some? ==> OneInLoop(Run(s, es).value.life))
  }

  lemma {:induction false} OrderRun(es: seq<Event>)
    requires Run(Init(), es).Some? && OrderlyRun(Init(), es)
    ensures Sequenced(Run(Init(), es).value)
  {
    if es != [] {
      var front := es[..|es| - 1];
      OrderRun(front);
      assert OrderlyRun(Init(), front);
      OrderStep(Run(Init(), front).value, es[|es| - 1]);
    }
  }

  lemma GoneHands(s: State)
    requires Sequenced(s) && forall c | 0 <= c < |s.life.cycles| :: s.life.cycles[c].phase.Gone?
    ensures s.emitted == s.slept + s.ch
  {
    EmptyHands(s.life.cycles);
    assert s.slept + [] + s.ch == s.slept + s.ch;
  }

  /** First in, first out over a whole run in which no two goroutines are in their loops at once: Sleep
      is called in the order of emission, none is skipped even when Sleep fails, and it lags at most
      65 behind. What a stopped cycle leaves in the channel is what the next one starts with. */
  lemma SleepsInOrder(es: seq<Event>)
    requires Run(Init(), es).Some? && OrderlyRun(Init(), es)
    ensures
      var s := Run(Init(), es).value;
      && s.slept <= s.emitted
      && s.emitted[|s.slept|..] == Hands(s.life.cycles) + s.ch
      && |s.emitted| - |s.slept| <= 65
      && ((forall c | 0 <= c < |s.life.cycles| :: s.life.cycles[c].phase.Gone?) ==> s.emitted == s.slept + s.ch)
  {
    OrderRun(es);
    var s := Run(Init(), es).value;
    assert Reachable(s);
    ReachableInv(s);
    InFront(s);
    FewInHand(s);
    if forall c | 0 <= c < |s.life.cycles| :: s.life.cycles[c].phase.Gone? {
      GoneHands(s);
    }
  }

  /** What callers can see to themselves: no Start takes the lock while a Stop is in progress. */
  ghost predicate StartsWaitForStops(s: State, es: seq<Event>) {
    es == [] ||
    (StartsWaitForStops(s, es[..|es| - 1]) &&
     (Run(s, es[..|es| - 1]).Some? && StartsCycle(es[|es| - 1]) ==>
        NoStopInProgress(Run(s, es[..|es| - 1]).value.life)))
  }

  lemma {:induction false} CarefulCallers(es: seq<Event>)
    requires Run(Init(), es).Some? && StartsWaitForStops(Init(), es)
    ensures OrderlyRun(Init(), es)
  {
    if es != [] {
      var front, e := es[..|es| - 1], es[|es| - 1];
      CarefulCallers(front);
      var t := Run(Init(), front).value;
      InvRun(Init(), front);
      if LifePart(t, e).Some? {
        if StartsCycle(e) && !t.life.running {
          AllGone(t.life);
        }
        OneInLoopStays(t.life, LifePart(t, e).value, Idle);
      }
    }
  }

  /** So callers that do not Start while a Stop is in progress get first in, first out. */
  lemma CarefulCallersGetOrder(es: seq<Event>)
    requires Run(Init(), es).Some? && StartsWaitForStops(Init(), es)
    ensures
      var s := Run(Init(), es).value;
      s.slept <= s.emitted && s.emitted[|s.slept|..] == Hands(s.life.cycles) + s.ch
  {
    CarefulCallers(es);
    SleepsInOrder(es);
  }

  /** Two cycles in their loops, the first with a Stop waiting for it and "a" in its hand. */
  function Restarted(): State {
    State(Life(true, 1, [Cycle(Looping(Handling("a")), false, 0, Some(1), 0, false), Cycle(Looping(Idle), false, 0, None, 2, false)],
               [Started(0), Claimed(0), Started(1)]),
          [], false, ["a"], [])
  }

  lemma Receives() returns (es: seq<Event>)
    ensures Run(Init(), es)
         == Some(State(Life(true, 0, [Cycle(Looping(Handling("a")), false, 0, None, 0, false)], [Started(0)]), [], false, ["a"], []))
  {
    var life := Life(true, 0, [Cycle(Looping(Idle), false, 0, None, 0, false)], [Started(0)]);
    var s1 := Init().(life := Life(false, 0, [], [WantsStart]));
    es := Extend(Init(), [], Init(), OfCallers(CallStart), s1);
    var s2 := State(life, [], false, [], []);
    es := Extend(Init(), es, s1, OfCallers(OfCaller(0, LockStart)), s2);
    var s3 := State(life, ["a"], false, ["a"], []);
    es := Extend(Init(), es, s2, Emit("a"), s3);
    var s4 := State(Life(true, 0, [Cycle(Looping(Handling("a")), false, 0, None, 0, false)], [Started(0)]), [], false, ["a"], []);
    es := Extend(Init(), es, s3, Receive(0), s4);
  }

  lemma Restarts() returns (es: seq<Event>)
    ensures Run(Init(), es) == Some(Restarted())
  {
    es := Receives();
    var held := [Cycle(Looping(Handling("a")), false, 0, None, 0, false)];
    var taken := [Cycle(Looping(Handling("a")), false, 0, Some(1), 0, false)];
    var s4 := State(Life(true, 0, held, [Started(0)]), [], false, ["a"], []);
    var s5 := s4.(life := Life(true, 0, held, [Started(0), WantsStop]));
    es := Extend(Init(), es, s4, OfCallers(CallStop), s5);
    var s6 := s4.(life := Life(false, 0, taken, [Started(0), Claimed(0)]));
    es := Extend(Init(), es, s5, OfCallers(OfCaller(1, LockStop)), s6);
    var s7 := s4.(life := Life(false, 0, taken, [Started(0), Claimed(0), WantsStart]));
    es := Extend(Init(), es, s6, OfCallers(CallStart), s7);
    es := Extend(Init(), es, s7, OfCallers(OfCaller(2, LockStart)), Restarted());
  }

  /** A run of the bad kind: a Start while a Stop still waits brings "b" to Sleep before "a", which was
      emitted earlier. */
  lemma OverlapBreaksOrder() returns (es: seq<Event>)
    ensures Run(Init(), es).Some?
    ensures Run(Init(), es).value.emitted == ["a", "b"] && Run(Init(), es).value.slept == ["b"]
  {
    es := Restarts();
    var s9 := Restarted().(ch := ["b"], emitted := ["a", "b"]);
    es := Extend(Init(), es, Restarted(), Emit("b"), s9);
    var s10 := At(s9, 1, Handling("b"), [], []);
    es := Extend(Init(), es, s9, Receive(1), s10);
    es := Extend(Init(), es, s10, CallSleep(1), At(s10, 1, Sleeping, [], ["b"]));
  }
}
