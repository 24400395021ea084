/** Timing of the idle tracker over whole runs: how far apart the triggers of one route are when
    stamps may be stale, and how soon a trigger that found the channel full is delivered. */
module IdleTiming {
  import opened Prelude
  import opened Tables
  import opened IdleTracking

  /** One locked section, or the consumer taking some triggers from the channel. */
  datatype Op =
    | Activity(id: string, stamp: int)
    | Register(id: string, idleTimeout: Duration)
    | Check(order: seq<string>, stamp: int)
    | Take(count: nat)

  /** A locked section runs at exec; its stamp, if it has one, was read earlier. */
  datatype Timed = Timed(op: Op, exec: int)

  function Apply(t: Tracker, op: Op): Tracker {
    match op
    case Activity(id, stamp) => Touch(t, id, stamp)
    case Register(id, idleTimeout) => Configure(t, id, idleTimeout)
    case Check(order, stamp) => Sweep(t, order, stamp)
    case Take(count) => t.(ch := t.ch[if count <= |t.ch| then count else |t.ch|..])
  }

  function Run(t: Tracker, ops: seq<Timed>): Tracker {
    if ops == [] then t else Apply(Run(t, ops[..|ops| - 1]), ops[|ops| - 1].op)
  }

  /** The stamps of the sweeps that emitted a trigger for this route. */
  function TriggerStamps(t: Tracker, ops: seq<Timed>, id: string): seq<int> {
    if ops == [] then []
    else
      var front, op := ops[..|ops| - 1], ops[|ops| - 1].op;
      TriggerStamps(t, front, id) +
      (if op.Check? && id in Emitted(Run(t, front), op.order, op.stamp) then [op.stamp] else [])
  }

  predicate StampFits(x: Timed, delay: int) {
    match x.op
    case Activity(_, stamp) => stamp <= x.exec <= stamp + delay
    case Check(_, stamp) => stamp <= x.exec <= stamp + delay
    case _ => true
  }

  /** Sections run one after the other, each at most delay after its clock reading; a sweep visits the
      routes it finds; the route's timeout stays what it is. */
  ghost predicate WellTimed(t: Tracker, ops: seq<Timed>, delay: int, id: string) {
    ops == [] ||
    (var front, last := ops[..|ops| - 1], ops[|ops| - 1];
     && WellTimed(t, front, delay, id)
     && StampFits(last, delay)
     && (front != [] ==> front[|front| - 1].exec <= last.exec)
     && (last.op.Check? ==> IsOrder(last.op.order, Run(t, front).routes.Keys))
     && (last.op.Register? && last.op.id == id ==>
           id in Run(t, front).routes && last.op.idleTimeout == Run(t, front).routes[id].idleTimeout))
  }

  /** After a trigger, the route's last-seen time is never more than the delay before its stamp. */
  ghost predicate SpacingInv(u: Tracker, stamps: seq<int>, exec: Option<int>, idleTimeout: int, delay: int, id: string) {
    && id in u.routes && u.routes[id].idleTimeout == idleTimeout && |u.ch| <= CAPACITY
    && Spaced(stamps, idleTimeout - delay)
    && (stamps != [] ==>
          && exec.Some? && stamps[|stamps| - 1] <= exec.value
          && u.routes[id].lastSeen.Some? && stamps[|stamps| - 1] - delay <= u.routes[id].lastSeen.value)
  }

  function LastExec(ops: seq<Timed>): Option<int> {
    if ops == [] then None else Some(ops[|ops| - 1].exec)
  }

  lemma {:induction false} InOrder(emitted: seq<string>, id: string)
    ensures id in emitted <==> id in Members(emitted)
  {
    if emitted != [] {
      InOrder(emitted[..|emitted| - 1], id);
      assert emitted == emitted[..|emitted| - 1] + [emitted[|emitted| - 1]];
    }
  }

  /** A sweep seen from one route. */
  lemma SweepEntry(u: Tracker, order: seq<string>, now: int, id: string)
    requires id in u.routes && IsOrder(order, u.routes.Keys) && |u.ch| <= CAPACITY
    ensures
      var v := Sweep(u, order, now);
      && id in v.routes && |v.ch| <= CAPACITY
      && (if id in Emitted(u, order, now)
          then id in IdleRoutes(u, now) && v.routes[id] == u.routes[id].(lastSeen := Some(now))
          else v.routes[id] == u.routes[id])
  {
    SweepIsExact(u, order, now);
    InOrder(Emitted(u, order, now), id);
    if id in Emitted(u, order, now) {
      assert id in IdleRoutes(u, now);
    }
  }

  lemma CheckStep(u: Tracker, stamps: seq<int>, exec: Option<int>, idleTimeout: int, delay: int, id: string, x: Timed)
    requires 0 < idleTimeout && 0 <= delay
    requires SpacingInv(u, stamps, exec, idleTimeout, delay, id)
    requires x.op.Check? && StampFits(x, delay) && IsOrder(x.op.order, u.routes.Keys)
    requires exec.Some? ==> exec.value <= x.exec
    ensures
      var emits := id in Emitted(u, x.op.order, x.op.stamp);
      SpacingInv(Sweep(u, x.op.order, x.op.stamp), stamps + (if emits then [x.op.stamp] else []), Some(x.exec),
                 idleTimeout, delay, id)
  {
    SweepEntry(u, x.op.order, x.op.stamp, id);
    if id in Emitted(u, x.op.order, x.op.stamp) {
      SpacedSnoc(stamps, idleTimeout - delay, x.op.stamp);
    } else {
      assert stamps + [] == stamps;
    }
  }

  lemma OtherStep(u: Tracker, stamps: seq<int>, exec: Option<int>, idleTimeout: int, delay: int, id: string, x: Timed)
    requires SpacingInv(u, stamps, exec, idleTimeout, delay, id)
    requires !x.op.Check? && StampFits(x, delay)
    requires exec.Some? ==> exec.value <= x.exec
    requires x.op.Register? && x.op.id == id ==> x.op.idleTimeout == idleTimeout
    ensures SpacingInv(Apply(u, x.op), stamps, Some(x.exec), idleTimeout, delay, id)
  {}

  lemma {:induction false} SpacingRun(t: Tracker, ops: seq<Timed>, delay: int, id: string)
    requires id in t.routes && 0 < t.routes[id].idleTimeout && 0 <= delay && |t.ch| <= CAPACITY
    requires WellTimed(t, ops, delay, id)
    ensures SpacingInv(Run(t, ops), TriggerStamps(t, ops, id), LastExec(ops), t.routes[id].idleTimeout, delay, id)
  {
    if ops != [] {
      var front, last := ops[..|ops| - 1], ops[|ops| - 1];
      SpacingRun(t, front, delay, id);
      var stamps := TriggerStamps(t, front, id);
      assert stamps + [] == stamps;
      if last.op.Check? {
        CheckStep(Run(t, front), stamps, LastExec(front), t.routes[id].idleTimeout, delay, id, last);
      } else {
        OtherStep(Run(t, front), stamps, LastExec(front), t.routes[id].idleTimeout, delay, id, last);
      }
    }
  }

  lemma {:induction false} SpanOf(stamps: seq<int>, gap: int)
    requires Spaced(stamps, gap) && stamps != []
    ensures (|stamps| - 1) * gap <= stamps[|stamps| - 1] - stamps[0]
  {
    if |stamps| > 1 {
      SpanOf(stamps[..|stamps| - 1], gap);
      PlusOne(|stamps| - 2, gap);
    }
  }

  /** Cooldown under stale stamps: if every locked section runs within delay of its clock reading,
      consecutive triggers of a route have stamps at least idleTimeout - delay apart, so k triggers
      span at least (k - 1) * (idleTimeout - delay). Without delay this is the full cooldown. */
  lemma TriggersAreSpaced(t: Tracker, ops: seq<Timed>, delay: int, id: string)
    requires id in t.routes && 0 < t.routes[id].idleTimeout && 0 <= delay && |t.ch| <= CAPACITY
    requires WellTimed(t, ops, delay, id)
    ensures
      var stamps, gap := TriggerStamps(t, ops, id), t.routes[id].idleTimeout - delay;
      && (forall i | 0 < i < |stamps| :: stamps[i - 1] + gap <= stamps[i])
      && (stamps != [] ==> (|stamps| - 1) * gap <= stamps[|stamps| - 1] - stamps[0])
  {
    SpacingRun(t, ops, delay, id);
    var stamps := TriggerStamps(t, ops, id);
    if stamps != [] {
      SpanOf(stamps, t.routes[id].idleTimeout - delay);
    }
  }

  /** A sweep preceded by any activity and by the consumer draining the channel. */
  datatype Round = Round(activity: seq<(string, int)>, order: seq<string>, now: int)

  function TouchAll(t: Tracker, activity: seq<(string, int)>): Tracker {
    if activity == [] then t
    else
      var last := activity[|activity| - 1];
      Touch(TouchAll(t, activity[..|activity| - 1]), last.0, last.1)
  }

  function Ready(t: Tracker, round: Round): Tracker {
    TouchAll(t, round.activity).(ch := [])
  }

  function AfterRounds(t: Tracker, rounds: seq<Round>): Tracker {
    if rounds == [] then t
    else
      var last := rounds[|rounds| - 1];
      Sweep(Ready(AfterRounds(t, rounds[..|rounds| - 1]), last), last.order, last.now)
  }

  /** What the sweep of the last round emits. */
  function LastEmitted(t: Tracker, rounds: seq<Round>): seq<string>
    requires rounds != []
  {
    var last := rounds[|rounds| - 1];
    Emitted(Ready(AfterRounds(t, rounds[..|rounds| - 1]), last), last.order, last.now)
  }

  /** Everything emitted over the rounds, and how often one route is. */
  function Delivered(t: Tracker, rounds: seq<Round>): set<string> {
    if rounds == [] then {} else Delivered(t, rounds[..|rounds| - 1]) + Members(LastEmitted(t, rounds))
  }

  function TimesEmitted(t: Tracker, rounds: seq<Round>, id: string): nat {
    if rounds == [] then 0
    else TimesEmitted(t, rounds[..|rounds| - 1], id) + (if id in Members(LastEmitted(t, rounds)) then 1 else 0)
  }

  /** The routes that can expire at all. */
  function WithTimeout(t: Tracker): set<string> {
    set id | id in t.routes && t.routes[id].idleTimeout > 0
  }

  /** All clock readings of the window lie between lo and hi, the sweep's own stamps do not go below
      the first one, and the route in question sees no activity. */
  ghost predicate InWindow(t: Tracker, rounds: seq<Round>, first: int, lo: int, hi: int, id: string) {
    rounds == [] ||
    (var front, last := rounds[..|rounds| - 1], rounds[|rounds| - 1];
     && InWindow(t, front, first, lo, hi, id)
     && first <= last.now && lo <= last.now <= hi
     && (forall i | 0 <= i < |last.activity| :: lo <= last.activity[i].1 <= hi && last.activity[i].0 != id)
     && IsOrder(last.order, Ready(AfterRounds(t, front), last).routes.Keys))
  }

  /** The window is shorter than every timeout. */
  ghost predicate ShortWindow(t: Tracker, lo: int, hi: int) {
    forall id | id in WithTimeout(t) :: hi - lo < t.routes[id].idleTimeout
  }

  /** Timeouts are those of the start, and what has been delivered was restamped inside the window. */
  ghost predicate Restamped(t: Tracker, u: Tracker, delivered: set<string>, lo: int) {
    && (forall id | id in t.routes :: id in u.routes && u.routes[id].idleTimeout == t.routes[id].idleTimeout)
    && (forall id | id in u.routes && id !in t.routes :: u.routes[id].idleTimeout == 0)
    && delivered <= WithTimeout(t)
    && (forall id | id in delivered :: u.routes[id].lastSeen.Some? && lo <= u.routes[id].lastSeen.value)
  }

  lemma {:induction false} TouchAllKeeps(t: Tracker, u: Tracker, delivered: set<string>, lo: int, hi: int, id: string,
                                         activity: seq<(string, int)>)
    requires Restamped(t, u, delivered, lo)
    requires forall i | 0 <= i < |activity| :: lo <= activity[i].1 <= hi && activity[i].0 != id
    ensures Restamped(t, TouchAll(u, activity), delivered, lo)
    ensures id in u.routes ==> id in TouchAll(u, activity).routes && TouchAll(u, activity).routes[id] == u.routes[id]
  {
    if activity != [] {
      TouchAllKeeps(t, u, delivered, lo, hi, id, activity[..|activity| - 1]);
    }
  }

  /** In a short window a delivered route does not expire again. */
  lemma SweepOnce(t: Tracker, u: Tracker, delivered: set<string>, lo: int, hi: int, order: seq<string>, now: int)
    requires ShortWindow(t, lo, hi) && Restamped(t, u, delivered, lo) && u.ch == []
    requires IsOrder(order, u.routes.Keys) && lo <= now <= hi
    ensures Members(Emitted(u, order, now)) !! delivered
    ensures Restamped(t, Sweep(u, order, now), delivered + Members(Emitted(u, order, now)), lo)
  {
    SweepIsExact(u, order, now);
    forall id | id in Members(Emitted(u, order, now))
      ensures id !in delivered && id in WithTimeout(t)
    {
      assert id in IdleRoutes(u, now);
    }
  }

  /** While the route has not been emitted, it stays expired and every round fills the channel. */
  ghost predicate Pending(t: Tracker, u: Tracker, rounds: nat, delivered: set<string>, times: nat, id: string) {
    && id in t.routes && id in u.routes
    && times == (if id in delivered then 1 else 0)
    && (id !in delivered ==> u.routes[id] == t.routes[id] && |delivered| == rounds * CAPACITY)
  }

  lemma {:induction false} RoundsRun(t: Tracker, rounds: seq<Round>, first: int, lo: int, hi: int, id: string)
    requires ShortWindow(t, lo, hi) && id in IdleRoutes(t, first)
    requires InWindow(t, rounds, first, lo, hi, id)
    ensures Restamped(t, AfterRounds(t, rounds), Delivered(t, rounds), lo)
    ensures Pending(t, AfterRounds(t, rounds), |rounds|, Delivered(t, rounds), TimesEmitted(t, rounds, id), id)
  {
    if rounds != [] {
      var front, last := rounds[..|rounds| - 1], rounds[|rounds| - 1];
      RoundsRun(t, front, first, lo, hi, id);
      var u, delivered := AfterRounds(t, front), Delivered(t, front);
      TouchAllKeeps(t, u, delivered, lo, hi, id, last.activity);
      var ready := Ready(u, last);
      SweepOnce(t, ready, delivered, lo, hi, last.order, last.now);
      PendingRound(t, u, ready, |front|, delivered, TimesEmitted(t, front, id), id, last.order, first, last.now);
    }
  }

  lemma PendingRound(t: Tracker, u: Tracker, ready: Tracker, rounds: nat, delivered: set<string>, times: nat, id: string,
                     order: seq<string>, first: int, now: int)
    requires id in t.routes && id in u.routes && id in ready.routes && ready.routes[id] == u.routes[id] && ready.ch == []
    requires id in IdleRoutes(t, first) && first <= now
    requires Pending(t, u, rounds, delivered, times, id)
    requires IsOrder(order, ready.routes.Keys) && Members(Emitted(ready, order, now)) !! delivered
    ensures
      var emitted := Members(Emitted(ready, order, now));
      id in Sweep(ready, order, now).routes &&
      Pending(t, Sweep(ready, order, now), rounds + 1, delivered + emitted, times + (if id in emitted then 1 else 0), id)
  {
    var emitted := Emitted(ready, order, now);
    SweepIsExact(ready, order, now);
    DistinctMembers(emitted);
    if id !in delivered && id !in Members(emitted) {
      assert id in IdleRoutes(ready, now);
      assert Members(emitted) < IdleRoutes(ready, now);
      SmallerSet(Members(emitted), IdleRoutes(ready, now));
      assert |delivered + Members(emitted)| == |delivered| + |Members(emitted)|;
    }
  }

  lemma SmallerSet(a: set<string>, b: set<string>)
    requires a < b
    ensures |a| < |b|
  {
    assert b == a + (b - a);
    assert b - a != {};
    var x :| x in b - a;
    assert |b| == |a| + |b - a|;
  }

  /** Retry until delivered: let N routes have a positive timeout. Over enough rounds that
      64 * rounds >= N, with the channel drained before each sweep and all clock readings inside a
      window shorter than every timeout, a route that was expired at the first sweep and sees no
      activity is emitted exactly once, whatever the map orders and whatever happens to the others. */
  lemma RetriedUntilDelivered(t: Tracker, rounds: seq<Round>, first: int, lo: int, hi: int, id: string)
    requires ShortWindow(t, lo, hi) && id in IdleRoutes(t, first)
    requires InWindow(t, rounds, first, lo, hi, id)
    requires |WithTimeout(t)| <= 64 * |rounds|
    ensures TimesEmitted(t, rounds, id) == 1
  {
    RoundsRun(t, rounds, first, lo, hi, id);
    var delivered := Delivered(t, rounds);
    if id !in delivered {
      assert delivered < WithTimeout(t);
      SmallerSet(delivered, WithTimeout(t));
      assert false;
    }
  }
}
