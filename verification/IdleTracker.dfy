/** The idle tracker of internal/proxy/idle_tracker.go: per-route activity stamps, and the periodic
    sweep that emits a trigger for each expired route while the channel has room. */
module IdleTracking {
  import opened Prelude
  import opened Tables

  /** Capacity of the trigger channel. */
  const CAPACITY: nat := 64

  /** lastSeen is None for the zero time. */
  datatype Entry = Entry(idleTimeout: Duration, lastSeen: Option<int>)

  datatype Tracker = Tracker(routes: map<string, Entry>, ch: seq<string>)

  /** A route without a positive timeout never expires; one never seen is idle for the longest time a
      Duration can hold. */
  predicate Expired(entry: Entry, now: int) {
    entry.idleTimeout > 0 && Since(entry.lastSeen, now) >= entry.idleTimeout
  }

  predicate Emits(t: Tracker, id: string, now: int) {
    id in t.routes && Expired(t.routes[id], now) && |t.ch| < CAPACITY
  }

  /** One turn of the sweep's loop. */
  function Visit(t: Tracker, id: string, now: int): Tracker {
    if Emits(t, id, now) then Tracker(t.routes[id := t.routes[id].(lastSeen := Some(now))], t.ch + [id]) else t
  }

  /** A sweep that visits the routes in the given order, and what it emits. */
  function Sweep(t: Tracker, order: seq<string>, now: int): Tracker {
    if order == [] then t else Visit(Sweep(t, order[..|order| - 1], now), order[|order| - 1], now)
  }

  function Emitted(t: Tracker, order: seq<string>, now: int): seq<string> {
    if order == [] then []
    else
      var front, id := order[..|order| - 1], order[|order| - 1];
      Emitted(t, front, now) + (if Emits(Sweep(t, front, now), id, now) then [id] else [])
  }

  /** The order in which a map yields its keys: each once. */
  ghost predicate IsOrder(order: seq<string>, keys: set<string>) {
    Distinct(order) && Members(order) == keys
  }

  function Touch(t: Tracker, id: string, stamp: int): Tracker {
    var entry := if id in t.routes then t.routes[id] else Entry(0, None);
    t.(routes := t.routes[id := entry.(lastSeen := Some(stamp))])
  }

  function Configure(t: Tracker, id: string, idleTimeout: Duration): Tracker {
    var entry := if id in t.routes then t.routes[id].(idleTimeout := idleTimeout) else Entry(idleTimeout, None);
    t.(routes := t.routes[id := entry])
  }

  class IdleTracker {
    var routes: map<string, Entry>
    var sleepCh: seq<string>

    constructor ()
      ensures routes == map[] && sleepCh == []
    {
      routes, sleepCh := map[], [];
    }

    /** A new timeout keeps the route's last-seen time; a new route starts with none. */
    method RegisterRoute(id: string, idleTimeout: Duration)
      modifies this`routes
      ensures Tracker(routes, sleepCh) == Configure(old(Tracker(routes, sleepCh)), id, idleTimeout)
      ensures routes[id].idleTimeout == idleTimeout
      ensures routes[id].lastSeen == if id in old(routes) then old(routes)[id].lastSeen else None
    {
      if id in routes {
        routes := routes[id := routes[id].(idleTimeout := idleTimeout)];
        return;
      }
      routes := routes[id := Entry(idleTimeout, None)];
    }

    /** The stamp was read before the lock was taken. An unknown route is added without a timeout. */
    method RecordActivity(id: string, stamp: int)
      modifies this`routes
      ensures Tracker(routes, sleepCh) == Touch(old(Tracker(routes, sleepCh)), id, stamp)
      ensures routes[id] == Entry(if id in old(routes) then old(routes)[id].idleTimeout else 0, Some(stamp))
    {
      if id !in routes {
        routes := routes[id := Entry(0, None)];
      }
      routes := routes[id := routes[id].(lastSeen := Some(stamp))];
    }

    /** One sweep under the lock, with the stamp read before it. */
    method CheckIdleRoutes(now: int) returns (ghost order: seq<string>)
      modifies this`routes, this`sleepCh
      ensures IsOrder(order, old(routes).Keys)
      ensures Tracker(routes, sleepCh) == Sweep(old(Tracker(routes, sleepCh)), order, now)
      ensures |old(sleepCh)| <= 64 ==> SweepsExactly(old(Tracker(routes, sleepCh)), now, Tracker(routes, sleepCh))
    {
      order := [];
      ghost var before := Tracker(routes, sleepCh);
      var todo := routes.Keys;
      while todo != {}
        invariant todo <= routes.Keys == old(routes).Keys
        invariant Distinct(order) && Members(order) == old(routes).Keys - todo
        invariant Tracker(routes, sleepCh) == Sweep(old(Tracker(routes, sleepCh)), order, now)
      {
        var id :| id in todo;
        DistinctSnoc(order, id);
        assert (order + [id])[..|order|] == order;
        order := order + [id];
        todo := todo - {id};
        var entry := routes[id];
        if entry.idleTimeout <= 0 {
          continue;
        }
        if Since(entry.lastSeen, now) < entry.idleTimeout {
          continue;
        }
        if |sleepCh| < CAPACITY {
          sleepCh := sleepCh + [id];
          routes := routes[id := entry.(lastSeen := Some(now))];
        }
      }
      if |before.ch| <= 64 {
        SweepIsExact(before, order, now);
      }
    }
  }

  /** The routes that have been idle for their timeout: those with a positive timeout that were never seen
      or last seen at least that long ago. */
  function IdleRoutes(t: Tracker, now: int): set<string> {
    set id | id in t.routes && t.routes[id].idleTimeout > 0 &&
             (t.routes[id].lastSeen.None? || t.routes[id].lastSeen.value + t.routes[id].idleTimeout <= now)
  }

  lemma ExpiredIsIdle(t: Tracker, id: string, now: int)
    requires id in t.routes
    ensures Expired(t.routes[id], now) <==> id in IdleRoutes(t, now)
  {}

  /** A sweep changes nothing but the channel, by appending what it emits, and the stamps of the
      routes it emits. */
  ghost predicate SweptTo(t: Tracker, emitted: seq<string>, now: int, u: Tracker) {
    && u.ch == t.ch + emitted
    && u.routes.Keys == t.routes.Keys
    && forall id | id in t.routes ::
         u.routes[id] == if id in Members(emitted) then t.routes[id].(lastSeen := Some(now)) else t.routes[id]
  }

  function Offered(t: Tracker, emitted: seq<string>, id: string, now: int): seq<string> {
    if id in IdleRoutes(t, now) && |t.ch| + |emitted| < CAPACITY then emitted + [id] else emitted
  }

  lemma VisitSwept(t: Tracker, emitted: seq<string>, now: int, u: Tracker, id: string)
    requires SweptTo(t, emitted, now, u) && id !in Members(emitted)
    ensures SweptTo(t, Offered(t, emitted, id, now), now, Visit(u, id, now))
    ensures emitted + (if Emits(u, id, now) then [id] else []) == Offered(t, emitted, id, now)
  {
    MembersSnoc(emitted, id);
    if id in t.routes {
      ExpiredIsIdle(t, id, now);
    }
    assert emitted + [] == emitted;
    assert t.ch + (emitted + [id]) == t.ch + emitted + [id];
  }

  lemma OfferedCount(t: Tracker, emitted: seq<string>, now: int, visited: set<string>, id: string)
    requires Distinct(emitted) && Members(emitted) <= visited * IdleRoutes(t, now) && id !in visited
    requires |t.ch| <= CAPACITY && |emitted| == Min(|visited * IdleRoutes(t, now)|, CAPACITY - |t.ch|)
    ensures
      var offered, seen := Offered(t, emitted, id, now), visited + {id};
      && Distinct(offered) && Members(offered) <= seen * IdleRoutes(t, now)
      && |offered| == Min(|seen * IdleRoutes(t, now)|, CAPACITY - |t.ch|)
  {
    var before := visited * IdleRoutes(t, now);
    assert (visited + {id}) * IdleRoutes(t, now) == if id in IdleRoutes(t, now) then before + {id} else before;
    DistinctSnoc(emitted, id);
  }

  /** What a sweep has done after visiting the routes in visited. */
  ghost predicate PrefixDone(t: Tracker, emitted: seq<string>, now: int, visited: set<string>, u: Tracker) {
    && SweptTo(t, emitted, now, u)
    && Distinct(emitted) && Members(emitted) <= visited * IdleRoutes(t, now)
    && |emitted| == Min(|visited * IdleRoutes(t, now)|, CAPACITY - |t.ch|)
  }

  lemma PrefixStep(t: Tracker, emitted: seq<string>, now: int, visited: set<string>, u: Tracker, id: string)
    requires PrefixDone(t, emitted, now, visited, u) && id !in visited && |t.ch| <= CAPACITY
    ensures PrefixDone(t, emitted + (if Emits(u, id, now) then [id] else []), now, visited + {id}, Visit(u, id, now))
  {
    VisitSwept(t, emitted, now, u, id);
    OfferedCount(t, emitted, now, visited, id);
  }

  lemma {:induction false} SweepPrefix(t: Tracker, order: seq<string>, now: int)
    requires Distinct(order) && |t.ch| <= CAPACITY
    ensures PrefixDone(t, Emitted(t, order, now), now, Members(order), Sweep(t, order, now))
  {
    if order == [] {
      assert Members(order) * IdleRoutes(t, now) == {};
    } else {
      var front, id := order[..|order| - 1], order[|order| - 1];
      SweepPrefix(t, front, now);
      assert order == front + [id];
      NotEarlier(front, id);
      PrefixStep(t, Emitted(t, front, now), now, Members(front), Sweep(t, front, now), id);
    }
  }

  lemma {:induction false} NotEarlier(front: seq<string>, id: string)
    requires Distinct(front + [id])
    ensures id !in Members(front)
  {
    if front != [] {
      var shorter, last := front[..|front| - 1], front[|front| - 1];
      var all := front + [id];
      assert all[|front| - 1] != all[|front|];
      assert forall i, j | 0 <= i < j < |shorter + [id]| :: (shorter + [id])[i] != (shorter + [id])[j] by {
        forall i, j | 0 <= i < j < |shorter + [id]|
          ensures (shorter + [id])[i] != (shorter + [id])[j]
        {
          assert all[i] != all[if j == |shorter| then |front| else j];
        }
      }
      NotEarlier(shorter, id);
    }
  }

  /** What one sweep does, in terms of who has been idle: with E the routes idle for their timeout and f free
      slots of the 64, it emits min(|E|, f) distinct members of E, restamps exactly those, touches
      nothing else and never overfills the channel. */
  ghost predicate SweepsExactly(t: Tracker, now: int, u: Tracker) {
    |u.ch| <= 64 &&
    exists emitted ::
      && SweptTo(t, emitted, now, u) && Distinct(emitted) && Members(emitted) <= IdleRoutes(t, now)
      && |emitted| == Min(|IdleRoutes(t, now)|, 64 - |t.ch|)
  }

  /** One sweep is exact: with E the routes idle for their timeout and f free slots of the 64, it emits
      min(|E|, f) distinct members of E, restamps exactly those, touches nothing else and never overfills the channel,
      whatever the order of the map. */
  lemma SweepIsExact(t: Tracker, order: seq<string>, now: int)
    requires IsOrder(order, t.routes.Keys) && |t.ch| <= 64
    ensures
      var emitted := Emitted(t, order, now);
      && SweptTo(t, emitted, now, Sweep(t, order, now))
      && Distinct(emitted) && Members(emitted) <= IdleRoutes(t, now)
      && |emitted| == Min(|IdleRoutes(t, now)|, 64 - |t.ch|)
      && |Sweep(t, order, now).ch| <= 64
      && SweepsExactly(t, now, Sweep(t, order, now))
  {
    SweepPrefix(t, order, now);
    assert Members(order) * IdleRoutes(t, now) == IdleRoutes(t, now);
  }
}
