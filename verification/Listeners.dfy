/** What stops, cleanup and starts do to listeners, their index and the sockets they hold, as functions of
    values (internal/proxy/route_manager.go). Whether a stop or a start succeeds is decided by oracles;
    the order of a diff is arbitrary. */
module Listeners {
  import opened Prelude
  import opened Tables
  import opened Routes
  import opened ReloadSpec

  datatype ListenerState = Initial | Starting | Running | Stopping | Stopped | Failed

  class RouteListener {
    const route: Route
    const closer: bool      // there is a wake coordinator to close
    var state: ListenerState
    var closed: bool        // it has been closed

    constructor (route: Route, closer: bool)
      ensures this.route == route && this.closer == closer && state == Initial && !closed
    {
      this.route, this.closer, state, closed := route, closer, Initial, false;
    }
  }

  function ListenerKey(l: RouteListener): string { RouteKey(l.route) }

  function RoutesOf(listeners: seq<RouteListener>): seq<Route> {
    if listeners == [] then []
    else RoutesOf(listeners[..|listeners| - 1]) + [listeners[|listeners| - 1].route]
  }

  /** Shutdown returns nil, or an error after which the server is closed; in the latter case its
      socket may or may not be free. */
  datatype StopOutcome = StopSucceeds | StopFails(released: bool)

  /** The listener comes up, cannot bind although this manager does not hold the port, or is not seen
      to come up in time. */
  datatype StartOutcome = Listens | CannotBind | TimesOut(bound: bool)

  datatype ReloadError =
    | NotFound(key: string)
    | StopFailed(key: string)
    | StartFailed(route: Route)

  lemma {:induction false} RoutesOfTable(ls: seq<RouteListener>)
    ensures LastWins(RouteKey, RoutesOf(ls)).Keys == LastWins(ListenerKey, ls).Keys
    ensures forall k | k in LastWins(ListenerKey, ls) ::
              LastWins(RouteKey, RoutesOf(ls))[k] == LastWins(ListenerKey, ls)[k].route
  {
    if ls != [] {
      RoutesOfTable(ls[..|ls| - 1]);
      assert RoutesOf(ls)[..|RoutesOf(ls)| - 1] == RoutesOf(ls[..|ls| - 1]);
    }
  }

  lemma {:induction false} RoutesOfConcat(a: seq<RouteListener>, b: seq<RouteListener>)
    ensures RoutesOf(a + b) == RoutesOf(a) + RoutesOf(b)
  {
    if b == [] {
      assert a + b == a;
    } else {
      RoutesOfConcat(a, b[..|b| - 1]);
      assert (a + b)[..|a + b| - 1] == a + b[..|b| - 1];
    }
  }

  lemma {:induction false} RoutesOfKeep(ls: seq<RouteListener>, gone: set<string>)
    ensures RoutesOf(Keep(ListenerKey, ls, gone)) == Keep(RouteKey, RoutesOf(ls), gone)
  {
    if ls != [] {
      var front, last := ls[..|ls| - 1], ls[|ls| - 1];
      RoutesOfKeep(front, gone);
      assert RoutesOf(ls)[..|RoutesOf(ls)| - 1] == RoutesOf(front);
      RoutesOfConcat(Keep(ListenerKey, front, gone), if ListenerKey(last) in gone then [] else [last]);
      assert RoutesOf([last]) == [last.route];
    }
  }

  /** The result of stopping one key, given the keys of the index. */
  function StopError(index: set<string>, key: string, outcome: StopOutcome): Option<ReloadError> {
    if key !in index then Some(NotFound(key))
    else if outcome.StopFails? then Some(StopFailed(key))
    else None
  }

  /** The state of each indexed listener, and whether its wake coordinator is closed. */
  ghost function Marks(index: map<string, RouteListener>): map<string, (ListenerState, bool)>
    reads index.Values
  {
    map k | k in index :: (index[k].state, index[k].closed)
  }

  twostate lemma MarksStay(index: map<string, RouteListener>)
    requires forall k | k in index :: index[k].state == old(index[k].state) && index[k].closed == old(index[k].closed)
    ensures Marks(index) == old(Marks(index))
  {}

  /** What telling the listeners of these keys to stop makes of their marks: a listener ends stopped with
      its wake coordinator, if it has one, closed; or, if the shutdown fails, stopping with it as it
      was. */
  function MarksAfter(index: map<string, RouteListener>, marks: map<string, (ListenerState, bool)>, keys: set<string>,
                      stops: string -> StopOutcome): map<string, (ListenerState, bool)>
  {
    map k | k in index && k in marks ::
      if k !in keys then marks[k]
      else if stops(k).StopSucceeds? then (Stopped, marks[k].1 || index[k].closer)
      else (Stopping, marks[k].1)
  }

  /** The marks after a reload's stops, in terms of the listeners' fields. */
  twostate lemma ToldInFields(index: map<string, RouteListener>, keys: set<string>, stops: string -> StopOutcome)
    requires Told(index, old(Marks(index)), keys, stops)
    ensures forall k | k in index ::
              && index[k].state == (if k !in keys then old(index[k].state) else if stops(k).StopSucceeds? then Stopped else Stopping)
              && index[k].closed == (old(index[k].closed) || (k in keys && index[k].closer && stops(k).StopSucceeds?))
  {
    forall k | k in index
      ensures
        && index[k].state == (if k !in keys then old(index[k].state) else if stops(k).StopSucceeds? then Stopped else Stopping)
        && index[k].closed == (old(index[k].closed) || (k in keys && index[k].closer && stops(k).StopSucceeds?))
    {
      assert Marks(index)[k] == (index[k].state, index[k].closed);
      assert old(Marks(index))[k] == (old(index[k].state), old(index[k].closed));
    }
  }

  /** Exactly the listeners of these keys have been told to stop, since they had these marks. */
  ghost predicate Told(index: map<string, RouteListener>, marks: map<string, (ListenerState, bool)>, keys: set<string>,
                       stops: string -> StopOutcome)
    reads index.Values
  {
    Marks(index) == MarksAfter(index, marks, keys, stops)
  }

  /** Telling one more listener. */
  lemma MarksNext(index: map<string, RouteListener>, marks: map<string, (ListenerState, bool)>, keys: set<string>,
                  k: string, stops: string -> StopOutcome)
    ensures MarksAfter(index, MarksAfter(index, marks, keys, stops), {k}, stops) == MarksAfter(index, marks, keys + {k}, stops)
  {}

  /** A listener whose key did not stop is not marked stopped. */
  lemma NotMarked(index: map<string, RouteListener>, marks: map<string, (ListenerState, bool)>, keys: seq<string>,
                  stops: string -> StopOutcome, k: string)
    requires marks.Keys == index.Keys && k in index && marks[k].0 != Stopped
    requires k !in Members(SuccessfulStops(index.Keys, keys, stops))
    ensures MarksAfter(index, marks, Members(keys), stops)[k].0 != Stopped
  {
    SuccessMember(index.Keys, keys, stops, k);
  }

  /** So nobody left after cleanup is stopped, if nobody was before. */
  lemma LeftNotStopped(before: seq<RouteListener>, index: map<string, RouteListener>, marks: map<string, (ListenerState, bool)>,
                       keys: seq<string>, stops: string -> StopOutcome)
    requires index == LastWins(ListenerKey, before) && marks.Keys == index.Keys && forall k | k in marks :: marks[k].0 != Stopped
    requires Told(index, marks, Members(keys), stops)
    requires forall l | l in before && l !in index.Values :: l.state != Stopped
    ensures forall l | l in before && ListenerKey(l) !in Members(SuccessfulStops(index.Keys, keys, stops)) :: l.state != Stopped
  {
    LastWinsKeyed(ListenerKey, before);
    forall l | l in before && l in index.Values && ListenerKey(l) !in Members(SuccessfulStops(index.Keys, keys, stops))
      ensures l.state != Stopped
    {
      var k :| k in index && index[k] == l;
      NotMarked(index, marks, keys, stops, k);
      assert Marks(index)[k].0 == l.state;
    }
  }

  lemma NobodyTold(index: map<string, RouteListener>, marks: map<string, (ListenerState, bool)>, stops: string -> StopOutcome)
    requires marks.Keys == index.Keys
    ensures MarksAfter(index, marks, {}, stops) == marks
  {}

  /** Different keys lead to different listeners. */
  ghost predicate Injective(index: map<string, RouteListener>) {
    forall j, k | j in index && k in index && j != k :: index[j] != index[k]
  }

  lemma KeyedIsInjective(listeners: seq<RouteListener>)
    ensures Injective(LastWins(ListenerKey, listeners))
  {
    LastWinsKeyed(ListenerKey, listeners);
  }

  /** The keys of a stop list that stop, in order. */
  function SuccessfulStops(index: set<string>, keys: seq<string>, stops: string -> StopOutcome): seq<string> {
    if keys == [] then []
    else
      var k := keys[|keys| - 1];
      SuccessfulStops(index, keys[..|keys| - 1], stops) + (if StopError(index, k, stops(k)).None? then [k] else [])
  }

  /** The errors of a stop list, in order. */
  function StopErrors(index: set<string>, keys: seq<string>, stops: string -> StopOutcome): seq<ReloadError> {
    if keys == [] then []
    else
      var k := keys[|keys| - 1];
      var err := StopError(index, k, stops(k));
      StopErrors(index, keys[..|keys| - 1], stops) + (if err.Some? then [err.value] else [])
  }

  /** The sockets left when the listener of one key has been told to stop. */
  function BoundWithout(bound: map<int, RouteListener>, index: map<string, RouteListener>, key: string,
                        outcome: StopOutcome): map<int, RouteListener>
  {
    if key in index && outcome != StopFails(false) then map p | p in bound && bound[p] != index[key] :: bound[p]
    else bound
  }

  function BoundAfterStops(bound: map<int, RouteListener>, index: map<string, RouteListener>, keys: seq<string>,
                           stops: string -> StopOutcome): map<int, RouteListener>
  {
    if keys == [] then bound
    else
      var k := keys[|keys| - 1];
      BoundWithout(BoundAfterStops(bound, index, keys[..|keys| - 1], stops), index, k, stops(k))
  }

  lemma Appended(ls: seq<RouteListener>, l: RouteListener)
    ensures LastWins(ListenerKey, ls + [l]) == LastWins(ListenerKey, ls)[ListenerKey(l) := l]
    ensures RoutesOf(ls + [l]) == RoutesOf(ls) + [l.route]
  {
    assert (ls + [l])[..|ls|] == ls;
  }

  lemma NextPrefix(base: seq<Route>, routes: seq<Route>, i: nat)
    requires i < |routes|
    ensures base + routes[..i + 1] == base + routes[..i] + [routes[i]]
    ensures routes[..i + 1][..i] == routes[..i]
  {}

  lemma TakeSnoc(routes: seq<Route>, i: nat)
    requires i < |routes|
    ensures routes[..i + 1] == routes[..i] + [routes[i]]
  {}

  lemma UpdateRight(a: map<string, RouteListener>, b: map<string, RouteListener>, k: string, l: RouteListener)
    ensures (a + b)[k := l] == a + b[k := l]
  {}

  predicate Binds(ports: set<int>, route: Route, outcome: StartOutcome) {
    route.listen !in ports && (outcome.Listens? || outcome == TimesOut(true))
  }

  /** The result of starting one route, given the ports this manager holds. */
  function StartError(ports: set<int>, route: Route, outcome: StartOutcome): Option<ReloadError> {
    if route.listen !in ports && outcome.Listens? then None else Some(StartFailed(route))
  }

  /** The ports held after a start list. */
  function PortsAfterStarts(ports: set<int>, toStart: seq<Route>, starts: Route -> StartOutcome): set<int> {
    if toStart == [] then ports
    else
      var held, r := PortsAfterStarts(ports, toStart[..|toStart| - 1], starts), toStart[|toStart| - 1];
      if Binds(held, r, starts(r)) then held + {r.listen} else held
  }

  /** The errors of a start list, in order. */
  function StartErrors(ports: set<int>, toStart: seq<Route>, starts: Route -> StartOutcome): seq<ReloadError> {
    if toStart == [] then []
    else
      var front, r := toStart[..|toStart| - 1], toStart[|toStart| - 1];
      var err := StartError(PortsAfterStarts(ports, front, starts), r, starts(r));
      StartErrors(ports, front, starts) + (if err.Some? then [err.value] else [])
  }

  /** How many starts find their port held by this manager. */
  function Conflicts(ports: set<int>, toStart: seq<Route>, starts: Route -> StartOutcome): nat {
    if toStart == [] then 0
    else
      var front, r := toStart[..|toStart| - 1], toStart[|toStart| - 1];
      Conflicts(ports, front, starts) + (if r.listen in PortsAfterStarts(ports, front, starts) then 1 else 0)
  }

  lemma NextStart(ports: set<int>, toStart: seq<Route>, i: nat, starts: Route -> StartOutcome)
    requires i < |toStart|
    ensures
      var held, r := PortsAfterStarts(ports, toStart[..i], starts), toStart[i];
      var err := StartError(held, r, starts(r));
      && PortsAfterStarts(ports, toStart[..i + 1], starts) == held + (if Binds(held, r, starts(r)) then {r.listen} else {})
      && StartErrors(ports, toStart[..i + 1], starts)
      == StartErrors(ports, toStart[..i], starts) + (if err.Some? then [err.value] else [])
      && Conflicts(ports, toStart[..i + 1], starts)
      == Conflicts(ports, toStart[..i], starts) + (if r.listen in held then 1 else 0)
  {
    assert toStart[..i + 1][..i] == toStart[..i];
  }

  function KeyList(routes: seq<Route>): seq<string> {
    if routes == [] then [] else KeyList(routes[..|routes| - 1]) + [RouteKey(routes[|routes| - 1])]
  }

  /** The keys to stop, in the order in which they are stopped. */
  function StopList(c: RouteChanges): seq<string> { c.removed + KeyList(c.modified) }

  lemma {:induction false} MembersConcat(a: seq<string>, b: seq<string>)
    ensures Members(a + b) == Members(a) + Members(b)
  {
    if b == [] {
      assert a + b == a;
    } else {
      MembersConcat(a, b[..|b| - 1]);
      assert (a + b)[..|a + b| - 1] == a + b[..|b| - 1];
    }
  }

  lemma {:induction false} KeyListMembers(routes: seq<Route>)
    ensures Members(KeyList(routes)) == KeysOf(RouteKey, routes)
  {
    if routes != [] {
      KeyListMembers(routes[..|routes| - 1]);
      MembersSnoc(KeyList(routes[..|routes| - 1]), RouteKey(routes[|routes| - 1]));
    }
  }

  lemma StopListMembers(c: RouteChanges)
    ensures Members(StopList(c)) == c.ToStop(RouteKey)
  {
    MembersConcat(c.removed, KeyList(c.modified));
    KeyListMembers(c.modified);
  }

  lemma {:induction false} SuccessMember(index: set<string>, keys: seq<string>, stops: string -> StopOutcome, k: string)
    ensures k in Members(SuccessfulStops(index, keys, stops)) <==> k in Members(keys) && k in index && stops(k).StopSucceeds?
  {
    if keys != [] {
      var done, last := SuccessfulStops(index, keys[..|keys| - 1], stops), keys[|keys| - 1];
      SuccessMember(index, keys[..|keys| - 1], stops, k);
      MembersSnoc(done, last);
      assert done + [] == done;
    }
  }

  lemma SuccessSet(index: set<string>, keys: seq<string>, stops: string -> StopOutcome)
    ensures Members(SuccessfulStops(index, keys, stops))
         == set k | k in Members(keys) && k in index && stops(k).StopSucceeds?
  {
    forall k
      ensures k in Members(SuccessfulStops(index, keys, stops)) <==>
              k in Members(keys) && k in index && stops(k).StopSucceeds?
    {
      SuccessMember(index, keys, stops, k);
    }
  }

  lemma {:induction false} StopErrorsExact(index: set<string>, keys: seq<string>, stops: string -> StopOutcome)
    ensures forall e :: e in StopErrors(index, keys, stops) <==>
              || (e.NotFound? && e.key in Members(keys) && e.key !in index)
              || (e.StopFailed? && e.key in Members(keys) && e.key in index && stops(e.key).StopFails?)
  {
    if keys != [] {
      StopErrorsExact(index, keys[..|keys| - 1], stops);
    }
  }

  /** The listener its key leads to. */
  predicate Indexed(index: map<string, RouteListener>, l: RouteListener) {
    ListenerKey(l) in index && index[ListenerKey(l)] == l
  }

  /** Every socket this manager holds belongs to the listener that its key leads to. */
  ghost predicate HoldersIndexed(bound: map<int, RouteListener>, index: map<string, RouteListener>) {
    forall p | p in bound :: Indexed(index, bound[p])
  }

  /** Stopping the keys gives this listener's sockets up. */
  ghost predicate Released(index: map<string, RouteListener>, keys: set<string>, stops: string -> StopOutcome, l: RouteListener) {
    Indexed(index, l) && ListenerKey(l) in keys && stops(ListenerKey(l)) != StopFails(false)
  }

  /** The sockets left after a list of stops are exactly those that were not released. */
  lemma {:induction false} SocketsAfterStops(bound: map<int, RouteListener>, index: map<string, RouteListener>,
                                             keys: seq<string>, stops: string -> StopOutcome)
    requires forall k | k in index :: ListenerKey(index[k]) == k
    ensures BoundAfterStops(bound, index, keys, stops)
         == map p | p in bound && !Released(index, Members(keys), stops, bound[p]) :: bound[p]
  {
    if keys != [] {
      SocketsAfterStops(bound, index, keys[..|keys| - 1], stops);
    }
  }

  /** With fresh ports, the starts that meet a held port are as many as the held ports they need. */
  lemma {:induction false} ConflictCount(ports: set<int>, toStart: seq<Route>, starts: Route -> StartOutcome)
    requires PortsDiffer(toStart)
    ensures Conflicts(ports, toStart, starts) == |ports * PortsOf(toStart)|
    ensures ports <= PortsAfterStarts(ports, toStart, starts) <= ports + PortsOf(toStart)
  {
    if toStart == [] {
      assert ports * {} == {};
    } else {
      var front, p := toStart[..|toStart| - 1], toStart[|toStart| - 1].listen;
      ConflictCount(ports, front, starts);
      if p in PortsOf(front) {
        var i := PortIndex(front, p);
      }
      OneMore(ports, PortsOf(front), p);
    }
  }

  lemma OneMore(a: set<int>, b: set<int>, p: int)
    requires p !in b
    ensures |a * (b + {p})| == |a * b| + (if p in a then 1 else 0)
  {
    assert a * (b + {p}) == if p in a then a * b + {p} else a * b;
  }

  function PortsOf(routes: seq<Route>): set<int> {
    if routes == [] then {} else PortsOf(routes[..|routes| - 1]) + {routes[|routes| - 1].listen}
  }

  ghost predicate PortsDiffer(routes: seq<Route>) {
    forall i, j | 0 <= i < j < |routes| :: routes[i].listen != routes[j].listen
  }

  /** The routes of a table listen on different ports. */
  ghost predicate TablePortsDiffer(table: map<string, Route>) {
    forall j, k | j in table && k in table && table[j].listen == table[k].listen :: j == k
  }

  lemma {:induction false} PortIndex(routes: seq<Route>, p: int) returns (i: nat)
    requires p in PortsOf(routes)
    ensures i < |routes| && routes[i].listen == p
  {
    i := |routes| - 1;
    if routes[i].listen != p {
      i := PortIndex(routes[..|routes| - 1], p);
    }
  }

  lemma {:induction false} PortAt(routes: seq<Route>, i: nat)
    requires i < |routes|
    ensures routes[i].listen in PortsOf(routes)
  {
    if i < |routes| - 1 {
      PortAt(routes[..|routes| - 1], i);
    }
  }

  /** The ports a reload starts. */
  function PortsToStart(before: map<string, Route>, after: map<string, Route>): set<int> {
    set k | k in KeysToStart(before, after) :: after[k].listen
  }

  /** The ports of the routes to start, read off the tables. */
  lemma StartPorts(before: map<string, Route>, after: map<string, Route>, c: RouteChanges)
    requires IsDiff(RouteKey, before, after, c)
    ensures PortsOf(c.added + c.modified) == PortsToStart(before, after)
    ensures TablePortsDiffer(after) ==> PortsDiffer(c.added + c.modified)
  {
    var toStart := c.added + c.modified;
    forall p | p in PortsOf(toStart)
      ensures p in PortsToStart(before, after)
    {
      var i := PortIndex(toStart, p);
      StartKey(RouteKey, before, after, c, i);
    }
    forall k | k in KeysToStart(before, after)
      ensures after[k].listen in PortsOf(toStart)
    {
      var i := StartOfKey(RouteKey, before, after, c, k);
      PortAt(toStart, i);
    }
    if TablePortsDiffer(after) {
      forall i, j | 0 <= i < j < |toStart|
        ensures toStart[i].listen != toStart[j].listen
      {
        StartKey(RouteKey, before, after, c, i);
        StartKey(RouteKey, before, after, c, j);
        StartsDiffer(RouteKey, before, after, c, i, j);
      }
    }
  }

  /** The ports a reload needs and this manager does not give up: those held by a listener that its key
      does not lead to, or whose stop fails without releasing it. */
  ghost function Blocked(bound: map<int, RouteListener>, index: map<string, RouteListener>, needed: set<int>,
                         stops: string -> StopOutcome): set<int>
  {
    set p | p in bound && p in needed && !(Indexed(index, bound[p]) && stops(ListenerKey(bound[p])) != StopFails(false))
  }

  /** A listener in the index whose port a reload needs is one of those the reload stops. */
  lemma NeededIsStopped(before: map<string, Route>, after: map<string, Route>, k: string, p: int)
    requires TablePortsDiffer(after) && k in before && before[k].listen == p && p in PortsToStart(before, after)
    ensures k in KeysToStop(before, after)
  {
    var j :| j in KeysToStart(before, after) && after[j].listen == p;
    assert k in after && before[k] == after[k] ==> j == k;
  }

  lemma StillMatch(bound: map<int, RouteListener>, listeners: seq<RouteListener>, keys: seq<string>, stops: string -> StopOutcome)
    requires SocketsMatch(bound)
    ensures SocketsMatch(BoundAfterStops(bound, LastWins(ListenerKey, listeners), keys, stops))
  {
    LastWinsKeyed(ListenerKey, listeners);
    SocketsAfterStops(bound, LastWins(ListenerKey, listeners), keys, stops);
  }

  /** The ports that a reload needs and still holds after its stops. */
  lemma HeldExactly(listeners: seq<RouteListener>, bound: map<int, RouteListener>, config: seq<Route>, c: RouteChanges,
                    stops: string -> StopOutcome)
    requires IsDiff(RouteKey, LastWins(RouteKey, RoutesOf(listeners)), LastWins(RouteKey, config), c)
    requires TablePortsDiffer(LastWins(RouteKey, config)) && forall p | p in bound :: bound[p].route.listen == p
    ensures
      var before, after, index := LastWins(RouteKey, RoutesOf(listeners)), LastWins(RouteKey, config), LastWins(ListenerKey, listeners);
      BoundAfterStops(bound, index, StopList(c), stops).Keys * PortsToStart(before, after)
      == Blocked(bound, index, PortsToStart(before, after), stops)
  {
    var before, after, index := LastWins(RouteKey, RoutesOf(listeners)), LastWins(RouteKey, config), LastWins(ListenerKey, listeners);
    LastWinsKeyed(ListenerKey, listeners);
    RoutesOfTable(listeners);
    SocketsAfterStops(bound, index, StopList(c), stops);
    StopListMembers(c);
    ToStopFromTables(RouteKey, before, after, c);
    forall p | p in bound && p in PortsToStart(before, after) && Indexed(index, bound[p])
      ensures ListenerKey(bound[p]) in Members(StopList(c))
    {
      NeededIsStopped(before, after, ListenerKey(bound[p]), p);
    }
  }

  /** How many starts of a reload meet a port that this manager holds, exactly, when the configured
      routes listen on different ports. */
  lemma ReloadConflictsExactly(listeners: seq<RouteListener>, bound: map<int, RouteListener>, config: seq<Route>,
                               c: RouteChanges, stops: string -> StopOutcome, starts: Route -> StartOutcome)
    requires IsDiff(RouteKey, LastWins(RouteKey, RoutesOf(listeners)), LastWins(RouteKey, config), c)
    requires TablePortsDiffer(LastWins(RouteKey, config)) && forall p | p in bound :: bound[p].route.listen == p
    ensures
      var index := LastWins(ListenerKey, listeners);
      var needed := PortsToStart(LastWins(RouteKey, RoutesOf(listeners)), LastWins(RouteKey, config));
      var conflicts := Conflicts(BoundAfterStops(bound, index, StopList(c), stops).Keys, c.added + c.modified, starts);
      && conflicts == |Blocked(bound, index, needed, stops)|
      && (conflicts == 0 <==> forall p | p in bound && p in needed ::
                                Indexed(index, bound[p]) && stops(ListenerKey(bound[p])) != StopFails(false))
  {
    var before, after := LastWins(RouteKey, RoutesOf(listeners)), LastWins(RouteKey, config);
    var index := LastWins(ListenerKey, listeners);
    StartPorts(before, after, c);
    HeldExactly(listeners, bound, config, c, stops);
    ConflictCount(BoundAfterStops(bound, index, StopList(c), stops).Keys, c.added + c.modified, starts);
    NoneBlocked(bound, index, PortsToStart(before, after), stops);
  }

  lemma NoneBlocked(bound: map<int, RouteListener>, index: map<string, RouteListener>, needed: set<int>,
                    stops: string -> StopOutcome)
    ensures |Blocked(bound, index, needed, stops)| == 0 <==>
              forall p | p in bound && p in needed ::
                Indexed(index, bound[p]) && stops(ListenerKey(bound[p])) != StopFails(false)
  {
    var blocked := Blocked(bound, index, needed, stops);
    EmptyOrNot(blocked);
    forall p | p in bound && p in needed
      ensures p in blocked <==> !(Indexed(index, bound[p]) && stops(ListenerKey(bound[p])) != StopFails(false))
    {}
  }

  /** No socket is held by a listener with one of these keys. */
  ghost predicate NoHolder(bound: map<int, RouteListener>, keys: set<string>) {
    forall p | p in bound :: ListenerKey(bound[p]) !in keys
  }

  /** Stopping and cleaning up keeps every holder in the index. */
  lemma CleanupKeepsHolders(bound: map<int, RouteListener>, index: map<string, RouteListener>, keys: seq<string>,
                            stops: string -> StopOutcome)
    requires HoldersIndexed(bound, index) && forall k | k in index :: ListenerKey(index[k]) == k
    ensures HoldersIndexed(BoundAfterStops(bound, index, keys, stops), index - Members(SuccessfulStops(index.Keys, keys, stops)))
  {
    SocketsAfterStops(bound, index, keys, stops);
    SuccessSet(index.Keys, keys, stops);
  }

  /** If every stop gives its sockets up, no holder is left with a key to start. */
  lemma NoHolderToStart(bound: map<int, RouteListener>, index: map<string, RouteListener>, before: map<string, Route>,
                        after: map<string, Route>, c: RouteChanges, stops: string -> StopOutcome)
    requires IsDiff(RouteKey, before, after, c) && index.Keys == before.Keys
    requires HoldersIndexed(bound, index) && forall k | k in index :: ListenerKey(index[k]) == k
    requires forall k :: stops(k) != StopFails(false)
    ensures NoHolder(BoundAfterStops(bound, index, StopList(c), stops), KeysOf(RouteKey, c.added + c.modified))
  {
    SocketsAfterStops(bound, index, StopList(c), stops);
    StopListMembers(c);
    KeysConcat(RouteKey, c.added, c.modified);
  }

  lemma StartKeysDiffer(before: map<string, Route>, after: map<string, Route>, c: RouteChanges)
    requires IsDiff(RouteKey, before, after, c)
    ensures DistinctKeys(RouteKey, c.added + c.modified)
  {
    forall i, j | 0 <= i < j < |c.added + c.modified|
      ensures RouteKey((c.added + c.modified)[i]) != RouteKey((c.added + c.modified)[j])
    {
      StartsDiffer(RouteKey, before, after, c, i, j);
    }
  }

  /** Every holder is in the index, and none has a key that is still to be started. */
  ghost predicate HoldersSettled(bound: map<int, RouteListener>, index: map<string, RouteListener>, toStart: seq<Route>, i: nat)
    requires i <= |toStart|
  {
    HoldersIndexed(bound, index) && NoHolder(bound, KeysOf(RouteKey, toStart[i..]))
  }

  /** Every holder is in the index before the stops of a reload, and none that is left after them has a key
      to start. */
  ghost predicate SettledBeforeStarts(bound: map<int, RouteListener>, index: map<string, RouteListener>, keys: seq<string>,
                                      stops: string -> StopOutcome, toStart: seq<Route>)
  {
    HoldersIndexed(bound, index) && DistinctKeys(RouteKey, toStart) &&
    NoHolder(BoundAfterStops(bound, index, keys, stops), KeysOf(RouteKey, toStart))
  }

  lemma HoldersBeforeStarts(bound: map<int, RouteListener>, listeners: seq<RouteListener>, keys: seq<string>,
                            stops: string -> StopOutcome, toStart: seq<Route>)
    ensures
      var index := LastWins(ListenerKey, listeners);
      SettledBeforeStarts(bound, index, keys, stops, toStart) ==>
        DistinctKeys(RouteKey, toStart) &&
        HoldersSettled(BoundAfterStops(bound, index, keys, stops),
                       index - Members(SuccessfulStops(index.Keys, keys, stops)), toStart, 0)
  {
    var index := LastWins(ListenerKey, listeners);
    LastWinsKeyed(ListenerKey, listeners);
    if HoldersIndexed(bound, index) {
      CleanupKeepsHolders(bound, index, keys, stops);
    }
    assert toStart[0..] == toStart;
  }

  /** A launch keeps the holders in the index, as no holder has its key. */
  lemma LaunchKeepsHolders(bound: map<int, RouteListener>, index: map<string, RouteListener>, l: RouteListener, binds: bool,
                           toStart: seq<Route>, i: nat)
    requires i < |toStart| && DistinctKeys(RouteKey, toStart) && l.route == toStart[i]
    requires HoldersSettled(bound, index, toStart, i)
    ensures HoldersSettled(if binds then bound[l.route.listen := l] else bound, index[ListenerKey(l) := l], toStart, i + 1)
  {
    RestOfKeys(RouteKey, toStart, i);
  }

  /** The stops of a reload that fail. */
  function FailedStops(recorded: seq<Route>, config: seq<Route>, stops: string -> StopOutcome): set<string> {
    set k | k in KeysToStop(LastWins(RouteKey, recorded), LastWins(RouteKey, config)) && stops(k).StopFails?
  }

  lemma SuccessfulAre(recorded: seq<Route>, config: seq<Route>, c: RouteChanges, index: set<string>,
                      stops: string -> StopOutcome)
    requires c.ToStop(RouteKey) == KeysToStop(LastWins(RouteKey, recorded), LastWins(RouteKey, config))
    requires index == LastWins(RouteKey, recorded).Keys
    ensures Members(SuccessfulStops(index, StopList(c), stops))
         == c.ToStop(RouteKey) - FailedStops(recorded, config, stops)
    ensures FailedStops(recorded, config, stops) <= c.ToStop(RouteKey)
  {
    StopListMembers(c);
    SuccessSet(index, StopList(c), stops);
  }

  lemma AppliedAsRelation(recorded: seq<Route>, config: seq<Route>, c: RouteChanges, index: set<string>,
                          stops: string -> StopOutcome, result: seq<Route>)
    requires IsDiff(RouteKey, LastWins(RouteKey, recorded), LastWins(RouteKey, config), c)
    requires index == LastWins(RouteKey, recorded).Keys
    requires result == Keep(RouteKey, recorded, Members(SuccessfulStops(index, StopList(c), stops))) + (c.added + c.modified)
    ensures Reloads(RouteKey, recorded, config, FailedStops(recorded, config, stops), result)
  {
    ToStopFromTables(RouteKey, LastWins(RouteKey, recorded), LastWins(RouteKey, config), c);
    SuccessfulAre(recorded, config, c, index, stops);
    Reassociate(recorded, c, FailedStops(recorded, config, stops));
  }

  lemma Reassociate(recorded: seq<Route>, c: RouteChanges, failed: set<string>)
    ensures Applied(RouteKey, recorded, c, failed)
         == Keep(RouteKey, recorded, c.ToStop(RouteKey) - failed) + (c.added + c.modified)
  {}

  lemma IndexedAreRecorded(ls: seq<RouteListener>)
    ensures forall l | l in LastWins(ListenerKey, ls).Values :: l in ls
  {
    forall l | l in LastWins(ListenerKey, ls).Values
      ensures l in ls
    {
      var k :| k in LastWins(ListenerKey, ls) && LastWins(ListenerKey, ls)[k] == l;
      var i := LastWinsMember(ListenerKey, ls, k);
    }
  }

  /** The recorded routes before each reload and after the last one, for a run of reloads. */
  ghost predicate ReloadRun(trail: seq<seq<Route>>, configs: seq<seq<Route>>, stops: nat -> string -> StopOutcome) {
    && |trail| == |configs| + 1
    && forall i | 0 <= i < |configs| ::
         Reloads(RouteKey, trail[i], configs[i], FailedStops(trail[i], configs[i], stops(i)), trail[i + 1])
  }

  lemma ReloadRunSnoc(trail: seq<seq<Route>>, configs: seq<seq<Route>>, i: nat, stops: nat -> string -> StopOutcome,
                      next: seq<Route>)
    requires i < |configs| && ReloadRun(trail, configs[..i], stops)
    requires Reloads(RouteKey, trail[i], configs[i], FailedStops(trail[i], configs[i], stops(i)), next)
    ensures ReloadRun(trail + [next], configs[..i + 1], stops)
  {
    var longer := trail + [next];
    forall j | 0 <= j < i + 1
      ensures Reloads(RouteKey, longer[j], configs[..i + 1][j], FailedStops(longer[j], configs[..i + 1][j], stops(j)), longer[j + 1])
    {
      assert configs[..i + 1][j] == configs[j] && (j < i ==> configs[..i][j] == configs[j]);
    }
  }

  /** Skipping the apply step when the diff is empty is the same as applying the empty diff. */
  lemma EmptyReload(recorded: seq<Route>, config: seq<Route>, c: RouteChanges, stops: string -> StopOutcome)
    requires IsDiff(RouteKey, LastWins(RouteKey, recorded), LastWins(RouteKey, config), c) && c.Empty()
    ensures FailedStops(recorded, config, stops) == {}
    ensures Reloads(RouteKey, recorded, config, {}, recorded)
  {
    DiffEmpty(RouteKey, LastWins(RouteKey, recorded), LastWins(RouteKey, config), c);
    KeepEverything(RouteKey, recorded);
    assert c.ToStop(RouteKey) - {} == {};
    assert Applied(RouteKey, recorded, c, {}) == recorded;
  }

  lemma CleanupRestores(before: seq<RouteListener>, index: map<string, RouteListener>, keys: seq<string>,
                        stops: string -> StopOutcome)
    requires index == LastWins(ListenerKey, before)
    ensures
      var gone := Members(SuccessfulStops(index.Keys, keys, stops));
      var left := Keep(ListenerKey, before, gone);
      && index - gone == LastWins(ListenerKey, left)
      && RoutesOf(left) == Keep(RouteKey, RoutesOf(before), gone)
      && forall l | l in left :: l in before && ListenerKey(l) !in gone
  {
    var gone := Members(SuccessfulStops(index.Keys, keys, stops));
    LastWinsKeep(ListenerKey, before, gone);
    RoutesOfKeep(before, gone);
    forall l | l in Keep(ListenerKey, before, gone)
      ensures l in before && ListenerKey(l) !in gone
    {
      KeepMember(ListenerKey, before, gone, l);
    }
  }

  /** What an earlier route of different port leaves for a later one. */
  lemma LastIsUntouched(ports: set<int>, toStart: seq<Route>, starts: Route -> StartOutcome)
    requires PortsDiffer(toStart) && toStart != []
    ensures
      var front, last := toStart[..|toStart| - 1], toStart[|toStart| - 1];
      && (last.listen in PortsAfterStarts(ports, front, starts) <==> last.listen in ports)
      && PortsDiffer(front) && forall r | r in front :: r.listen != last.listen
  {
    var front, last := toStart[..|toStart| - 1], toStart[|toStart| - 1];
    ConflictCount(ports, front, starts);
    if last.listen in PortsOf(front) {
      var i := PortIndex(front, last.listen);
    }
    forall r | r in front
      ensures r.listen != last.listen
    {
      var i :| 0 <= i < |front| && front[i] == r;
    }
  }

  /** Which starts fail, when the routes listen on different ports: those whose port is held to begin with,
      and those that do not come up. */
  lemma {:induction false} StartErrorsExact(ports: set<int>, toStart: seq<Route>, starts: Route -> StartOutcome, r: Route)
    requires PortsDiffer(toStart)
    ensures StartFailed(r) in StartErrors(ports, toStart, starts) <==>
              r in toStart && (r.listen in ports || !starts(r).Listens?)
  {
    if toStart != [] {
      LastIsUntouched(ports, toStart, starts);
      StartErrorsExact(ports, toStart[..|toStart| - 1], starts, r);
      assert toStart == toStart[..|toStart| - 1] + [toStart[|toStart| - 1]];
    }
  }

  /** Of the routes whose port is free to begin with, those that bind hold it in the end. */
  lemma {:induction false} PortsTaken(ports: set<int>, toStart: seq<Route>, starts: Route -> StartOutcome, r: Route)
    requires PortsDiffer(toStart) && r in toStart && r.listen !in ports
    ensures r.listen in PortsAfterStarts(ports, toStart, starts) <==> starts(r).Listens? || starts(r) == TimesOut(true)
  {
    var front, last := toStart[..|toStart| - 1], toStart[|toStart| - 1];
    LastIsUntouched(ports, toStart, starts);
    assert toStart == front + [last];
    if r != last {
      PortsTaken(ports, front, starts, r);
    }
  }

  /** The routes a reload starts, read off the tables. */
  lemma StartRoutesAre(before: map<string, Route>, after: map<string, Route>, c: RouteChanges, r: Route)
    requires IsDiff(RouteKey, before, after, c)
    ensures r in c.added + c.modified <==> RouteKey(r) in KeysToStart(before, after) && after[RouteKey(r)] == r
  {
    var toStart := c.added + c.modified;
    if r in toStart {
      var i :| 0 <= i < |toStart| && toStart[i] == r;
      StartKey(RouteKey, before, after, c, i);
    }
    if RouteKey(r) in KeysToStart(before, after) && after[RouteKey(r)] == r {
      var i := StartOfKey(RouteKey, before, after, c, RouteKey(r));
    }
  }

  lemma {:induction false} OnlyStartErrors(ports: set<int>, toStart: seq<Route>, starts: Route -> StartOutcome)
    ensures forall e | e in StartErrors(ports, toStart, starts) :: e.StartFailed?
  {
    if toStart != [] {
      OnlyStartErrors(ports, toStart[..|toStart| - 1], starts);
    }
  }

  /** No key was missing from the index. */
  ghost predicate NothingMissing(errors: seq<ReloadError>) {
    forall k :: NotFound(k) !in errors
  }

  /** The stops that are reported to have failed are these, and no key was missing from the index. */
  ghost predicate StopsReported(errors: seq<ReloadError>, failed: set<string>) {
    NothingMissing(errors) && forall k :: StopFailed(k) in errors <==> k in failed
  }

  lemma NothingMissingTogether(a: seq<ReloadError>, b: seq<ReloadError>)
    requires NothingMissing(a) && NothingMissing(b)
    ensures NothingMissing(a + b)
  {}

  /** Exactly the failed stops are reported as such, and no key is missing from the index. */
  lemma ReloadReports(before: seq<RouteListener>, bound: map<int, RouteListener>, config: seq<Route>, c: RouteChanges,
                      stops: string -> StopOutcome, starts: Route -> StartOutcome)
    requires IsDiff(RouteKey, LastWins(RouteKey, RoutesOf(before)), LastWins(RouteKey, config), c)
    ensures
      var index := LastWins(ListenerKey, before);
      var held := BoundAfterStops(bound, index, StopList(c), stops).Keys;
      var errors := StopErrors(index.Keys, StopList(c), stops) + StartErrors(held, c.added + c.modified, starts);
      StopsReported(errors, FailedStops(RoutesOf(before), config, stops))
  {
    var recorded := RoutesOf(before);
    var index := LastWins(ListenerKey, before);
    var held := BoundAfterStops(bound, index, StopList(c), stops).Keys;
    RoutesOfTable(before);
    StopListMembers(c);
    ToStopFromTables(RouteKey, LastWins(RouteKey, recorded), LastWins(RouteKey, config), c);
    StopReports(recorded, config, Members(StopList(c)), index.Keys, StopErrors(index.Keys, StopList(c), stops),
                StartErrors(held, c.added + c.modified, starts), stops) by {
      StopErrorsExact(index.Keys, StopList(c), stops);
      OnlyStartErrors(held, c.added + c.modified, starts);
    }
  }

  lemma StopReports(recorded: seq<Route>, config: seq<Route>, keys: set<string>, index: set<string>,
                    stopErrors: seq<ReloadError>, startErrors: seq<ReloadError>, stops: string -> StopOutcome)
    requires keys == KeysToStop(LastWins(RouteKey, recorded), LastWins(RouteKey, config))
    requires index == LastWins(RouteKey, recorded).Keys
    requires forall e :: e in stopErrors <==>
               || (e.NotFound? && e.key in keys && e.key !in index)
               || (e.StopFailed? && e.key in keys && e.key in index && stops(e.key).StopFails?)
    requires forall e | e in startErrors :: e.StartFailed?
    ensures StopsReported(stopErrors + startErrors, FailedStops(recorded, config, stops))
  {}

  /** Every socket is held for the port its listener is for. */
  ghost predicate SocketsMatch(bound: map<int, RouteListener>) {
    forall p | p in bound :: bound[p].route.listen == p
  }

  ghost predicate Extends(before: map<int, RouteListener>, after: map<int, RouteListener>) {
    forall p | p in before :: p in after && after[p] == before[p]
  }

  lemma LaunchAdds(start: map<int, RouteListener>, held: map<int, RouteListener>, l: RouteListener, binds: bool)
    requires Extends(start, held) && (binds ==> l.route.listen !in held)
    ensures
      var after := if binds then held[l.route.listen := l] else held;
      && Extends(start, after)
      && after.Keys == held.Keys + (if binds then {l.route.listen} else {})
  {}

  /** A listener that its key does not lead to keeps its socket. */
  ghost predicate KeepsUnindexed(before: map<int, RouteListener>, index: map<string, RouteListener>, after: map<int, RouteListener>) {
    forall p | p in before && !Indexed(index, before[p]) :: p in after && after[p] == before[p]
  }

  /** The keys that a reload from these listeners to this config stops. */
  function KeysToStopFor(listeners: seq<RouteListener>, config: seq<Route>): set<string> {
    KeysToStop(LastWins(RouteKey, RoutesOf(listeners)), LastWins(RouteKey, config))
  }

  /** The ports that a reload from these listeners to this config needs. */
  function Needed(listeners: seq<RouteListener>, config: seq<Route>): set<int> {
    PortsToStart(LastWins(RouteKey, RoutesOf(listeners)), LastWins(RouteKey, config))
  }

  /** What a reload does to ports and holders, before it is run. */
  lemma ReloadPorts(listeners: seq<RouteListener>, bound: map<int, RouteListener>, config: seq<Route>, c: RouteChanges,
                    stops: string -> StopOutcome, starts: Route -> StartOutcome)
    requires IsDiff(RouteKey, LastWins(RouteKey, RoutesOf(listeners)), LastWins(RouteKey, config), c) && SocketsMatch(bound)
    ensures
      var index := LastWins(ListenerKey, listeners);
      var left := BoundAfterStops(bound, index, StopList(c), stops);
      && (TablePortsDiffer(LastWins(RouteKey, config)) ==>
            Conflicts(left.Keys, c.added + c.modified, starts) == |Blocked(bound, index, Needed(listeners, config), stops)|)
      && DistinctKeys(RouteKey, c.added + c.modified)
      && (HoldersIndexed(bound, index) && (forall k :: stops(k) != StopFails(false)) ==>
            NoHolder(left, KeysOf(RouteKey, c.added + c.modified)))
  {
    var before, after := LastWins(RouteKey, RoutesOf(listeners)), LastWins(RouteKey, config);
    var index := LastWins(ListenerKey, listeners);
    StartKeysDiffer(before, after, c);
    if TablePortsDiffer(after) {
      ReloadConflictsExactly(listeners, bound, config, c, stops, starts);
    }
    if HoldersIndexed(bound, index) && forall k :: stops(k) != StopFails(false) {
      RoutesOfTable(listeners);
      LastWinsKeyed(ListenerKey, listeners);
      NoHolderToStart(bound, index, before, after, c, stops);
    }
  }

  /** What a reload reports of its starts, and which ports it then holds, when the configured routes listen
      on different ports: a route to start is reported exactly if its port is blocked or it does not come
      up; and if its port is not blocked, the port is held exactly if it comes up or is late but bound. */
  ghost predicate StartsReported(bound: map<int, RouteListener>, index: map<string, RouteListener>, recorded: seq<Route>,
                                 config: seq<Route>, stops: string -> StopOutcome, starts: Route -> StartOutcome,
                                 errors: seq<ReloadError>, held: set<int>)
  {
    var before, after := LastWins(RouteKey, recorded), LastWins(RouteKey, config);
    var blocked := Blocked(bound, index, PortsToStart(before, after), stops);
    && (forall r :: StartFailed(r) in errors <==>
          RouteKey(r) in KeysToStart(before, after) && after[RouteKey(r)] == r && (r.listen in blocked || !starts(r).Listens?))
    && (forall k | k in KeysToStart(before, after) && after[k].listen !in blocked ::
          after[k].listen in held <==> starts(after[k]).Listens? || starts(after[k]) == TimesOut(true))
  }

  lemma ReloadStarts(listeners: seq<RouteListener>, bound: map<int, RouteListener>, config: seq<Route>, c: RouteChanges,
                     stops: string -> StopOutcome, starts: Route -> StartOutcome)
    requires IsDiff(RouteKey, LastWins(RouteKey, RoutesOf(listeners)), LastWins(RouteKey, config), c)
    requires SocketsMatch(bound) && TablePortsDiffer(LastWins(RouteKey, config))
    ensures
      var index := LastWins(ListenerKey, listeners);
      var left := BoundAfterStops(bound, index, StopList(c), stops).Keys;
      StartsReported(bound, index, RoutesOf(listeners), config, stops, starts,
                     StopErrors(index.Keys, StopList(c), stops) + StartErrors(left, c.added + c.modified, starts),
                     PortsAfterStarts(left, c.added + c.modified, starts))
  {
    var before, after := LastWins(RouteKey, RoutesOf(listeners)), LastWins(RouteKey, config);
    var index := LastWins(ListenerKey, listeners);
    var left := BoundAfterStops(bound, index, StopList(c), stops).Keys;
    HeldExactly(listeners, bound, config, c, stops);
    StopErrorsExact(index.Keys, StopList(c), stops);
    AllStartsReported(before, after, c, left, starts, StopErrors(index.Keys, StopList(c), stops));
    AllStartsHold(before, after, c, left, starts);
  }

  lemma AllStartsReported(before: map<string, Route>, after: map<string, Route>, c: RouteChanges, left: set<int>,
                          starts: Route -> StartOutcome, stopErrors: seq<ReloadError>)
    requires IsDiff(RouteKey, before, after, c) && TablePortsDiffer(after)
    requires forall e | e in stopErrors :: !e.StartFailed?
    ensures forall r :: StartFailed(r) in stopErrors + StartErrors(left, c.added + c.modified, starts) <==>
              RouteKey(r) in KeysToStart(before, after) && after[RouteKey(r)] == r &&
              (r.listen in left * PortsToStart(before, after) || !starts(r).Listens?)
  {
    forall r
      ensures StartFailed(r) in stopErrors + StartErrors(left, c.added + c.modified, starts) <==>
                RouteKey(r) in KeysToStart(before, after) && after[RouteKey(r)] == r &&
                (r.listen in left * PortsToStart(before, after) || !starts(r).Listens?)
    {
      StartReported(before, after, c, left, starts, r);
    }
  }

  lemma AllStartsHold(before: map<string, Route>, after: map<string, Route>, c: RouteChanges, left: set<int>,
                      starts: Route -> StartOutcome)
    requires IsDiff(RouteKey, before, after, c) && TablePortsDiffer(after)
    ensures forall k | k in KeysToStart(before, after) && after[k].listen !in left * PortsToStart(before, after) ::
              after[k].listen in PortsAfterStarts(left, c.added + c.modified, starts) <==>
              starts(after[k]).Listens? || starts(after[k]) == TimesOut(true)
  {
    forall k | k in KeysToStart(before, after) && after[k].listen !in left * PortsToStart(before, after)
      ensures after[k].listen in PortsAfterStarts(left, c.added + c.modified, starts) <==>
                starts(after[k]).Listens? || starts(after[k]) == TimesOut(true)
    {
      StartHolds(before, after, c, left, starts, k);
    }
  }

  lemma StartReported(before: map<string, Route>, after: map<string, Route>, c: RouteChanges, left: set<int>,
                      starts: Route -> StartOutcome, r: Route)
    requires IsDiff(RouteKey, before, after, c) && TablePortsDiffer(after)
    ensures StartFailed(r) in StartErrors(left, c.added + c.modified, starts) <==>
              RouteKey(r) in KeysToStart(before, after) && after[RouteKey(r)] == r &&
              (r.listen in left * PortsToStart(before, after) || !starts(r).Listens?)
  {
    StartPorts(before, after, c);
    StartErrorsExact(left, c.added + c.modified, starts, r);
    StartRoutesAre(before, after, c, r);
    if r in c.added + c.modified {
      NeededPort(before, after, RouteKey(r));
    }
  }

  lemma StartHolds(before: map<string, Route>, after: map<string, Route>, c: RouteChanges, left: set<int>,
                   starts: Route -> StartOutcome, k: string)
    requires IsDiff(RouteKey, before, after, c) && TablePortsDiffer(after)
    requires k in KeysToStart(before, after) && after[k].listen !in left * PortsToStart(before, after)
    ensures after[k].listen in PortsAfterStarts(left, c.added + c.modified, starts) <==>
              starts(after[k]).Listens? || starts(after[k]) == TimesOut(true)
  {
    StartPorts(before, after, c);
    NeededPort(before, after, k);
    var i := StartOfKey(RouteKey, before, after, c, k);
    PortsTaken(left, c.added + c.modified, starts, after[k]);
  }

  lemma NeededPort(before: map<string, Route>, after: map<string, Route>, k: string)
    requires k in KeysToStart(before, after)
    ensures after[k].listen in PortsToStart(before, after)
  {}

  lemma KeptThroughStarts(bound: map<int, RouteListener>, index: map<string, RouteListener>, left: map<int, RouteListener>,
                          after: map<int, RouteListener>)
    requires KeepsUnindexed(bound, index, left) && Extends(left, after)
    ensures KeepsUnindexed(bound, index, after)
  {}

  lemma StopsKeepUnindexed(listeners: seq<RouteListener>, bound: map<int, RouteListener>, keys: seq<string>,
                           stops: string -> StopOutcome)
    ensures
      var index := LastWins(ListenerKey, listeners);
      KeepsUnindexed(bound, index, BoundAfterStops(bound, index, keys, stops))
  {
    LastWinsKeyed(ListenerKey, listeners);
    SocketsAfterStops(bound, LastWins(ListenerKey, listeners), keys, stops);
  }

  /** All that is known of a reload before it is run. */
  lemma ReloadFacts(listeners: seq<RouteListener>, bound: map<int, RouteListener>, config: seq<Route>, c: RouteChanges,
                    stops: string -> StopOutcome, starts: Route -> StartOutcome)
    requires IsDiff(RouteKey, LastWins(RouteKey, RoutesOf(listeners)), LastWins(RouteKey, config), c) && SocketsMatch(bound)
    ensures
      var index, toStart := LastWins(ListenerKey, listeners), c.added + c.modified;
      var left := BoundAfterStops(bound, index, StopList(c), stops);
      var errors := StopErrors(index.Keys, StopList(c), stops) + StartErrors(left.Keys, toStart, starts);
      && index.Keys == LastWins(RouteKey, RoutesOf(listeners)).Keys
      && Members(StopList(c)) == KeysToStopFor(listeners, config)
      && StopsReported(errors, FailedStops(RoutesOf(listeners), config, stops))
      && KeepsUnindexed(bound, index, left)
      && (TablePortsDiffer(LastWins(RouteKey, config)) ==>
            && Conflicts(left.Keys, toStart, starts) == |Blocked(bound, index, Needed(listeners, config), stops)|
            && StartsReported(bound, index, RoutesOf(listeners), config, stops, starts, errors,
                              PortsAfterStarts(left.Keys, toStart, starts)))
      && (HoldersIndexed(bound, index) && (forall k :: stops(k) != StopFails(false)) ==>
            SettledBeforeStarts(bound, index, StopList(c), stops, toStart))
  {
    RoutesOfTable(listeners);
    StopListMembers(c);
    ToStopFromTables(RouteKey, LastWins(RouteKey, RoutesOf(listeners)), LastWins(RouteKey, config), c);
    ReloadReports(listeners, bound, config, c, stops, starts);
    StopsKeepUnindexed(listeners, bound, StopList(c), stops);
    ReloadPorts(listeners, bound, config, c, stops, starts);
    if TablePortsDiffer(LastWins(RouteKey, config)) {
      ReloadStarts(listeners, bound, config, c, stops, starts);
    }
  }

  /** All that is known of a reload whose diff is empty: there is nothing to do, and doing nothing does it. */
  lemma EmptyReloadFacts(listeners: seq<RouteListener>, bound: map<int, RouteListener>, config: seq<Route>, c: RouteChanges,
                         stops: string -> StopOutcome, starts: Route -> StartOutcome)
    requires IsDiff(RouteKey, LastWins(RouteKey, RoutesOf(listeners)), LastWins(RouteKey, config), c) && c.Empty()
    ensures
      var index, recorded := LastWins(ListenerKey, listeners), RoutesOf(listeners);
      var failed := FailedStops(recorded, config, stops);
      && Reloads(RouteKey, recorded, config, failed, recorded)
      && StopsReported([], failed)
      && |Blocked(bound, index, Needed(listeners, config), stops)| == 0
      && StartsReported(bound, index, recorded, config, stops, starts, [], bound.Keys)
      && KeysToStopFor(listeners, config) == {}
  {
    EmptyReload(RoutesOf(listeners), config, c, stops);
    DiffEmpty(RouteKey, LastWins(RouteKey, RoutesOf(listeners)), LastWins(RouteKey, config), c);
    assert Needed(listeners, config) == {};
    assert Blocked(bound, LastWins(ListenerKey, listeners), Needed(listeners, config), stops) == {};
  }

  /** The indices below n, in some order. */
  ghost predicate IsPermutation(order: seq<nat>, n: nat) {
    |order| == n && (forall j | 0 <= j < n :: order[j] < n) && forall i, j | 0 <= i < j < n :: order[i] != order[j]
  }

  /** The listeners in the order in which they come up. */
  function InOrder(ls: seq<RouteListener>, order: seq<nat>): seq<RouteListener>
    requires forall j | 0 <= j < |order| :: order[j] < |ls|
  {
    if order == [] then [] else InOrder(ls, order[..|order| - 1]) + [ls[order[|order| - 1]]]
  }

  lemma {:induction false} InOrderSize(ls: seq<RouteListener>, order: seq<nat>)
    requires forall j | 0 <= j < |order| :: order[j] < |ls|
    ensures |InOrder(ls, order)| == |order|
  {
    if order != [] {
      InOrderSize(ls, order[..|order| - 1]);
    }
  }

  lemma {:induction false} InOrderAt(ls: seq<RouteListener>, order: seq<nat>, i: nat)
    requires i < |order| && forall j | 0 <= j < |order| :: order[j] < |ls|
    ensures i < |InOrder(ls, order)| && InOrder(ls, order)[i] == ls[order[i]]
  {
    InOrderSize(ls, order[..|order| - 1]);
    if i < |order| - 1 {
      InOrderAt(ls, order[..|order| - 1], i);
    }
  }

  /** The sockets held after these listeners have come up one after the other. */
  function BoundAfterLaunches(bound: map<int, RouteListener>, ls: seq<RouteListener>, starts: Route -> StartOutcome)
    : map<int, RouteListener>
  {
    if ls == [] then bound
    else
      var held, l := BoundAfterLaunches(bound, ls[..|ls| - 1], starts), ls[|ls| - 1];
      if Binds(held.Keys, l.route, starts(l.route)) then held[l.route.listen := l] else held
  }

  function LaunchConflicts(bound: map<int, RouteListener>, ls: seq<RouteListener>, starts: Route -> StartOutcome): nat {
    if ls == [] then 0
    else
      var front := ls[..|ls| - 1];
      LaunchConflicts(bound, front, starts) +
      (if ls[|ls| - 1].route.listen in BoundAfterLaunches(bound, front, starts) then 1 else 0)
  }

  ghost predicate ListenersDiffer(ls: seq<RouteListener>) {
    forall i, j | 0 <= i < j < |ls| :: ls[i].route.listen != ls[j].route.listen
  }

  /** A holder is one of these listeners, on its port. */
  ghost predicate HeldBy(bound: map<int, RouteListener>, ls: seq<RouteListener>) {
    forall p | p in bound :: bound[p] in ls && bound[p].route.listen == p
  }

  lemma HeldByMore(bound: map<int, RouteListener>, ls: seq<RouteListener>, l: RouteListener, binds: bool)
    requires HeldBy(bound, ls)
    ensures HeldBy(if binds then bound[l.route.listen := l] else bound, ls + [l])
  {}

  /** From no sockets, a holder is one of the listeners that came up, on its port. */
  lemma {:induction false} LaunchesMatch(ls: seq<RouteListener>, starts: Route -> StartOutcome)
    ensures HeldBy(BoundAfterLaunches(map[], ls, starts), ls)
    ensures SocketsMatch(BoundAfterLaunches(map[], ls, starts))
  {
    if ls != [] {
      var front, last := ls[..|ls| - 1], ls[|ls| - 1];
      LaunchesMatch(front, starts);
      var held := BoundAfterLaunches(map[], front, starts);
      HeldByMore(held, front, last, Binds(held.Keys, last.route, starts(last.route)));
      assert ls == front + [last];
    }
  }

  lemma EarlierDiffer(ls: seq<RouteListener>)
    requires ListenersDiffer(ls) && ls != []
    ensures ListenersDiffer(ls[..|ls| - 1])
    ensures forall l | l in ls[..|ls| - 1] :: l.route.listen != ls[|ls| - 1].route.listen
  {
    forall l | l in ls[..|ls| - 1]
      ensures l.route.listen != ls[|ls| - 1].route.listen
    {
      var i :| 0 <= i < |ls| - 1 && ls[i] == l;
    }
  }

  lemma LastFindsPortFree(ls: seq<RouteListener>, starts: Route -> StartOutcome)
    requires ListenersDiffer(ls) && ls != []
    ensures ls[|ls| - 1].route.listen !in BoundAfterLaunches(map[], ls[..|ls| - 1], starts)
  {
    EarlierDiffer(ls);
    LaunchesMatch(ls[..|ls| - 1], starts);
  }

  lemma {:induction false} NoLaunchConflicts(ls: seq<RouteListener>, starts: Route -> StartOutcome)
    requires ListenersDiffer(ls)
    ensures LaunchConflicts(map[], ls, starts) == 0
  {
    if ls != [] {
      EarlierDiffer(ls);
      NoLaunchConflicts(ls[..|ls| - 1], starts);
      LastFindsPortFree(ls, starts);
    }
  }

  /** On different ports, from no sockets, a listener holds its port exactly if it comes up or is late but
      bound. */
  lemma {:induction false} LaunchHolds(ls: seq<RouteListener>, starts: Route -> StartOutcome, l: RouteListener)
    requires ListenersDiffer(ls) && l in ls
    ensures l.route.listen in BoundAfterLaunches(map[], ls, starts) <==> starts(l.route).Listens? || starts(l.route) == TimesOut(true)
  {
    EarlierDiffer(ls);
    LastFindsPortFree(ls, starts);
    if l != ls[|ls| - 1] {
      assert l in ls[..|ls| - 1];
      LaunchHolds(ls[..|ls| - 1], starts, l);
    }
  }

  lemma RouteAt(ls: seq<RouteListener>, i: nat)
    requires i < |ls|
    ensures i < |RoutesOf(ls)| && RoutesOf(ls)[i] == ls[i].route
  {
    RoutesOfEach(ls);
  }

  lemma OrderPair(ls: seq<RouteListener>, order: seq<nat>, i: nat, j: nat)
    requires PortsDiffer(RoutesOf(ls)) && IsPermutation(order, |ls|) && i < j < |order|
    ensures j < |InOrder(ls, order)| && InOrder(ls, order)[i].route.listen != InOrder(ls, order)[j].route.listen
  {
    InOrderAt(ls, order, i);
    InOrderAt(ls, order, j);
    RouteAt(ls, order[i]);
    RouteAt(ls, order[j]);
    assert order[i] != order[j];
    DifferentPorts(RoutesOf(ls), order[i], order[j]);
  }

  lemma OrderKeepsDiffering(ls: seq<RouteListener>, order: seq<nat>)
    requires PortsDiffer(RoutesOf(ls)) && IsPermutation(order, |ls|)
    ensures ListenersDiffer(InOrder(ls, order))
  {
    var launched := InOrder(ls, order);
    InOrderSize(ls, order);
    forall i, j | 0 <= i < j < |launched|
      ensures launched[i].route.listen != launched[j].route.listen
    {
      OrderPair(ls, order, i, j);
    }
  }

  lemma DifferentPorts(routes: seq<Route>, i: nat, j: nat)
    requires PortsDiffer(routes) && i < |routes| && j < |routes| && i != j
    ensures routes[i].listen != routes[j].listen
  {}

  lemma RecordedAreIndexed(ls: seq<RouteListener>, l: RouteListener)
    requires PortsDiffer(RoutesOf(ls)) && l in ls
    ensures Indexed(LastWins(ListenerKey, ls), l)
  {
    RoutesOfEach(ls);
    forall i, j | 0 <= i < j < |ls|
      ensures ListenerKey(ls[i]) != ListenerKey(ls[j])
    {
      DifferentPorts(RoutesOf(ls), i, j);
      RouteKeyInjective(ls[i].route, ls[j].route);
    }
    var i :| 0 <= i < |ls| && ls[i] == l;
    DistinctIndex(ListenerKey, ls, i);
  }

  /** Coming up from no sockets on different ports, in any order: no conflict, every holder is in the index,
      and exactly the listeners that come up, or are late but bound, hold their port. */
  lemma LaunchesWithoutConflict(ls: seq<RouteListener>, order: seq<nat>, starts: Route -> StartOutcome)
    requires PortsDiffer(RoutesOf(ls)) && IsPermutation(order, |ls|)
    ensures
      var launched := InOrder(ls, order);
      && LaunchConflicts(map[], launched, starts) == 0
      && HoldersIndexed(BoundAfterLaunches(map[], launched, starts), LastWins(ListenerKey, ls))
      && forall l | l in launched ::
           l.route.listen in BoundAfterLaunches(map[], launched, starts) <==>
           starts(l.route).Listens? || starts(l.route) == TimesOut(true)
  {
    var launched := InOrder(ls, order);
    OrderKeepsDiffering(ls, order);
    NoLaunchConflicts(launched, starts);
    forall l | l in launched
      ensures l.route.listen in BoundAfterLaunches(map[], launched, starts) <==>
                starts(l.route).Listens? || starts(l.route) == TimesOut(true)
    {
      LaunchHolds(launched, starts, l);
    }
    LaunchedAreIndexed(ls, order, starts);
  }

  lemma LaunchedAreIndexed(ls: seq<RouteListener>, order: seq<nat>, starts: Route -> StartOutcome)
    requires PortsDiffer(RoutesOf(ls)) && IsPermutation(order, |ls|)
    ensures HoldersIndexed(BoundAfterLaunches(map[], InOrder(ls, order), starts), LastWins(ListenerKey, ls))
  {
    var launched := InOrder(ls, order);
    LaunchesMatch(launched, starts);
    forall l | l in launched
      ensures Indexed(LastWins(ListenerKey, ls), l)
    {
      InOrderMember(ls, order, l);
      RecordedAreIndexed(ls, l);
    }
  }

  lemma {:induction false} InOrderMember(ls: seq<RouteListener>, order: seq<nat>, l: RouteListener)
    requires (forall j | 0 <= j < |order| :: order[j] < |ls|) && l in InOrder(ls, order)
    ensures l in ls
  {
    if l != ls[order[|order| - 1]] {
      InOrderMember(ls, order[..|order| - 1], l);
    }
  }

  lemma {:induction false} RoutesOfEach(ls: seq<RouteListener>)
    ensures |RoutesOf(ls)| == |ls| && forall i | 0 <= i < |ls| :: RoutesOf(ls)[i] == ls[i].route
  {
    if ls != [] {
      RoutesOfEach(ls[..|ls| - 1]);
    }
  }

  /** What a run needs so that it never runs into a port of its own. Stops may fail. */
  ghost predicate Clean(configs: seq<seq<Route>>, stops: nat -> string -> StopOutcome) {
    && (forall i | 0 <= i < |configs| :: TablePortsDiffer(LastWins(RouteKey, configs[i])))
    && forall i: nat, k: string :: stops(i)(k) != StopFails(false)
  }

  /** Of two listeners on one port that come up in order, the first holds the socket. */
  lemma FirstHolds(ls: seq<RouteListener>, starts: Route -> StartOutcome)
    requires |ls| == 2 && ls[0].route.listen == ls[1].route.listen
    requires starts(ls[0].route).Listens?
    ensures BoundAfterLaunches(map[], InOrder(ls, [0, 1]), starts) == map[ls[0].route.listen := ls[0]]
  {
    InOrderSize(ls, [0, 1]);
    InOrderAt(ls, [0, 1], 0);
    InOrderAt(ls, [0, 1], 1);
    assert InOrder(ls, [0, 1]) == ls;
    assert ls[..1][..0] == [] && ls[..1] == [ls[0]];
    assert BoundAfterLaunches(map[], ls[..1][..0], starts) == map[];
    assert BoundAfterLaunches(map[], ls[..1], starts) == map[ls[0].route.listen := ls[0]];
  }

  /** And of two with one key, the second is in the index. */
  lemma SecondIsIndexed(ls: seq<RouteListener>)
    requires |ls| == 2 && ls[0] != ls[1] && ListenerKey(ls[0]) == ListenerKey(ls[1])
    ensures !Indexed(LastWins(ListenerKey, ls), ls[0])
  {
    assert LastWins(ListenerKey, ls)[ListenerKey(ls[1])] == ls[1];
  }

  /** A reload to no routes in which every stop succeeds records nothing. */
  lemma EverythingGone(recorded: seq<Route>, listeners: seq<RouteListener>, stops: string -> StopOutcome)
    requires Reloads(RouteKey, recorded, [], FailedStops(recorded, [], stops), RoutesOf(listeners))
    requires forall k :: stops(k).StopSucceeds?
    ensures LastWins(ListenerKey, listeners) == map[] && LastWins(RouteKey, RoutesOf(listeners)) == map[]
  {
    assert FailedStops(recorded, [], stops) == {};
    ReloadConverges(RouteKey, recorded, [], {}, RoutesOf(listeners));
    NothingLeft(RouteKey, recorded, []);
    RoutesOfTable(listeners);
  }

  /** With one route to start and its port held by a listener that no key leads to, one port is blocked. */
  lemma OnePort(bound: map<int, RouteListener>, listeners: seq<RouteListener>, route: Route, stops: string -> StopOutcome)
    requires LastWins(RouteKey, RoutesOf(listeners)) == map[] && LastWins(ListenerKey, listeners) == map[]
    requires route.listen in bound
    ensures |Blocked(bound, LastWins(ListenerKey, listeners), Needed(listeners, [route]), stops)| == 1
    ensures TablePortsDiffer(LastWins(RouteKey, [route]))
  {
    var after := LastWins(RouteKey, [route]);
    assert LastWins(RouteKey, [route][..0]) == map[];
    assert after == map[RouteKey(route) := route];
    assert RouteKey(route) in KeysToStart(map[], after);
    assert Needed(listeners, [route]) == {route.listen};
    assert Blocked(bound, LastWins(ListenerKey, listeners), Needed(listeners, [route]), stops) == {route.listen};
  }
}
