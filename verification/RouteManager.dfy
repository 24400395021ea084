/** The route manager of internal/proxy/route_manager.go: the recorded listeners, their index by key,
    and the reload that stops, cleans up and starts. */
module RouteManagement {
  import opened Prelude
  import opened Tables
  import opened Routes
  import opened ReloadSpec
  import opened Listeners

  datatype StartResult = Started | AlreadyRunning | NoConfig

  class RouteManager {
    var routes: seq<RouteListener>
    var routeMap: map<string, RouteListener>
    var running: bool                     // cancel is not nil
    var bound: map<int, RouteListener>    // the sockets held by listeners of this manager

    constructor ()
      ensures routes == [] && routeMap == map[] && !running && bound == map[]
    {
      routes, routeMap, running, bound := [], map[], false, map[];
    }

    /** The index agrees with the list: a key is present exactly when some recorded listener has it,
        and it leads to the last such listener. */
    ghost predicate Agrees()
      reads this
    {
      routeMap == LastWins(ListenerKey, routes)
    }

    ghost predicate NoneStopped()
      reads this, routes
    {
      forall l | l in routes :: l.state != Stopped
    }

    ghost predicate Valid()
      reads this, routes
    {
      Agrees() && NoneStopped() && SocketsMatch(bound)
    }

    /** A shutdown that fails leaves the listener stopping and its wake coordinator open. */
    method StopRoute(key: string, outcome: StopOutcome) returns (err: Option<ReloadError>)
      modifies this`bound, if key in routeMap then {routeMap[key]} else {}
      ensures err == StopError(routeMap.Keys, key, outcome)
      ensures key in routeMap ==>
                routeMap[key].state == if outcome.StopSucceeds? then Stopped else Stopping
      ensures key in routeMap ==>
                routeMap[key].closed == (old(routeMap[key].closed) || (routeMap[key].closer && outcome.StopSucceeds?))
      ensures bound == BoundWithout(old(bound), routeMap, key, outcome)
    {
      if key !in routeMap {
        return Some(NotFound(key));
      }
      var listener := routeMap[key];
      listener.state := Stopping;
      if outcome != StopFails(false) {
        bound := map p | p in bound && bound[p] != listener :: bound[p];
      }
      if outcome.StopFails? {
        return Some(StopFailed(key));
      }
      if listener.closer {
        listener.closed := true;
      }
      listener.state := Stopped;
      err := None;
    }

    /** Drops the keys from the index and every listener with one of them from the list. */
    method CleanupStoppedRoutes(keys: seq<string>)
      modifies this`routes, this`routeMap
      ensures routes == Keep(ListenerKey, old(routes), Members(keys))
      ensures routeMap == old(routeMap) - Members(keys)
    {
      var keysMap := DeleteFromIndex(keys);
      var activeRoutes: seq<RouteListener> := [];
      for i := 0 to |routes|
        invariant activeRoutes == Keep(ListenerKey, routes[..i], keysMap)
      {
        assert routes[..i + 1][..i] == routes[..i];
        if ListenerKey(routes[i]) !in keysMap {
          activeRoutes := activeRoutes + [routes[i]];
        }
      }
      assert routes[..|routes|] == routes;
      routes := activeRoutes;
    }

    method DeleteFromIndex(keys: seq<string>) returns (keysMap: set<string>)
      modifies this`routeMap
      ensures keysMap == Members(keys) && routeMap == old(routeMap) - keysMap
    {
      keysMap := {};
      for i := 0 to |keys|
        invariant keysMap == Members(keys[..i])
        invariant routeMap == old(routeMap) - keysMap
      {
        assert keys[..i + 1][..i] == keys[..i];
        keysMap := keysMap + {keys[i]};
        routeMap := routeMap - {keys[i]};
      }
      assert keys[..|keys|] == keys;
    }

    /** The listeners that startRoute's own filter lets through. */
    ghost function NotStopped(listeners: seq<RouteListener>): seq<RouteListener>
      reads listeners
    {
      if listeners == [] then []
      else
        NotStopped(listeners[..|listeners| - 1]) +
        (if listeners[|listeners| - 1].state == Stopped then [] else [listeners[|listeners| - 1]])
    }

    lemma {:induction false} FilterDropsNothing(listeners: seq<RouteListener>)
      requires forall l | l in listeners :: l.state != Stopped
      ensures NotStopped(listeners) == listeners
    {
      if listeners != [] {
        FilterDropsNothing(listeners[..|listeners| - 1]);
      }
    }

    /** The filter at the head of startRoute's lock section. */
    method FilterStopped()
      modifies this`routes
      ensures routes == old(NotStopped(routes))
    {
      var activeRoutes: seq<RouteListener> := [];
      for i := 0 to |routes|
        invariant activeRoutes == NotStopped(routes[..i])
      {
        assert routes[..i + 1][..i] == routes[..i];
        if routes[i].state != Stopped {
          activeRoutes := activeRoutes + [routes[i]];
        }
      }
      assert routes[..|routes|] == routes;
      routes := activeRoutes;
    }

    /** Runs a listener and waits for it to be up. A port this manager already holds cannot be bound. */
    method BringUp(listener: RouteListener, outcome: StartOutcome) returns (err: Option<ReloadError>, conflict: bool)
      modifies this`bound, listener`state
      ensures listener.state != Stopped
      ensures conflict <==> listener.route.listen in old(bound)
      ensures bound == if Binds(old(bound).Keys, listener.route, outcome)
                       then old(bound)[listener.route.listen := listener] else old(bound)
      ensures err == StartError(old(bound).Keys, listener.route, outcome)
    {
      listener.state := Starting;
      conflict := listener.route.listen in bound;
      if !conflict && (outcome.Listens? || outcome == TimesOut(true)) {
        bound := bound[listener.route.listen := listener];
      }
      if outcome.TimesOut? {
        return Some(StartFailed(listener.route)), conflict;
      }
      if conflict || outcome.CannotBind? {
        listener.state := Failed;
        return Some(StartFailed(listener.route)), conflict;
      }
      listener.state := Running;
      err := None;
    }

    method Register(route: Route) returns (listener: RouteListener)
      modifies this`routes, this`routeMap
      ensures fresh(listener) && listener.route == route && listener.state == Initial
      ensures routes == old(routes) + [listener] && routeMap == old(routeMap)[ListenerKey(listener) := listener]
    {
      var closer: bool := *;
      listener := new RouteListener(route, closer);
      routeMap := routeMap[ListenerKey(listener) := listener];
      routes := routes + [listener];
    }

    /** Registers a new listener and tries to bring it up; it stays registered when that fails. */
    method Launch(route: Route, outcome: StartOutcome)
      returns (listener: RouteListener, err: Option<ReloadError>, conflict: bool)
      modifies this`routes, this`routeMap, this`bound
      ensures fresh(listener) && listener.route == route && listener.state != Stopped
      ensures routes == old(routes) + [listener] && routeMap == old(routeMap)[ListenerKey(listener) := listener]
      ensures conflict <==> route.listen in old(bound)
      ensures bound == if Binds(old(bound).Keys, route, outcome) then old(bound)[route.listen := listener] else old(bound)
      ensures err == StartError(old(bound).Keys, route, outcome)
    {
      listener := Register(route);
      err, conflict := BringUp(listener, outcome);
    }

    /** While no recorded listener is stopped, the filter drops nothing and the index stays in
        agreement. */
    method StartRoute(route: Route, outcome: StartOutcome)
      returns (listener: RouteListener, err: Option<ReloadError>, conflict: bool)
      requires Valid()
      modifies this`routes, this`routeMap, this`bound
      ensures Valid() && fresh(listener) && listener.route == route
      ensures routes == old(routes) + [listener] && RoutesOf(routes) == RoutesOf(old(routes)) + [route]
      ensures routeMap == old(routeMap)[ListenerKey(listener) := listener]
      ensures conflict <==> route.listen in old(bound)
      ensures bound == if Binds(old(bound).Keys, route, outcome) then old(bound)[route.listen := listener] else old(bound)
      ensures err == StartError(old(bound).Keys, route, outcome)
    {
      ghost var before := routes;
      FilterDropsNothing(before);
      FilterStopped();
      assert routes == before;
      listener, err, conflict := Launch(route, outcome);
      Appended(before, listener);
      forall l | l in routes
        ensures l.state != Stopped
      {
        assert l in before || l == listener;
      }
    }

    /** One turn of the first loop of applyRouteChanges. */
    method StopNext(key: string, stops: string -> StopOutcome) returns (err: Option<ReloadError>)
      requires Injective(routeMap)
      modifies this`bound, if key in routeMap then {routeMap[key]} else {}
      ensures err == StopError(routeMap.Keys, key, stops(key))
      ensures bound == BoundWithout(old(bound), routeMap, key, stops(key))
      ensures Told(routeMap, old(Marks(routeMap)), {key}, stops)
    {
      err := StopRoute(key, stops(key));
    }

    /** The first loop of applyRouteChanges. The listeners of the keys in the list are told to stop, and no
        others. */
    method StopRoutes(keys: seq<string>, stops: string -> StopOutcome)
      returns (successfulStops: seq<string>, errors: seq<ReloadError>)
      requires Injective(routeMap)
      modifies this`bound, routeMap.Values
      ensures Told(routeMap, old(Marks(routeMap)), Members(keys), stops)
      ensures successfulStops == SuccessfulStops(routeMap.Keys, keys, stops)
      ensures errors == StopErrors(routeMap.Keys, keys, stops)
      ensures bound == BoundAfterStops(old(bound), routeMap, keys, stops)
    {
      successfulStops, errors := [], [];
      ghost var marks, sockets := Marks(routeMap), bound;
      NobodyTold(routeMap, marks, stops);
      for i := 0 to |keys|
        invariant Told(routeMap, marks, Members(keys[..i]), stops)
        invariant successfulStops == SuccessfulStops(routeMap.Keys, keys[..i], stops)
        invariant errors == StopErrors(routeMap.Keys, keys[..i], stops)
        invariant bound == BoundAfterStops(sockets, routeMap, keys[..i], stops)
      {
        assert keys[..i + 1][..i] == keys[..i];
        MarksNext(routeMap, marks, Members(keys[..i]), keys[i], stops);
        var err := StopNext(keys[i], stops);
        if err.Some? {
          errors := errors + [err.value];
        } else {
          successfulStops := successfulStops + [keys[i]];
        }
      }
      assert keys[..|keys|] == keys;
    }

    /** The last loop of applyRouteChanges. No socket changes hands; and if no holder has a key to start,
        and no key is started twice, every holder stays in the index. */
    method StartRoutes(toStart: seq<Route>, starts: Route -> StartOutcome)
      returns (errors: seq<ReloadError>, conflicts: nat)
      requires Valid()
      modifies this`routes, this`routeMap, this`bound
      ensures Valid() && RoutesOf(routes) == RoutesOf(old(routes)) + toStart
      ensures forall l | l in routes :: l in old(routes) || fresh(l)
      ensures Extends(old(bound), bound)
      ensures old(HoldersSettled(bound, routeMap, toStart, 0)) && DistinctKeys(RouteKey, toStart) ==> HoldersIndexed(bound, routeMap)
      ensures bound.Keys == PortsAfterStarts(old(bound).Keys, toStart, starts)
      ensures errors == StartErrors(old(bound).Keys, toStart, starts)
      ensures conflicts == Conflicts(old(bound).Keys, toStart, starts)
    {
      errors, conflicts := [], 0;
      ghost var was, before, sockets, ports := routes, RoutesOf(routes), bound, bound.Keys;
      ghost var clean := HoldersSettled(bound, routeMap, toStart, 0) && DistinctKeys(RouteKey, toStart);
      for i := 0 to |toStart|
        invariant Valid()
        invariant forall l | l in routes :: l in was || fresh(l)
        invariant RoutesOf(routes) == before + toStart[..i]
        invariant Extends(sockets, bound)
        invariant clean ==> HoldersSettled(bound, routeMap, toStart, i)
        invariant bound.Keys == PortsAfterStarts(ports, toStart[..i], starts)
        invariant errors == StartErrors(ports, toStart[..i], starts)
        invariant conflicts == Conflicts(ports, toStart[..i], starts)
      {
        NextStart(ports, toStart, i, starts);
        var err, conflict := StartNext(toStart, i, starts, before, sockets);
        if err.Some? {
          errors := errors + [err.value];
        }
        if conflict {
          conflicts := conflicts + 1;
        }
      }
      assert toStart[..|toStart|] == toStart;
    }

    /** One turn of that loop. */
    method StartNext(toStart: seq<Route>, i: nat, starts: Route -> StartOutcome, ghost before: seq<Route>,
                     ghost sockets: map<int, RouteListener>)
      returns (err: Option<ReloadError>, conflict: bool)
      requires Valid() && i < |toStart| && RoutesOf(routes) == before + toStart[..i] && Extends(sockets, bound)
      modifies this`routes, this`routeMap, this`bound
      ensures Valid() && RoutesOf(routes) == before + toStart[..i + 1] && Extends(sockets, bound)
      ensures forall l | l in routes :: l in old(routes) || fresh(l)
      ensures old(HoldersSettled(bound, routeMap, toStart, i)) && DistinctKeys(RouteKey, toStart) ==>
                HoldersSettled(bound, routeMap, toStart, i + 1)
      ensures conflict <==> toStart[i].listen in old(bound)
      ensures bound.Keys == old(bound).Keys + (if Binds(old(bound).Keys, toStart[i], starts(toStart[i])) then {toStart[i].listen} else {})
      ensures err == StartError(old(bound).Keys, toStart[i], starts(toStart[i]))
    {
      NextPrefix(before, toStart, i);
      ghost var held, index := bound, routeMap;
      var listener;
      listener, err, conflict := StartRoute(toStart[i], starts(toStart[i]));
      ghost var binds := Binds(held.Keys, toStart[i], starts(toStart[i]));
      LaunchAdds(sockets, held, listener, binds);
      if HoldersSettled(held, index, toStart, i) && DistinctKeys(RouteKey, toStart) {
        LaunchKeepsHolders(held, index, listener, binds, toStart, i);
      }
    }

    /** The same, seen from the listeners of an earlier index, which it leaves alone. */
    method StartAll(toStart: seq<Route>, starts: Route -> StartOutcome, ghost earlier: map<string, RouteListener>)
      returns (errors: seq<ReloadError>, conflicts: nat)
      requires Valid()
      modifies this`routes, this`routeMap, this`bound
      ensures Valid() && RoutesOf(routes) == RoutesOf(old(routes)) + toStart
      ensures forall l | l in routes :: l in old(routes) || fresh(l)
      ensures Extends(old(bound), bound)
      ensures old(HoldersSettled(bound, routeMap, toStart, 0)) && DistinctKeys(RouteKey, toStart) ==> HoldersIndexed(bound, routeMap)
      ensures bound.Keys == PortsAfterStarts(old(bound).Keys, toStart, starts)
      ensures errors == StartErrors(old(bound).Keys, toStart, starts)
      ensures conflicts == Conflicts(old(bound).Keys, toStart, starts)
      ensures Marks(earlier) == old(Marks(earlier))
    {
      errors, conflicts := StartRoutes(toStart, starts);
      MarksStay(earlier);
    }

    /** Stops a list of keys and cleans up those that stopped. */
    method StopAndCleanUp(keys: seq<string>, stops: string -> StopOutcome) returns (errors: seq<ReloadError>)
      requires Valid()
      modifies this`routes, this`routeMap, this`bound, routeMap.Values
      ensures Valid()
      ensures routes == Keep(ListenerKey, old(routes), Members(SuccessfulStops(old(routeMap).Keys, keys, stops)))
      ensures routeMap == old(routeMap) - Members(SuccessfulStops(old(routeMap).Keys, keys, stops))
      ensures forall l | l in routes :: l in old(routes)
      ensures errors == StopErrors(old(routeMap).Keys, keys, stops)
      ensures bound == BoundAfterStops(old(bound), old(routeMap), keys, stops)
      ensures Told(old(routeMap), old(Marks(routeMap)), Members(keys), stops)
    {
      ghost var before, index, sockets := routes, routeMap, bound;
      var successfulStops;
      successfulStops, errors := StopListed(keys, stops);
      CleanupStoppedRoutes(successfulStops);
      CleanupRestores(before, index, keys, stops);
      StillMatch(sockets, before, keys, stops);
    }

    /** The first loop again, from a manager none of whose listeners is stopped: those of other keys than the
        ones that stopped are not stopped afterwards. */
    method StopListed(keys: seq<string>, stops: string -> StopOutcome)
      returns (successfulStops: seq<string>, errors: seq<ReloadError>)
      requires Valid()
      modifies this`bound, routeMap.Values
      ensures successfulStops == SuccessfulStops(routeMap.Keys, keys, stops)
      ensures errors == StopErrors(routeMap.Keys, keys, stops)
      ensures bound == BoundAfterStops(old(bound), routeMap, keys, stops)
      ensures Told(routeMap, old(Marks(routeMap)), Members(keys), stops)
      ensures forall l | l in routes && ListenerKey(l) !in Members(successfulStops) :: l.state != Stopped
    {
      KeyedIsInjective(routes);
      IndexedAreRecorded(routes);
      ghost var marks := Marks(routeMap);
      assert forall k | k in marks :: routeMap[k] in routeMap.Values && marks[k].0 != Stopped;
      successfulStops, errors := StopRoutes(keys, stops);
      LeftNotStopped(routes, routeMap, marks, keys, stops);
    }

    method KeysToStopOf(c: RouteChanges) returns (routesToStop: seq<string>)
      ensures routesToStop == StopList(c)
    {
      routesToStop := c.removed;
      for i := 0 to |c.modified|
        invariant routesToStop == c.removed + KeyList(c.modified[..i])
      {
        assert c.modified[..i + 1][..i] == c.modified[..i];
        routesToStop := routesToStop + [RouteKey(c.modified[i])];
      }
      assert c.modified[..|c.modified|] == c.modified;
    }

    /** Stop everything removed or modified, clean up what stopped, then start everything added or
        modified; failures are collected and do not end the reload. */
    method ApplyRouteChanges(c: RouteChanges, stops: string -> StopOutcome, starts: Route -> StartOutcome)
      returns (errors: seq<ReloadError>, conflicts: nat)
      requires Valid()
      modifies this`routes, this`routeMap, this`bound, routeMap.Values
      ensures Valid()
      ensures forall l | l in routes :: l in old(routes) || fresh(l)
      ensures RoutesOf(routes) ==
                Keep(RouteKey, RoutesOf(old(routes)), Members(SuccessfulStops(old(routeMap).Keys, StopList(c), stops)))
                + (c.added + c.modified)
      ensures
        var held := BoundAfterStops(old(bound), old(routeMap), StopList(c), stops).Keys;
        && errors == StopErrors(old(routeMap).Keys, StopList(c), stops) + StartErrors(held, c.added + c.modified, starts)
        && conflicts == Conflicts(held, c.added + c.modified, starts)
        && bound.Keys == PortsAfterStarts(held, c.added + c.modified, starts)
      ensures Told(old(routeMap), old(Marks(routeMap)), Members(StopList(c)), stops)
      ensures Extends(BoundAfterStops(old(bound), old(routeMap), StopList(c), stops), bound)
      ensures SettledBeforeStarts(old(bound), old(routeMap), StopList(c), stops, c.added + c.modified) ==> HoldersIndexed(bound, routeMap)
    {
      var routesToStop := KeysToStopOf(c);
      RoutesOfKeep(routes, Members(SuccessfulStops(routeMap.Keys, routesToStop, stops)));
      var toStart := c.added + c.modified;
      HoldersBeforeStarts(bound, routes, routesToStop, stops, toStart);
      ghost var index := routeMap;
      var stopErrors := StopAndCleanUp(routesToStop, stops);
      var startErrors: seq<ReloadError>;
      startErrors, conflicts := StartAll(toStart, starts, index);
      errors := stopErrors + startErrors;
    }

    /** Start. Each listener comes up in a goroutine of its own, so they bind in any order. */
    method Start(config: Option<seq<Route>>, order: seq<nat>, starts: Route -> StartOutcome)
      returns (result: StartResult, conflicts: nat)
      requires config.Some? ==> IsPermutation(order, |config.value|)
      modifies this
      ensures result == if old(running) then AlreadyRunning else if config.None? then NoConfig else Started
      ensures !result.Started? ==>
                running == old(running) && routes == old(routes) && routeMap == old(routeMap) && bound == old(bound)
      ensures result.Started? ==>
                && running && RoutesOf(routes) == config.value && NoneStopped()
                && (forall l | l in routes :: fresh(l)) && (forall i, j | 0 <= i < j < |routes| :: routes[i] != routes[j])
                && routeMap == old(routeMap) + LastWins(ListenerKey, routes)
                && IsPermutation(order, |routes|)
                && bound == BoundAfterLaunches(old(bound), InOrder(routes, order), starts)
                && conflicts == LaunchConflicts(old(bound), InOrder(routes, order), starts)
    {
      conflicts := 0;
      if running {
        return AlreadyRunning, 0;
      }
      if config.None? {
        return NoConfig, 0;
      }
      running := true;
      RegisterAll(config.value);
      RoutesOfEach(routes);
      forall i | 0 <= i < |routes|
        ensures fresh(routes[i])
      {
        assert routes[i] in routes;
      }
      conflicts := BringUpAll(order, starts);
      result := Started;
    }

    /** The loop of Start. */
    method RegisterAll(config: seq<Route>)
      modifies this`routes, this`routeMap
      ensures RoutesOf(routes) == config && NoneStopped()
      ensures forall l | l in routes :: fresh(l)
      ensures forall i, j | 0 <= i < j < |routes| :: routes[i] != routes[j]
      ensures routeMap == old(routeMap) + LastWins(ListenerKey, routes)
    {
      routes := [];
      assert routeMap == old(routeMap) + LastWins(ListenerKey, routes);
      for i := 0 to |config|
        invariant RoutesOf(routes) == config[..i] && NoneStopped()
        invariant forall l | l in routes :: fresh(l)
        invariant forall i, j | 0 <= i < j < |routes| :: routes[i] != routes[j]
        invariant routeMap == old(routeMap) + LastWins(ListenerKey, routes)
      {
        ghost var before := routes;
        var listener := Register(config[i]);
        Appended(before, listener);
        UpdateRight(old(routeMap), LastWins(ListenerKey, before), ListenerKey(listener), listener);
        TakeSnoc(config, i);
      }
      assert config[..|config|] == config;
    }

    /** The goroutines that Start spawns, each running its listener. */
    method BringUpAll(order: seq<nat>, starts: Route -> StartOutcome) returns (conflicts: nat)
      requires IsPermutation(order, |routes|) && NoneStopped()
      modifies this`bound, routes
      ensures NoneStopped()
      ensures bound == BoundAfterLaunches(old(bound), InOrder(routes, order), starts)
      ensures conflicts == LaunchConflicts(old(bound), InOrder(routes, order), starts)
    {
      conflicts := 0;
      ghost var launched := InOrder(routes, order);
      InOrderSize(routes, order);
      for n := 0 to |order|
        invariant NoneStopped()
        invariant bound == BoundAfterLaunches(old(bound), launched[..n], starts)
        invariant conflicts == LaunchConflicts(old(bound), launched[..n], starts)
      {
        assert launched[..n + 1][..n] == launched[..n];
        InOrderAt(routes, order, n);
        var listener := routes[order[n]];
        var _, conflict := BringUp(listener, starts(listener.route));
        if conflict {
          conflicts := conflicts + 1;
        }
      }
      assert launched[..|order|] == launched;
    }

    method RecordedRoutes() returns (oldRoutes: seq<Route>)
      ensures oldRoutes == RoutesOf(routes)
    {
      oldRoutes := [];
      for i := 0 to |routes|
        invariant oldRoutes == RoutesOf(routes[..i])
      {
        assert routes[..i + 1][..i] == routes[..i];
        oldRoutes := oldRoutes + [routes[i].route];
      }
      assert routes[..|routes|] == routes;
    }

    /** The part of handleReload after the diff. */
    method ReloadWith(config: seq<Route>, c: RouteChanges, stops: string -> StopOutcome, starts: Route -> StartOutcome)
      returns (errors: seq<ReloadError>, conflicts: nat)
      requires Valid()
      requires IsDiff(RouteKey, LastWins(RouteKey, RoutesOf(routes)), LastWins(RouteKey, config), c)
      modifies this`routes, this`routeMap, this`bound, routeMap.Values
      ensures Valid()
      ensures forall l | l in routes :: l in old(routes) || fresh(l)
      ensures Reloads(RouteKey, RoutesOf(old(routes)), config, FailedStops(RoutesOf(old(routes)), config, stops), RoutesOf(routes))
      ensures StopsReported(errors, FailedStops(RoutesOf(old(routes)), config, stops))
      ensures TablePortsDiffer(LastWins(RouteKey, config)) ==>
                conflicts == |Blocked(old(bound), old(routeMap), Needed(old(routes), config), stops)|
      ensures old(HoldersIndexed(bound, routeMap)) && (forall k :: stops(k) != StopFails(false)) ==> HoldersIndexed(bound, routeMap)
      ensures KeepsUnindexed(old(bound), old(routeMap), bound)
      ensures Told(old(routeMap), old(Marks(routeMap)), KeysToStopFor(old(routes), config), stops)
      ensures TablePortsDiffer(LastWins(RouteKey, config)) ==>
                StartsReported(old(bound), old(routeMap), RoutesOf(old(routes)), config, stops, starts, errors, bound.Keys)
    {
      ghost var before, index, sockets := routes, routeMap, bound;
      ReloadFacts(before, sockets, config, c, stops, starts);
      errors, conflicts := ApplyRouteChanges(c, stops, starts);
      AppliedAsRelation(RoutesOf(before), config, c, index.Keys, stops, RoutesOf(routes));
      KeptThroughStarts(sockets, index, BoundAfterStops(sockets, index, StopList(c), stops), bound);
    }

    /** One reload. It keeps the index in agreement whatever fails, so no stop ever misses its listener.
        If the configured routes listen on different ports, the starts that meet a port this manager
        holds are exactly as many as the needed ports whose holder its key does not lead to, or whose
        stop does not release them. Holders stay in the index if stops release their sockets, whether
        they fail or not; and a holder outside the index keeps its socket through every reload. */
    method HandleReload(config: seq<Route>, stops: string -> StopOutcome, starts: Route -> StartOutcome)
      returns (errors: seq<ReloadError>, conflicts: nat)
      requires Valid()
      modifies this`routes, this`routeMap, this`bound, routeMap.Values
      ensures Valid()
      ensures forall l | l in routes :: l in old(routes) || fresh(l)
      ensures Reloads(RouteKey, RoutesOf(old(routes)), config, FailedStops(RoutesOf(old(routes)), config, stops), RoutesOf(routes))
      ensures StopsReported(errors, FailedStops(RoutesOf(old(routes)), config, stops))
      ensures TablePortsDiffer(LastWins(RouteKey, config)) ==>
                conflicts == |Blocked(old(bound), old(routeMap), Needed(old(routes), config), stops)|
      ensures old(HoldersIndexed(bound, routeMap)) && (forall k :: stops(k) != StopFails(false)) ==> HoldersIndexed(bound, routeMap)
      ensures KeepsUnindexed(old(bound), old(routeMap), bound)
      ensures Told(old(routeMap), old(Marks(routeMap)), KeysToStopFor(old(routes), config), stops)
      ensures TablePortsDiffer(LastWins(RouteKey, config)) ==>
                StartsReported(old(bound), old(routeMap), RoutesOf(old(routes)), config, stops, starts, errors, bound.Keys)
    {
      var oldRoutes := RecordedRoutes();
      var c := DetectChanges(oldRoutes, config);
      if c.added == [] && c.removed == [] && c.modified == [] {
        EmptyReloadFacts(routes, bound, config, c, stops, starts);
        NobodyTold(routeMap, Marks(routeMap), stops);
        return [], 0;
      }
      errors, conflicts := ReloadWith(config, c, stops, starts);
    }

    /** The watcher's loop, over the configs it reads: the index stays in agreement whatever fails, and
        each reload starts from what the previous one recorded. If every holder is in the index, every
        config's routes listen on different ports and stops release their sockets, whether they fail
        or not, no start of the whole run meets a port this manager holds. */
    method WatchConfigReloads(configs: seq<seq<Route>>, stops: nat -> string -> StopOutcome,
                              starts: nat -> Route -> StartOutcome)
      returns (ghost trail: seq<seq<Route>>, errors: seq<ReloadError>, conflicts: nat)
      requires Valid()
      modifies this`routes, this`routeMap, this`bound, routes
      ensures Valid()
      ensures ReloadRun(trail, configs, stops) && trail[0] == RoutesOf(old(routes)) && trail[|configs|] == RoutesOf(routes)
      ensures NothingMissing(errors)
      ensures old(HoldersIndexed(bound, routeMap)) && Clean(configs, stops) ==>
                conflicts == 0 && HoldersIndexed(bound, routeMap)
    {
      ghost var clean := HoldersIndexed(bound, routeMap) && Clean(configs, stops);
      trail, errors, conflicts := [RoutesOf(routes)], [], 0;
      for i := 0 to |configs|
        invariant Valid()
        invariant forall l | l in routes :: l in old(routes) || fresh(l)
        invariant ReloadRun(trail, configs[..i], stops) && trail[0] == RoutesOf(old(routes)) && trail[i] == RoutesOf(routes)
        invariant NothingMissing(errors)
        invariant clean ==> conflicts == 0 && HoldersIndexed(bound, routeMap)
      {
        IndexedAreRecorded(routes);
        NoneBlocked(bound, routeMap, Needed(routes, configs[i]), stops(i));
        var es, met := HandleReload(configs[i], stops(i), starts(i));
        NothingMissingTogether(errors, es);
        errors, conflicts := errors + es, conflicts + met;
        ReloadRunSnoc(trail, configs, i, stops, RoutesOf(routes));
        trail := trail + [RoutesOf(routes)];
      }
      assert configs[..|configs|] == configs;
    }

    /** From Start on a fresh manager: whatever order listeners come up in, and whatever stops fail, a
        manager whose configs each listen on different ports never meets a port of its own, as long as
        stops release their sockets. */
    method StartAndWatch(config: seq<Route>, order: seq<nat>, starting: Route -> StartOutcome,
                         configs: seq<seq<Route>>, stops: nat -> string -> StopOutcome, starts: nat -> Route -> StartOutcome)
      returns (ghost trail: seq<seq<Route>>, errors: seq<ReloadError>, conflicts: nat)
      requires !running && routes == [] && routeMap == map[] && bound == map[]
      requires IsPermutation(order, |config|)
      modifies this
      ensures Valid()
      ensures ReloadRun(trail, configs, stops) && trail[0] == config && trail[|configs|] == RoutesOf(routes)
      ensures NothingMissing(errors)
      ensures PortsDiffer(config) && Clean(configs, stops) ==> conflicts == 0
    {
      var result, met := Start(Some(config), order, starting);
      assert result.Started?;
      assert map[] + LastWins(ListenerKey, routes) == LastWins(ListenerKey, routes);
      LaunchesMatch(InOrder(routes, order), starting);
      if PortsDiffer(config) {
        LaunchesWithoutConflict(routes, order, starting);
      }
      forall i | 0 <= i < |routes|
        ensures fresh(routes[i])
      {
        assert routes[i] in routes;
      }
      trail, errors, conflicts := WatchConfigReloads(configs, stops, starts);
      conflicts := conflicts + met;
    }
  }

  /** Start with two routes of one key, the first of which comes up first: it holds the socket, and its key
      does not lead to it. */
  method StartTwo(first: Route, second: Route) returns (manager: RouteManager)
    requires RouteKey(first) == RouteKey(second)
    ensures fresh(manager) && fresh(manager.routeMap.Values) && manager.Valid()
    ensures first.listen in manager.bound && !Indexed(manager.routeMap, manager.bound[first.listen])
  {
    manager := new RouteManager();
    var up := (r: Route) => Listens;
    var _, _ := manager.Start(Some([first, second]), [0, 1], up);
    RoutesOfEach(manager.routes);
    RouteKeyInjective(first, second);
    FirstHolds(manager.routes, up);
    SecondIsIndexed(manager.routes);
    assert map[] + LastWins(ListenerKey, manager.routes) == LastWins(ListenerKey, manager.routes);
    IndexedAreRecorded(manager.routes);
  }

  /** A reload to no routes, in which every stop succeeds, forgets both, and the socket is still held. */
  method DuplicateKeyLeak(first: Route, second: Route) returns (manager: RouteManager)
    requires RouteKey(first) == RouteKey(second)
    ensures fresh(manager) && fresh(manager.routeMap.Values) && manager.Valid()
    ensures manager.routeMap == map[] && LastWins(RouteKey, RoutesOf(manager.routes)) == map[]
    ensures first.listen in manager.bound
  {
    manager := StartTwo(first, second);
    var stopped := (k: string) => StopSucceeds;
    ghost var recorded := RoutesOf(manager.routes);
    var _, _ := manager.HandleReload([], stopped, (r: Route) => Listens);
    EverythingGone(recorded, manager.routes, stopped);
  }

  /** The failing input: a reload that then adds a route on the same port meets the leaked socket, although
      every stop succeeded. */
  method DuplicateKeyConflict(first: Route, second: Route, third: Route) returns (conflicts: nat)
    requires RouteKey(first) == RouteKey(second) && third.listen == first.listen
    ensures conflicts == 1
  {
    var manager := DuplicateKeyLeak(first, second);
    OnePort(manager.bound, manager.routes, third, (k: string) => StopSucceeds);
    var _, met := manager.HandleReload([third], (k: string) => StopSucceeds, (r: Route) => Listens);
    conflicts := met;
  }
}
