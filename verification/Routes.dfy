/** Routes, their keys, and the diff of internal/proxy/reload.go. */
module Routes {
  import opened Tables

  datatype Route = Route(name: string, listen: int, upstream: string, server: string)

  function Digit(d: nat): char
    requires d < 10
  {
    '0' + d as char
  }

  function Digits(n: nat): string {
    if n < 10 then [Digit(n)] else Digits(n / 10) + [Digit(n % 10)]
  }

  /** The verb %d. */
  function Decimal(n: int): string {
    if n < 0 then "-" + Digits(-n) else Digits(n)
  }

  function RouteKey(route: Route): string {
    route.name + ":" + Decimal(route.listen)
  }

  function Value(s: string): int {
    if s == [] then 0 else 10 * Value(s[..|s| - 1]) + (s[|s| - 1] as int - '0' as int)
  }

  lemma {:induction false} ValueOfDigits(n: nat)
    ensures Value(Digits(n)) == n
    ensures forall i | 0 <= i < |Digits(n)| :: '0' <= Digits(n)[i] <= '9'
  {
    if n < 10 {
      assert Digits(n)[..0] == [];
    } else {
      ValueOfDigits(n / 10);
      assert Digits(n)[..|Digits(n)| - 1] == Digits(n / 10);
    }
  }

  lemma DecimalInjective(m: int, n: int)
    ensures Decimal(m) == Decimal(n) <==> m == n
    ensures ':' !in Decimal(m)
  {
    ValueOfDigits(if m < 0 then -m else m);
    ValueOfDigits(if n < 0 then -n else n);
    assert if m < 0 then Decimal(m)[0] == '-' && Decimal(m)[1..] == Digits(-m) else Decimal(m)[0] >= '0';
    assert if n < 0 then Decimal(n)[0] == '-' && Decimal(n)[1..] == Digits(-n) else Decimal(n)[0] >= '0';
  }

  /** Two texts that end in a colon and a colon-free tail agree only if both parts do. */
  lemma LastColon(a: string, b: string, x: string, y: string)
    requires ':' !in x && ':' !in y && a + ":" + x == b + ":" + y
    ensures a == b && x == y
  {
    var s := a + ":" + x;
    assert s[|a|] == ':' && s[|b|] == ':';
    assert forall i | |a| < i < |s| :: s[i] == x[i - |a| - 1];
    assert forall i | |b| < i < |s| :: s[i] == y[i - |b| - 1];
    assert s[..|a|] == a && s[..|b|] == b;
    assert s[|a| + 1..] == x && s[|b| + 1..] == y;
  }

  /** The key identifies name and port, even when names contain colons. */
  lemma RouteKeyInjective(a: Route, b: Route)
    ensures RouteKey(a) == RouteKey(b) <==> a.name == b.name && a.listen == b.listen
  {
    DecimalInjective(a.listen, b.listen);
    DecimalInjective(b.listen, a.listen);
    if RouteKey(a) == RouteKey(b) {
      LastColon(a.name, b.name, Decimal(a.listen), Decimal(b.listen));
    }
  }

  predicate RouteEquals(a: Route, b: Route) {
    a.name == b.name && a.listen == b.listen && a.upstream == b.upstream && a.server == b.server
  }

  type RouteChanges = Changes<Route>

  method TableOf(routes: seq<Route>) returns (table: map<string, Route>)
    ensures table == LastWins(RouteKey, routes)
  {
    table := map[];
    for i := 0 to |routes|
      invariant table == LastWins(RouteKey, routes[..i])
    {
      assert routes[..i + 1][..i] == routes[..i];
      table := table[RouteKey(routes[i]) := routes[i]];
    }
    assert routes[..|routes|] == routes;
  }

  /** The diff; the order in which a map yields its keys is arbitrary. */
  method DetectChanges(oldRoutes: seq<Route>, newRoutes: seq<Route>) returns (changes: RouteChanges)
    ensures IsDiff(RouteKey, LastWins(RouteKey, oldRoutes), LastWins(RouteKey, newRoutes), changes)
  {
    var oldMap := TableOf(oldRoutes);
    var newMap := TableOf(newRoutes);
    LastWinsKeyed(RouteKey, newRoutes);

    var added: seq<Route>, modified: seq<Route>, kept: seq<string> := [], [], [];
    var todo := newMap.Keys;
    while todo != {}
      invariant todo <= newMap.Keys
      invariant Classified(RouteKey, oldMap, newMap, todo, added, modified, kept)
    {
      var key :| key in todo;
      if key in oldMap {
        if !RouteEquals(oldMap[key], newMap[key]) {
          ListSnoc(RouteKey, modified, newMap, key);
          modified := modified + [newMap[key]];
        } else {
          DistinctSnoc(kept, key);
          kept := kept + [key];
        }
      } else {
        ListSnoc(RouteKey, added, newMap, key);
        added := added + [newMap[key]];
      }
      todo := todo - {key};
    }

    var removed := RemovedKeys(oldMap, newMap);
    changes := Changes(added, removed, modified, kept);
  }

  /** The last loop of the diff. */
  method RemovedKeys(oldMap: map<string, Route>, newMap: map<string, Route>) returns (removed: seq<string>)
    ensures Distinct(removed)
    ensures forall k :: k in Members(removed) <==> k in oldMap && k !in newMap
  {
    removed := [];
    var todo := oldMap.Keys;
    while todo != {}
      invariant todo <= oldMap.Keys
      invariant Distinct(removed)
      invariant forall k :: k in Members(removed) <==> k in oldMap && k !in todo && k !in newMap
    {
      var key :| key in todo;
      if key !in newMap {
        DistinctSnoc(removed, key);
        removed := removed + [key];
      }
      todo := todo - {key};
    }
  }
}
