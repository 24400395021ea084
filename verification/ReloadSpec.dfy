/** What a reload does to the recorded items, as a relation between sequences, and what follows from
    it whatever stops fail. */
module ReloadSpec {
  import opened Tables

  /** The items whose key is not in gone, in their old order. */
  function Keep<T>(key: T -> string, items: seq<T>, gone: set<string>): seq<T> {
    if items == [] then []
    else
      Keep(key, items[..|items| - 1], gone) +
      (if key(items[|items| - 1]) in gone then [] else [items[|items| - 1]])
  }

  /** The recorded items after applying a diff in which exactly the stops in failed failed: items
      that were stopped are dropped, then the added and modified ones are appended. */
  function Applied<T>(key: T -> string, recorded: seq<T>, c: Changes<T>, failed: set<string>): seq<T> {
    Keep(key, recorded, c.ToStop(key) - failed) + c.added + c.modified
  }

  /** One reload from the recorded items to the configured ones, for some order of the diff. */
  ghost predicate Reloads<T(!new)>(key: T -> string, recorded: seq<T>, config: seq<T>, failed: set<string>, result: seq<T>) {
    exists c ::
      IsDiff(key, LastWins(key, recorded), LastWins(key, config), c) && failed <= c.ToStop(key) &&
      result == Applied(key, recorded, c, failed)
  }

  /** The removed keys among those whose stop failed. */
  function FailedRemovals<T>(key: T -> string, recorded: seq<T>, config: seq<T>, failed: set<string>): map<string, T> {
    map k | k in LastWins(key, recorded) && k !in LastWins(key, config) && k in failed :: LastWins(key, recorded)[k]
  }

  lemma {:induction false} LastWinsConcat<T>(key: T -> string, a: seq<T>, b: seq<T>)
    ensures LastWins(key, a + b) == LastWins(key, a) + LastWins(key, b)
  {
    if b == [] {
      assert a + b == a;
    } else {
      LastWinsConcat(key, a, b[..|b| - 1]);
      assert (a + b)[..|a + b| - 1] == a + b[..|b| - 1];
    }
  }

  lemma DropUpdated<T>(m: map<string, T>, k: string, r: T, gone: set<string>)
    ensures m[k := r] - gone == if k in gone then m - gone else (m - gone)[k := r]
  {}

  lemma {:induction false} LastWinsKeep<T>(key: T -> string, items: seq<T>, gone: set<string>)
    ensures LastWins(key, Keep(key, items, gone)) == LastWins(key, items) - gone
  {
    if items != [] {
      var front, last := items[..|items| - 1], items[|items| - 1];
      LastWinsKeep(key, front, gone);
      DropUpdated(LastWins(key, front), key(last), last, gone);
      if key(last) in gone {
        assert Keep(key, items, gone) == Keep(key, front, gone);
      } else {
        assert Keep(key, items, gone)[..|Keep(key, items, gone)| - 1] == Keep(key, front, gone);
      }
    }
  }

  /** Routes listed from a table are that table restricted to their keys. */
  lemma {:induction false} LastWinsLists<T>(key: T -> string, items: seq<T>, table: map<string, T>)
    requires Lists(key, items, table)
    ensures LastWins(key, items).Keys == KeysOf(key, items)
    ensures forall k | k in LastWins(key, items) :: k in table && LastWins(key, items)[k] == table[k]
  {
    if items != [] {
      LastWinsLists(key, items[..|items| - 1], table);
    }
  }

  /** The change lists split the new table's keys, and the old table's keys, without overlap. */
  lemma DiffPartitions<T>(key: T -> string, before: map<string, T>, after: map<string, T>, c: Changes<T>)
    requires IsDiff(key, before, after, c)
    ensures KeysOf(key, c.added) + KeysOf(key, c.modified) + Members(c.kept) == after.Keys
    ensures Members(c.removed) + KeysOf(key, c.modified) + Members(c.kept) == before.Keys
    ensures KeysOf(key, c.added) !! KeysOf(key, c.modified) !! Members(c.kept) !! Members(c.removed)
  {}

  /** Patching the old table with the diff gives the new one. */
  lemma DiffPatches<T>(key: T -> string, before: map<string, T>, after: map<string, T>, c: Changes<T>)
    requires IsDiff(key, before, after, c)
    ensures before - Members(c.removed) + LastWins(key, c.added) + LastWins(key, c.modified) == after
  {
    LastWinsLists(key, c.added, after);
    LastWinsLists(key, c.modified, after);
  }

  lemma {:induction false} NoKeys<T>(key: T -> string, items: seq<T>)
    ensures KeysOf(key, items) == {} <==> items == []
  {
    if items != [] { KeyAt(key, items, 0); }
  }

  lemma {:induction false} NoMembers(keys: seq<string>)
    ensures Members(keys) == {} <==> keys == []
  {
    if keys != [] { MemberAt(keys, 0); }
  }

  /** The diff is empty exactly when the tables agree. */
  lemma DiffEmpty<T>(key: T -> string, before: map<string, T>, after: map<string, T>, c: Changes<T>)
    requires IsDiff(key, before, after, c)
    ensures c.Empty() <==> before == after
  {
    NoKeys(key, c.added);
    NoKeys(key, c.modified);
    NoMembers(c.removed);
    if c.Empty() {
      forall k | k in before || k in after
        ensures k in before && k in after && before[k] == after[k]
      {
        assert k !in KeysOf(key, c.added) && k !in KeysOf(key, c.modified) && k !in Members(c.removed);
      }
    }
  }

  lemma AppliedTable<T>(key: T -> string, recorded: seq<T>, after: map<string, T>, c: Changes<T>, failed: set<string>)
    requires Lists(key, c.added, after) && Lists(key, c.modified, after)
    ensures LastWins(key, Applied(key, recorded, c, failed))
         == LastWins(key, recorded) - (c.ToStop(key) - failed) + LastWins(key, c.added) + LastWins(key, c.modified)
  {
    var gone := c.ToStop(key) - failed;
    LastWinsConcat(key, Keep(key, recorded, gone) + c.added, c.modified);
    LastWinsConcat(key, Keep(key, recorded, gone), c.added);
    LastWinsKeep(key, recorded, gone);
  }

  lemma PatchedTable<T>(key: T -> string, before: map<string, T>, after: map<string, T>, c: Changes<T>, failed: set<string>)
    requires IsDiff(key, before, after, c) && failed <= c.ToStop(key)
    ensures before - (c.ToStop(key) - failed) + LastWins(key, c.added) + LastWins(key, c.modified)
         == after + (map k | k in before && k !in after && k in failed :: before[k])
  {
    LastWinsLists(key, c.added, after);
    LastWinsLists(key, c.modified, after);
  }

  /** Convergence under partial failure: after a reload the recorded table is the configured one,
      plus exactly the removed items whose stop failed. This holds for duplicates on either side
      and whatever other stops failed. */
  lemma ReloadConverges<T(!new)>(key: T -> string, recorded: seq<T>, config: seq<T>, failed: set<string>, result: seq<T>)
    requires Reloads(key, recorded, config, failed, result)
    ensures LastWins(key, result) == LastWins(key, config) + FailedRemovals(key, recorded, config, failed)
  {
    var before, after := LastWins(key, recorded), LastWins(key, config);
    var c :| IsDiff(key, before, after, c) && failed <= c.ToStop(key) && result == Applied(key, recorded, c, failed);
    AppliedTable(key, recorded, after, c, failed);
    PatchedTable(key, before, after, c, failed);
  }

  /** Reloading the same configuration again finds nothing to add or modify and removes exactly what
      the previous reload failed to remove. */
  lemma ReloadAgain<T(!new)>(key: T -> string, recorded: seq<T>, config: seq<T>, failed: set<string>, result: seq<T>, d: Changes<T>)
    requires Reloads(key, recorded, config, failed, result) && IsDiff(key, LastWins(key, result), LastWins(key, config), d)
    ensures d.added == [] && d.modified == []
    ensures Members(d.removed) == FailedRemovals(key, recorded, config, failed).Keys
  {
    ReloadConverges(key, recorded, config, failed, result);
    OnlyRemovals(key, LastWins(key, config), FailedRemovals(key, recorded, config, failed), d);
  }

  lemma OnlyRemovals<T>(key: T -> string, after: map<string, T>, left: map<string, T>, d: Changes<T>)
    requires left.Keys !! after.Keys && IsDiff(key, after + left, after, d)
    ensures d.added == [] && d.modified == [] && Members(d.removed) == left.Keys
  {
    NoKeys(key, d.added);
    NoKeys(key, d.modified);
    forall k
      ensures k !in KeysOf(key, d.added) && k !in KeysOf(key, d.modified)
    {}
  }

  lemma {:induction false} DistinctSize<T>(key: T -> string, items: seq<T>)
    requires DistinctKeys(key, items)
    ensures |KeysOf(key, items)| == |items|
  {
    if items != [] {
      var front, last := items[..|items| - 1], items[|items| - 1];
      DistinctSize(key, front);
      if key(last) in KeysOf(key, front) {
        var i := IndexOfKey(key, front, key(last));
      }
    }
  }

  lemma {:induction false} KeepSize<T>(key: T -> string, items: seq<T>, gone: set<string>)
    requires DistinctKeys(key, items) && gone <= KeysOf(key, items)
    ensures |Keep(key, items, gone)| == |items| - |gone|
  {
    if items != [] {
      var front, last := items[..|items| - 1], items[|items| - 1];
      var k := key(last);
      if k in KeysOf(key, front) {
        var i := IndexOfKey(key, front, k);
      }
      KeepSize(key, front, gone - {k});
      KeepIgnores(key, front, gone, k);
    }
  }

  lemma {:induction false} KeepIgnores<T>(key: T -> string, items: seq<T>, gone: set<string>, k: string)
    requires k !in KeysOf(key, items)
    ensures Keep(key, items, gone) == Keep(key, items, gone - {k})
  {
    if items != [] {
      KeepIgnores(key, items[..|items| - 1], gone, k);
    }
  }

  /** Bookkeeping: from distinct keys, a reload records one listener for each configured key plus
      one for each failed stop, of a removed or of a modified route. */
  lemma ReloadLength<T(!new)>(key: T -> string, recorded: seq<T>, config: seq<T>, failed: set<string>, result: seq<T>)
    requires Reloads(key, recorded, config, failed, result) && DistinctKeys(key, recorded)
    ensures |result| == |LastWins(key, config)| + |failed|
  {
    var before, after := LastWins(key, recorded), LastWins(key, config);
    var c :| IsDiff(key, before, after, c) && failed <= c.ToStop(key) && result == Applied(key, recorded, c, failed);
    DiffPartitions(key, before, after, c);
    LastWinsKeyed(key, recorded);
    DistinctSize(key, recorded);
    DistinctSize(key, c.added);
    DistinctSize(key, c.modified);
    KeepSize(key, recorded, c.ToStop(key) - failed);
    var kept := Members(c.kept);
    assert before.Keys == c.ToStop(key) + kept;
    assert |c.ToStop(key) - failed| == |c.ToStop(key)| - |failed|;
    assert |after.Keys| == |c.added| + |c.modified| + |kept|;
    assert |before.Keys| == |c.ToStop(key)| + |kept|;
    assert |c.ToStop(key)| == |Members(c.removed)| + |c.modified|;
    assert |after| == |after.Keys|;
  }

  /** If every stop succeeds, a reload from distinct keys leaves distinct keys, so that the next
      reload starts from distinct keys again. */
  lemma ReloadKeepsDistinct<T(!new)>(key: T -> string, recorded: seq<T>, config: seq<T>, result: seq<T>)
    requires Reloads(key, recorded, config, {}, result) && DistinctKeys(key, recorded)
    ensures DistinctKeys(key, result) && LastWins(key, result) == LastWins(key, config)
  {
    ReloadConverges(key, recorded, config, {}, result);
    ReloadLength(key, recorded, config, {}, result);
    NothingLeft(key, recorded, config);
    LastWinsKeyed(key, result);
    assert |LastWins(key, config)| == |LastWins(key, result).Keys|;
    SizeDistinct(key, result);
  }

  lemma NothingLeft<T>(key: T -> string, recorded: seq<T>, config: seq<T>)
    ensures FailedRemovals(key, recorded, config, {}) == map[]
    ensures LastWins(key, config) + FailedRemovals(key, recorded, config, {}) == LastWins(key, config)
  {}

  lemma {:induction false} KeysSize<T>(key: T -> string, items: seq<T>)
    ensures |KeysOf(key, items)| <= |items|
  {
    if items != [] {
      KeysSize(key, items[..|items| - 1]);
    }
  }

  lemma {:induction false} SizeDistinct<T>(key: T -> string, items: seq<T>)
    requires |KeysOf(key, items)| == |items|
    ensures DistinctKeys(key, items)
  {
    if items != [] {
      var front, last := items[..|items| - 1], items[|items| - 1];
      KeysSize(key, front);
      assert KeysOf(key, items) == KeysOf(key, front) + {key(last)};
      assert key(last) !in KeysOf(key, front);
      SizeDistinct(key, front);
      forall i | 0 <= i < |front|
        ensures key(front[i]) != key(last)
      {
        KeyAt(key, front, i);
      }
    }
  }

  lemma {:induction false} KeepEverything<T>(key: T -> string, items: seq<T>)
    ensures Keep(key, items, {}) == items
  {
    if items != [] {
      KeepEverything(key, items[..|items| - 1]);
    }
  }

  /** The keys a diff between two tables stops. */
  function KeysToStop<T(==)>(before: map<string, T>, after: map<string, T>): set<string> {
    set k | k in before && (k !in after || before[k] != after[k])
  }

  lemma ToStopFromTables<T>(key: T -> string, before: map<string, T>, after: map<string, T>, c: Changes<T>)
    requires IsDiff(key, before, after, c)
    ensures c.ToStop(key) == KeysToStop(before, after)
  {}

  lemma {:induction false} KeepMember<T>(key: T -> string, items: seq<T>, gone: set<string>, x: T)
    requires x in Keep(key, items, gone)
    ensures x in items && key(x) !in gone
  {
    var front, last := items[..|items| - 1], items[|items| - 1];
    if x in Keep(key, front, gone) {
      KeepMember(key, front, gone, x);
    }
  }

  lemma {:induction false} KeptMember<T>(key: T -> string, items: seq<T>, gone: set<string>, x: T)
    requires x in items && key(x) !in gone
    ensures x in Keep(key, items, gone)
  {
    var front, last := items[..|items| - 1], items[|items| - 1];
    if x != last {
      KeptMember(key, front, gone, x);
    }
  }

  lemma StartsFromTable<T>(key: T -> string, before: map<string, T>, after: map<string, T>, c: Changes<T>, i: nat)
    requires IsDiff(key, before, after, c) && i < |c.added + c.modified|
    ensures
      var r := (c.added + c.modified)[i];
      && key(r) in after && after[key(r)] == r
      && (key(r) in before ==> key(r) in c.ToStop(key))
      && (key(r) in before <==> |c.added| <= i)
  {
    if i < |c.added| {
      KeyAt(key, c.added, i);
    } else {
      KeyAt(key, c.modified, i - |c.added|);
    }
  }

  lemma StartsDiffer<T>(key: T -> string, before: map<string, T>, after: map<string, T>, c: Changes<T>, i: nat, j: nat)
    requires IsDiff(key, before, after, c) && i < j < |c.added + c.modified|
    ensures key((c.added + c.modified)[i]) != key((c.added + c.modified)[j])
  {
    StartsFromTable(key, before, after, c, i);
    StartsFromTable(key, before, after, c, j);
  }

  lemma {:induction false} KeysConcat<T>(key: T -> string, a: seq<T>, b: seq<T>)
    ensures KeysOf(key, a + b) == KeysOf(key, a) + KeysOf(key, b)
  {
    if b == [] {
      assert a + b == a;
    } else {
      KeysConcat(key, a, b[..|b| - 1]);
      assert (a + b)[..|a + b| - 1] == a + b[..|b| - 1];
    }
  }

  /** Taking the first of the remaining items off takes its key off, if keys are distinct. */
  lemma RestOfKeys<T>(key: T -> string, items: seq<T>, i: nat)
    requires i < |items| && DistinctKeys(key, items)
    ensures KeysOf(key, items[i..]) == KeysOf(key, items[i + 1..]) + {key(items[i])}
    ensures key(items[i]) !in KeysOf(key, items[i + 1..])
  {
    var rest := items[i + 1..];
    KeysConcat(key, [items[i]], rest);
    assert items[i..] == [items[i]] + rest;
    KeysSnoc(key, [], items[i]);
    if key(items[i]) in KeysOf(key, rest) {
      var j := IndexOfKey(key, rest, key(items[i]));
    }
  }

  /** The keys a diff between two tables starts. */
  function KeysToStart<T(==)>(before: map<string, T>, after: map<string, T>): set<string> {
    set k | k in after && (k !in before || before[k] != after[k])
  }

  lemma StartKey<T>(key: T -> string, before: map<string, T>, after: map<string, T>, c: Changes<T>, i: nat)
    requires IsDiff(key, before, after, c) && i < |c.added + c.modified|
    ensures
      var k := key((c.added + c.modified)[i]);
      k in KeysToStart(before, after) && after[k] == (c.added + c.modified)[i]
  {
    StartsFromTable(key, before, after, c, i);
    if i < |c.added| {
      KeyAt(key, c.added, i);
    } else {
      KeyAt(key, c.modified, i - |c.added|);
    }
  }

  lemma StartOfKey<T>(key: T -> string, before: map<string, T>, after: map<string, T>, c: Changes<T>, k: string) returns (i: nat)
    requires IsDiff(key, before, after, c) && k in KeysToStart(before, after)
    ensures i < |c.added + c.modified| && (c.added + c.modified)[i] == after[k]
  {
    if k in before {
      i := IndexOfKey(key, c.modified, k);
      i := |c.added| + i;
    } else {
      i := IndexOfKey(key, c.added, k);
    }
  }
}
