/** Sequences of keyed items read as last-wins tables, and diffs between such tables. The key is a
    parameter: routes and listeners are both keyed this way. */
module Tables {

  /** Routes by key; of several with one key the last counts. */
  function LastWins<T>(key: T -> string, items: seq<T>): map<string, T> {
    if items == [] then map[]
    else LastWins(key, items[..|items| - 1])[key(items[|items| - 1]) := items[|items| - 1]]
  }

  function KeysOf<T>(key: T -> string, items: seq<T>): set<string> {
    if items == [] then {} else KeysOf(key, items[..|items| - 1]) + {key(items[|items| - 1])}
  }

  function Members(keys: seq<string>): set<string> {
    if keys == [] then {} else Members(keys[..|keys| - 1]) + {keys[|keys| - 1]}
  }

  lemma {:induction false} KeyAt<T>(key: T -> string, items: seq<T>, i: nat)
    requires i < |items|
    ensures key(items[i]) in KeysOf(key, items)
  {
    if i < |items| - 1 {
      KeyAt(key, items[..|items| - 1], i);
    }
  }

  lemma {:induction false} IndexOfKey<T>(key: T -> string, items: seq<T>, k: string) returns (i: nat)
    requires k in KeysOf(key, items)
    ensures i < |items| && key(items[i]) == k
  {
    i := |items| - 1;
    if key(items[i]) != k {
      i := IndexOfKey(key, items[..|items| - 1], k);
    }
  }

  lemma {:induction false} MemberAt(keys: seq<string>, i: nat)
    requires i < |keys|
    ensures keys[i] in Members(keys)
  {
    if i < |keys| - 1 {
      MemberAt(keys[..|keys| - 1], i);
    }
  }

  ghost predicate Distinct(keys: seq<string>) {
    forall i, j | 0 <= i < j < |keys| :: keys[i] != keys[j]
  }

  ghost predicate DistinctKeys<T>(key: T -> string, items: seq<T>) {
    forall i, j | 0 <= i < j < |items| :: key(items[i]) != key(items[j])
  }

  datatype Changes<T> = Changes(
    added: seq<T>,
    removed: seq<string>,
    modified: seq<T>,
    kept: seq<string>)
  {
    function ToStop(key: T -> string): set<string> { Members(removed) + KeysOf(key, modified) }

    predicate Empty() { added == [] && removed == [] && modified == [] }
  }

  /** The items are listed once each, and as the new table has them. */
  ghost predicate Lists<T>(key: T -> string, items: seq<T>, table: map<string, T>) {
    DistinctKeys(key, items) &&
    forall i | 0 <= i < |items| :: key(items[i]) in table && table[key(items[i])] == items[i]
  }

  /** The meaning of a diff between two tables: each change list holds, once and in any order,
      exactly the items or keys it is named for. */
  ghost predicate IsDiff<T>(key: T -> string, before: map<string, T>, after: map<string, T>, c: Changes<T>) {
    && Lists(key, c.added, after) && Lists(key, c.modified, after) && Distinct(c.removed) && Distinct(c.kept)
    && (forall k :: k in KeysOf(key, c.added) <==> k in after && k !in before)
    && (forall k :: k in KeysOf(key, c.modified) <==> k in after && k in before && before[k] != after[k])
    && (forall k :: k in Members(c.kept) <==> k in after && k in before && before[k] == after[k])
    && (forall k :: k in Members(c.removed) <==> k in before && k !in after)
  }

  lemma KeysSnoc<T>(key: T -> string, items: seq<T>, r: T)
    ensures KeysOf(key, items + [r]) == KeysOf(key, items) + {key(r)}
  {
    assert (items + [r])[..|items|] == items;
  }

  lemma MembersSnoc(keys: seq<string>, k: string)
    ensures Members(keys + [k]) == Members(keys) + {k}
  {
    assert (keys + [k])[..|keys|] == keys;
  }

  lemma {:induction false} LastWinsKeyed<T>(key: T -> string, items: seq<T>)
    ensures LastWins(key, items).Keys == KeysOf(key, items)
    ensures forall k | k in LastWins(key, items) :: key(LastWins(key, items)[k]) == k
  {
    if items != [] {
      var front, last := items[..|items| - 1], items[|items| - 1];
      LastWinsKeyed(key, front);
      KeysSnoc(key, front, last);
      assert items == front + [last];
    }
  }

  /** The first loop of the diff with the keys in todo still to come. */
  ghost predicate Classified<T>(key: T -> string, before: map<string, T>, after: map<string, T>, todo: set<string>,
                             added: seq<T>, modified: seq<T>, kept: seq<string>)
  {
    && Lists(key, added, after) && Lists(key, modified, after) && Distinct(kept)
    && (forall k :: k in KeysOf(key, added) <==> k in after && k !in todo && k !in before)
    && (forall k :: k in KeysOf(key, modified) <==> k in after && k !in todo && k in before && before[k] != after[k])
    && (forall k :: k in Members(kept) <==> k in after && k !in todo && k in before && before[k] == after[k])
  }

  lemma ListSnoc<T>(key: T -> string, items: seq<T>, table: map<string, T>, k: string)
    requires Lists(key, items, table) && k !in KeysOf(key, items) && k in table && key(table[k]) == k
    ensures Lists(key, items + [table[k]], table)
    ensures KeysOf(key, items + [table[k]]) == KeysOf(key, items) + {k}
  {
    KeysSnoc(key, items, table[k]);
    forall i | 0 <= i < |items|
      ensures key(items[i]) != k
    {
      KeyAt(key, items, i);
    }
  }

  lemma DistinctSnoc(keys: seq<string>, k: string)
    requires Distinct(keys) && k !in Members(keys)
    ensures Distinct(keys + [k]) && Members(keys + [k]) == Members(keys) + {k}
  {
    MembersSnoc(keys, k);
    forall i | 0 <= i < |keys|
      ensures keys[i] != k
    {
      MemberAt(keys, i);
    }
  }

  lemma {:induction false} DistinctMembers(keys: seq<string>)
    requires Distinct(keys)
    ensures |Members(keys)| == |keys|
  {
    if keys != [] {
      var front, last := keys[..|keys| - 1], keys[|keys| - 1];
      DistinctMembers(front);
      if last in Members(front) {
        MemberIndex(front, last);
      }
    }
  }

  lemma {:induction false} MemberIndex(keys: seq<string>, k: string)
    requires k in Members(keys)
    ensures exists i :: 0 <= i < |keys| && keys[i] == k
  {
    if keys[|keys| - 1] != k {
      MemberIndex(keys[..|keys| - 1], k);
    }
  }

  /** With distinct keys, every item is the one its key leads to. */
  lemma {:induction false} DistinctIndex<T>(key: T -> string, items: seq<T>, i: nat)
    requires DistinctKeys(key, items) && i < |items|
    ensures key(items[i]) in LastWins(key, items) && LastWins(key, items)[key(items[i])] == items[i]
  {
    if i < |items| - 1 {
      DistinctIndex(key, items[..|items| - 1], i);
    }
  }

  lemma {:induction false} LastWinsMember<T>(key: T -> string, items: seq<T>, k: string) returns (i: nat)
    requires k in LastWins(key, items)
    ensures i < |items| && items[i] == LastWins(key, items)[k] && key(items[i]) == k
    ensures forall j | i < j < |items| :: key(items[j]) != k
  {
    i := |items| - 1;
    if key(items[i]) != k {
      i := LastWinsMember(key, items[..|items| - 1], k);
    }
  }
}
