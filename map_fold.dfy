/** A fold of `insert` calls into a map, in order. Both the route-table build
    (a HashMap filled by a loop of inserts) and the copy of upstream response
    headers (a HeaderMap filled by a loop of inserts) are instances of it. */
module MapFold {

  /** The keys mentioned by a sequence of (key, value) entries. */
  function KeysOf<K, V>(entries: seq<(K, V)>): set<K>
  {
    set i | 0 <= i < |entries| :: entries[i].0
  }

  /** Entry `i` is the last entry with its key: no later entry shares it. */
  predicate IsLast<K(==), V>(entries: seq<(K, V)>, i: int)
  {
    0 <= i < |entries| && forall j :: i < j < |entries| ==> entries[j].0 != entries[i].0
  }

  /** The keys of a non-empty entry list: those of all but the last entry,
      plus the last entry's. */
  lemma KeysOfSplit<K, V>(entries: seq<(K, V)>)
    requires entries != []
    ensures KeysOf(entries) == KeysOf(entries[..|entries| - 1]) + {entries[|entries| - 1].0}
  {
    var front := entries[..|entries| - 1];
    assert forall i :: 0 <= i < |front| ==> front[i] == entries[i];
  }

  /** An entry that is last in the whole list, and is not the final entry, is
      last in the list without its final entry, and has another key. */
  lemma IsLastInFront<K, V>(entries: seq<(K, V)>, i: int)
    requires IsLast(entries, i) && i < |entries| - 1
    ensures IsLast(entries[..|entries| - 1], i)
    ensures entries[..|entries| - 1][i] == entries[i]
    ensures entries[i].0 != entries[|entries| - 1].0
  {
  }

  /** `m` after inserting every entry, first to last. */
  function InsertAll<K, V>(m: map<K, V>, entries: seq<(K, V)>): map<K, V>
    decreases |entries|
  {
    if entries == [] then m
    else InsertAll(m, entries[..|entries| - 1])[entries[|entries| - 1].0 := entries[|entries| - 1].1]
  }

  /** Inserting adds exactly the inserted keys. */
  lemma {:induction false} InsertAllKeys<K, V>(m: map<K, V>, entries: seq<(K, V)>)
    ensures InsertAll(m, entries).Keys == m.Keys + KeysOf(entries)
    decreases |entries|
  {
    if entries != [] {
      KeysOfSplit(entries);
      InsertAllKeys(m, entries[..|entries| - 1]);
    }
  }

  /** A later insert of a key overwrites an earlier one: each key ends up with
      the value of its last entry. */
  lemma {:induction false} InsertAllLastWins<K, V>(m: map<K, V>, entries: seq<(K, V)>, i: int)
    requires IsLast(entries, i)
    ensures entries[i].0 in InsertAll(m, entries)
    ensures InsertAll(m, entries)[entries[i].0] == entries[i].1
    decreases |entries|
  {
    if i < |entries| - 1 {
      IsLastInFront(entries, i);
      InsertAllLastWins(m, entries[..|entries| - 1], i);
    }
  }

  /** A key no entry mentions keeps its old value. */
  lemma {:induction false} InsertAllKeepsOthers<K, V>(m: map<K, V>, entries: seq<(K, V)>, k: K)
    requires k in m && k !in KeysOf(entries)
    ensures k in InsertAll(m, entries) && InsertAll(m, entries)[k] == m[k]
    decreases |entries|
  {
    if entries != [] {
      KeysOfSplit(entries);
      InsertAllKeepsOthers(m, entries[..|entries| - 1], k);
    }
  }

  /** Inserting never removes: the map built from a prefix of the entries has
      no key the map built from all of them lacks, and every key is kept. */
  lemma PrefixKeysIncluded<K, V>(m: map<K, V>, entries: seq<(K, V)>, k: nat)
    requires k <= |entries|
    ensures InsertAll(m, entries[..k]).Keys <= InsertAll(m, entries).Keys
  {
    var front := entries[..k];
    assert forall i :: 0 <= i < k ==> front[i] == entries[i];
    InsertAllKeys(m, front);
    InsertAllKeys(m, entries);
  }
}
