/**
 * Browser `localStorage` seen as a map from keys to text, and a batch of `setItem` calls made one
 * after the other. A later write of the same key wins.
 */
module StorageMap {
  /** One `localStorage.setItem(key, value)` call. */
  type Entry = (string, string)

  /** The store after writing `entries` in order, starting from `m`. */
  function WriteAll(m: map<string, string>, entries: seq<Entry>): map<string, string>
  {
    if entries == [] then m
    else
      var last := entries[|entries| - 1];
      WriteAll(m, entries[..|entries| - 1])[last.0 := last.1]
  }

  /** The keys a batch writes. */
  function KeysOf(entries: seq<Entry>): (ks: set<string>)
    ensures forall i :: 0 <= i < |entries| ==> entries[i].0 in ks
    ensures forall k :: k in ks ==> exists i :: 0 <= i < |entries| && entries[i].0 == k
  {
    set i | 0 <= i < |entries| :: entries[i].0
  }

  /** No key is written twice. */
  ghost predicate DistinctKeys(entries: seq<Entry>) {
    forall i, j :: 0 <= i < j < |entries| ==> entries[i].0 != entries[j].0
  }

  /** After the batch the store holds exactly the keys it held before and the keys written. */
  lemma {:induction false} WriteAllKeys(m: map<string, string>, entries: seq<Entry>)
    ensures WriteAll(m, entries).Keys == m.Keys + KeysOf(entries)
  {
    if entries != [] {
      var init := entries[..|entries| - 1];
      WriteAllKeys(m, init);
      assert KeysOf(entries) == KeysOf(init) + {entries[|entries| - 1].0};
    }
  }

  /** A key the batch does not write keeps its old value. */
  lemma {:induction false} WriteAllKeepsOthers(m: map<string, string>, entries: seq<Entry>, k: string)
    requires k !in KeysOf(entries)
    ensures k in WriteAll(m, entries) <==> k in m
    ensures k in m ==> WriteAll(m, entries)[k] == m[k]
  {
    if entries != [] {
      var init := entries[..|entries| - 1];
      assert forall i :: 0 <= i < |init| ==> init[i] == entries[i];
      WriteAllKeepsOthers(m, init, k);
    }
  }

  /** When no key is written twice, every written key holds the value written for it. */
  lemma {:induction false} WriteAllStores(m: map<string, string>, entries: seq<Entry>, i: nat)
    requires DistinctKeys(entries)
    requires i < |entries|
    ensures entries[i].0 in WriteAll(m, entries)
    ensures WriteAll(m, entries)[entries[i].0] == entries[i].1
  {
    var init := entries[..|entries| - 1];
    if i < |entries| - 1 {
      assert init[i] == entries[i];
      WriteAllStores(m, init, i);
    }
  }
}
