/** The deduplication index of the relay: the keys of the buffered items,
    computed with the caller's key function, and the facts that make the
    pending-key set and the buffer agree. */
module DedupIndex {

  /** The set of keys of `items` under `key`. */
  function KeySet<Item>(key: Item -> string, items: seq<Item>): set<string>
    decreases |items|
  {
    if items == [] then {} else {key(items[0])} + KeySet(key, items[1..])
  }

  /** No two of `items` share a key. */
  ghost predicate UniqueKeys<Item>(key: Item -> string, items: seq<Item>)
    decreases |items|
  {
    items == [] || (key(items[0]) !in KeySet(key, items[1..]) && UniqueKeys(key, items[1..]))
  }

  /** The pending-key set `ids` is exactly the set of keys of the buffered
      `items`, and the buffered items carry pairwise distinct keys. */
  ghost predicate Indexed<Item>(key: Item -> string, ids: set<string>, items: seq<Item>)
  {
    ids == KeySet(key, items) && UniqueKeys(key, items)
  }

  /** A key is in the key set exactly when some item carries it. */
  lemma {:induction false} KeySetMembers<Item>(key: Item -> string, items: seq<Item>, k: string)
    ensures k in KeySet(key, items) <==> exists i :: 0 <= i < |items| && key(items[i]) == k
    decreases |items|
  {
    if items != [] {
      KeySetMembers(key, items[1..], k);
      if k in KeySet(key, items[1..]) {
        var i :| 0 <= i < |items[1..]| && key(items[1..][i]) == k;
        assert key(items[i + 1]) == k;
      }
      if exists i :: 0 <= i < |items| && key(items[i]) == k {
        var i :| 0 <= i < |items| && key(items[i]) == k;
        if i > 0 {
          assert key(items[1..][i - 1]) == k;
        }
      }
    }
  }

  /** Appending an item adds exactly its key. */
  lemma {:induction false} KeySetAppend<Item>(key: Item -> string, items: seq<Item>, x: Item)
    ensures KeySet(key, items + [x]) == KeySet(key, items) + {key(x)}
    decreases |items|
  {
    if items == [] {
      assert items + [x] == [x];
      assert [x][1..] == [];
    } else {
      assert (items + [x])[0] == items[0];
      assert (items + [x])[1..] == items[1..] + [x];
      KeySetAppend(key, items[1..], x);
    }
  }

  /** The recursive definition of UniqueKeys means pairwise distinct keys. */
  lemma {:induction false} UniqueKeysPairwise<Item>(key: Item -> string, items: seq<Item>)
    ensures UniqueKeys(key, items) <==>
            forall i, j :: 0 <= i < j < |items| ==> key(items[i]) != key(items[j])
    decreases |items|
  {
    if items != [] {
      var tail := items[1..];
      UniqueKeysPairwise(key, tail);
      KeySetMembers(key, tail, key(items[0]));
      if UniqueKeys(key, items) {
        forall i, j | 0 <= i < j < |items| ensures key(items[i]) != key(items[j]) {
          assert items[j] == tail[j - 1];
          if i > 0 {
            assert items[i] == tail[i - 1];
          }
        }
      }
      if forall i, j :: 0 <= i < j < |items| ==> key(items[i]) != key(items[j]) {
        forall i, j | 0 <= i < j < |tail| ensures key(tail[i]) != key(tail[j]) {
          assert tail[i] == items[i + 1] && tail[j] == items[j + 1];
        }
        forall i | 0 <= i < |tail| ensures key(tail[i]) != key(items[0]) {
          assert tail[i] == items[i + 1];
        }
      }
    }
  }

  /** An item whose key is not yet present may be appended without breaking
      the distinctness of keys. */
  lemma {:induction false} UniqueKeysAppend<Item>(key: Item -> string, items: seq<Item>, x: Item)
    requires UniqueKeys(key, items)
    requires key(x) !in KeySet(key, items)
    ensures UniqueKeys(key, items + [x])
    decreases |items|
  {
    if items == [] {
      assert items + [x] == [x];
      assert [x][1..] == [];
    } else {
      assert (items + [x])[0] == items[0];
      assert (items + [x])[1..] == items[1..] + [x];
      KeySetAppend(key, items[1..], x);
      UniqueKeysAppend(key, items[1..], x);
    }
  }

  /** When the keys are distinct there are as many keys as items, so the
      pending-key set and the buffer always have the same size. */
  lemma {:induction false} IndexedSize<Item>(key: Item -> string, ids: set<string>, items: seq<Item>)
    requires Indexed(key, ids, items)
    ensures |ids| == |items|
    decreases |items|
  {
    if items != [] {
      IndexedSize(key, KeySet(key, items[1..]), items[1..]);
    }
  }
}
