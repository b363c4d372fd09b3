// A typed map inside a key-value storage: clearing it in batches.
module Maps {
  import opened Bytes
  import opened Listings
  import opened Overlay
  import opened Transactions
  import opened Keys
  import opened Prefixes

  const TAKE: nat := 10

  /** Namespaces are UTF-8 strings, which contain no byte 0xFF, of encodable length. */
  predicate MapNamespace(namespace: bytes) {
    |namespace| <= MAX_SEGMENT && (namespace == [] || namespace[|namespace| - 1] != 255)
  }

  /** What every key of the map starts with. */
  function StoragePrefix(namespace: bytes): bytes
    requires MapNamespace(namespace)
  {
    NamespacesWithKey([namespace], [])
  }

  function RawKey(namespace: bytes, key: bytes): bytes
    requires MapNamespace(namespace)
  {
    NamespacesWithKey([namespace], key)
  }

  lemma RawKeyIsPrefixed(namespace: bytes, key: bytes)
    requires MapNamespace(namespace)
    ensures RawKey(namespace, key) == StoragePrefix(namespace) + key
  {
    NamespacesThenKey([namespace], key);
  }

  lemma StoragePrefixExact(namespace: bytes)
    requires MapNamespace(namespace)
    ensures var p := StoragePrefix(namespace); p != [] && p[|p| - 1] != 255 && Exact(p)
  {
    var p := StoragePrefix(namespace);
    assert [namespace][1..] == [] && p == EncodeLength(namespace) + namespace + [];
    if namespace == [] {
      IntKeysZero();
    }
    ExactUnlessEndingInFF(p);
  }

  lemma IntKeysZero()
    ensures EncodeLength([]) == [0, 0]
  {
  }

  /** The stored keys that belong to the map. */
  function OwnKeys(m: Kv, namespace: bytes): set<bytes>
    requires MapNamespace(namespace)
  {
    set k | k in m && HasPrefix(k, StoragePrefix(namespace))
  }

  /** The first `n` keys still to come, or all of them if there are fewer. */
  method TakeKeys(it: RecordIter, n: nat) returns (keys: seq<bytes>)
    requires it.Valid()
    modifies it.Repr
    ensures |keys| <= n && (|keys| < n ==> |keys| == |old(it.Rest())|)
    ensures |keys| <= |old(it.Rest())| && forall i | 0 <= i < |keys| :: keys[i] == old(it.Rest())[i].0
  {
    keys := [];
    while |keys| < n
      invariant it.Valid() && |keys| <= n && |keys| <= |old(it.Rest())|
      invariant forall i | 0 <= i < |keys| :: keys[i] == old(it.Rest())[i].0
      invariant it.Rest() == old(it.Rest())[|keys|..]
    {
      var r := it.Next();
      if r == None {
        return;
      }
      keys := keys + [r.value.0];
    }
  }

  function ToSet(s: seq<bytes>): set<bytes> {
    set k | k in s
  }

  method RemoveAll(storage: Storage, paths: seq<bytes>)
    requires storage.Valid()
    modifies storage.Handle()
    ensures storage.Valid() && storage.View() == old(storage.View()) - ToSet(paths)
  {
    for i := 0 to |paths|
      invariant storage.Valid() && storage.View() == old(storage.View()) - ToSet(paths[..i])
    {
      RemoveOneMore(old(storage.View()), paths, i);
      storage.RemoveKey(paths[i]);
    }
    assert paths[..|paths|] == paths;
  }

  lemma RemoveOneMore(m: Kv, paths: seq<bytes>, i: nat)
    requires i < |paths|
    ensures m - ToSet(paths[..i]) - {paths[i]} == m - ToSet(paths[..i + 1])
  {
    assert ToSet(paths[..i + 1]) == ToSet(paths[..i]) + {paths[i]};
  }

  /** The keys of one batch, rebuilt from their trimmed forms, are the map's own. */
  lemma BatchIsOwn(m: Kv, namespace: bytes, batch: seq<bytes>, records: seq<Record>)
    requires MapNamespace(namespace)
    requires records == Listing(m, Some(StoragePrefix(namespace)), Some(Increment(StoragePrefix(namespace))), Ascending)
    requires |batch| <= |records| && forall i | 0 <= i < |batch| :: batch[i] == records[i].0
    ensures forall i | 0 <= i < |batch| :: batch[i] in OwnKeys(m, namespace)
              && RawKey(namespace, batch[i][|StoragePrefix(namespace)|..]) == batch[i]
    ensures |batch| == |records| ==> forall k | k in OwnKeys(m, namespace) :: k in batch
  {
    var p := StoragePrefix(namespace);
    StoragePrefixExact(namespace);
    ListingLists(m, Some(p), Some(Increment(p)), Ascending);
    forall i | 0 <= i < |batch|
      ensures batch[i] in OwnKeys(m, namespace) && RawKey(namespace, batch[i][|p|..]) == batch[i]
    {
      assert InRange(Some(p), Some(Increment(p)), batch[i]);
      assert HasPrefix(batch[i], p);
      RawKeyIsPrefixed(namespace, batch[i][|p|..]);
    }
    if |batch| == |records| {
      forall k | k in OwnKeys(m, namespace) ensures k in batch {
        assert HasPrefix(k, p);
        assert HasKey(records, k);
        var i :| 0 <= i < |records| && records[i].0 == k;
        assert batch[i] == k;
      }
    }
  }

  /** Up to ten keys of the map, listed in order; fewer than ten only if that is all. */
  method ListBatch(storage: Storage, namespace: bytes) returns (paths: seq<bytes>)
    requires storage.Valid() && MapNamespace(namespace)
    ensures |paths| <= TAKE && forall i | 0 <= i < |paths| :: paths[i] in OwnKeys(storage.View(), namespace)
    ensures |paths| < TAKE ==> forall k | k in OwnKeys(storage.View(), namespace) :: k in paths
  {
    var p := StoragePrefix(namespace);
    var batch := FirstKeys(storage, Some(p), Some(Increment(p)));
    BatchIsOwn(storage.View(), namespace, batch, Listing(storage.View(), Some(p), Some(Increment(p)), Ascending));
    paths := RebuildPaths(namespace, batch);
  }

  method FirstKeys(storage: Storage, start: Option<bytes>, end: Option<bytes>) returns (keys: seq<bytes>)
    requires storage.Valid()
    ensures var records := Listing(storage.View(), start, end, Ascending);
            && |keys| <= TAKE && |keys| <= |records| && (|keys| < TAKE ==> |keys| == |records|)
            && forall i | 0 <= i < |keys| :: keys[i] == records[i].0
  {
    var it := storage.Range(start, end, Ascending);
    keys := TakeKeys(it, TAKE);
  }

  /** From the trimmed keys back to the stored ones. */
  method RebuildPaths(namespace: bytes, batch: seq<bytes>) returns (paths: seq<bytes>)
    requires MapNamespace(namespace)
    requires forall i | 0 <= i < |batch| ::
               |batch[i]| >= |StoragePrefix(namespace)|
                   && RawKey(namespace, batch[i][|StoragePrefix(namespace)|..]) == batch[i]
    ensures paths == batch
  {
    var n := |StoragePrefix(namespace)|;
    paths := seq(|batch|, i requires 0 <= i < |batch| => RawKey(namespace, batch[i][n..]));
  }

  /** Lists a batch, then removes it. */
  method ClearBatch(storage: Storage, namespace: bytes) returns (n: nat, ghost removed: set<bytes>)
    requires storage.Valid() && MapNamespace(namespace)
    modifies storage.Handle()
    ensures storage.Valid() && storage.View() == old(storage.View()) - removed
    ensures n <= TAKE && removed <= OwnKeys(old(storage.View()), namespace)
    ensures if n < TAKE then removed == OwnKeys(old(storage.View()), namespace) else removed != {}
  {
    var paths := ListBatch(storage, namespace);
    RemoveAll(storage, paths);
    n, removed := |paths|, ToSet(paths);
    assert n > 0 ==> paths[0] in removed;
  }

  lemma OwnKeysWithout(m: Kv, removed: set<bytes>, namespace: bytes)
    requires MapNamespace(namespace)
    ensures OwnKeys(m - removed, namespace) == OwnKeys(m, namespace) - removed
    ensures forall more: set<bytes> :: m - removed - more == m - (removed + more)
  {
    assert forall more: set<bytes> :: m - removed - more == m - (removed + more);
  }

  /** `Map::clear`: terminates, and removes all and only the map's own keys. */
  method Clear(storage: Storage, namespace: bytes)
    requires storage.Valid() && MapNamespace(namespace)
    modifies storage.Handle()
    ensures storage.Valid()
    ensures storage.View() == old(storage.View()) - OwnKeys(old(storage.View()), namespace)
  {
    var cleared := false;
    ghost var before, removed := storage.View(), {};
    while !cleared
      invariant storage.Valid() && storage.View() == before - removed
      invariant removed <= OwnKeys(before, namespace)
      invariant cleared ==> removed == OwnKeys(before, namespace)
      decreases OwnKeys(before, namespace) - removed, !cleared
    {
      OwnKeysWithout(before, removed, namespace);
      var n, batch := ClearBatch(storage, namespace);
      removed := removed + batch;
      cleared := n < TAKE;
    }
  }
}
