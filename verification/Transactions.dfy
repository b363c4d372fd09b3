// Transactional storage: a write overlay holding a delta map and a replay log,
// stacked on a plain map or on another overlay.
module Transactions {
  import opened Bytes
  import opened Listings
  import opened Overlay

  type Kv = map<bytes, bytes>

  datatype Op = SetOp(key: bytes, value: bytes) | DeleteOp(key: bytes) {
    function ToDelta(): Delta {
      match this
      case SetOp(_, value) => Set(value)
      case DeleteOp(_) => Delete
    }

    function On(m: Kv): Kv {
      match this
      case SetOp(key, value) => m[key := value]
      case DeleteOp(key) => m - {key}
    }
  }

  /** The store after the operations of a log, oldest first. */
  function Replay(log: seq<Op>, m: Kv): Kv {
    if log == [] then m else log[|log| - 1].On(Replay(log[..|log| - 1], m))
  }

  /** The newest change a log holds for `k`, found by searching it backwards. */
  function LastChange(log: seq<Op>, k: bytes): Option<Delta> {
    if log == [] then None
    else
      var op := log[|log| - 1];
      if op.key == k then Some(op.ToDelta()) else LastChange(log[..|log| - 1], k)
  }

  /** The delta map shows, for each key, exactly the newest change logged for it. */
  ghost predicate LastWritePerKey(local: DeltaMap, log: seq<Op>) {
    forall k :: LastChange(log, k) == if k in local then Some(local[k]) else None
  }

  lemma LastWriteStep(local: DeltaMap, log: seq<Op>, op: Op)
    requires LastWritePerKey(local, log)
    ensures LastWritePerKey(local[op.key := op.ToDelta()], log + [op])
  {
    var local', log' := local[op.key := op.ToDelta()], log + [op];
    assert log'[..|log'| - 1] == log;
    forall k ensures LastChange(log', k) == if k in local' then Some(local'[k]) else None {
      assert k != op.key ==> LastChange(log', k) == LastChange(log, k);
    }
  }

  /** Replaying a log gives each key its newest change, and leaves the others alone. */
  lemma {:induction false} ReplayAt(log: seq<Op>, m: Kv, k: bytes)
    ensures match LastChange(log, k)
            case None => (k in Replay(log, m) <==> k in m) && (k in m ==> Replay(log, m)[k] == m[k])
            case Some(Set(v)) => k in Replay(log, m) && Replay(log, m)[k] == v
            case Some(Delete) => k !in Replay(log, m)
  {
    if log != [] {
      ReplayAt(log[..|log| - 1], m, k);
    }
  }

  /** Hence committing a log to the base yields exactly what the overlay showed. */
  lemma ReplayIsOverlay(local: DeltaMap, log: seq<Op>, base: Kv)
    requires LastWritePerKey(local, log)
    ensures Replay(log, base) == Overlaid(base, local)
  {
    var r, o := Replay(log, base), Overlaid(base, local);
    forall k ensures (k in r <==> k in o) && (k in r ==> r[k] == o[k]) {
      ReplayAt(log, base, k);
    }
  }

  lemma OverlaidWrite(base: Kv, local: DeltaMap, op: Op)
    ensures Overlaid(base, local[op.key := op.ToDelta()]) == op.On(Overlaid(base, local))
  {
  }

  /** Committing an inner transaction into an outer one and that one into the
      base is replaying the concatenated logs. */
  lemma {:induction false} ReplayConcat(outer: seq<Op>, inner: seq<Op>, m: Kv)
    ensures Replay(outer + inner, m) == Replay(inner, Replay(outer, m))
    decreases |inner|
  {
    if inner == [] {
      assert outer + inner == outer;
    } else {
      var n := |inner| - 1;
      ReplayConcat(outer, inner[..n], m);
      assert (outer + inner)[..|outer + inner| - 1] == outer + inner[..n];
    }
  }

  class MemoryStorage {
    var data: Kv

    constructor (data: Kv)
      ensures this.data == data
    {
      this.data := data;
    }
  }

  /** A mutable storage: the plain map at the bottom, or a transaction over another storage. */
  datatype Storage = Memory(mem: MemoryStorage) | Cached(tx: StorageTransaction) {

    ghost function Depth(): nat {
      match this case Memory(_) => 0 case Cached(tx) => tx.depth
    }

    /** Every object this storage is made of. */
    ghost function Footprint(): set<object> {
      match this case Memory(mem) => {mem} case Cached(tx) => tx.Repr
    }

    /** The only object a write to this storage changes. */
    ghost function Handle(): object {
      match this case Memory(mem) => mem case Cached(tx) => tx
    }

    ghost predicate Valid()
      reads Footprint()
      decreases Depth(), 0
    {
      match this
      case Memory(_) => true
      case Cached(tx) =>
        && tx in tx.Repr && tx !in tx.storage.Footprint() && tx.storage.Footprint() <= tx.Repr
        && tx.storage.Depth() < tx.depth && tx.storage.Valid()
        && LastWritePerKey(tx.localState, tx.repLog)
    }

    /** What a reader of this storage sees. */
    function View(): Kv
      requires Valid()
      reads Footprint()
      decreases Depth()
    {
      match this
      case Memory(mem) => mem.data
      case Cached(tx) => Overlaid(tx.storage.View(), tx.localState)
    }

    method Get(key: bytes) returns (value: Option<bytes>)
      requires Valid()
      ensures value == if key in View() then Some(View()[key]) else None
      decreases Depth()
    {
      match this
      case Memory(mem) => value := if key in mem.data then Some(mem.data[key]) else None;
      case Cached(tx) =>
        if key in tx.localState {
          match tx.localState[key]
          case Set(v) => value := Some(v);
          case Delete => value := None;
        } else {
          value := tx.storage.Get(key);
        }
    }

    method SetKey(key: bytes, value: bytes)
      requires Valid()
      modifies Handle()
      ensures Valid() && View() == old(View())[key := value]
      ensures Cached? ==> tx.repLog == old(tx.repLog) + [SetOp(key, value)]
    {
      match this
      case Memory(mem) => mem.data := mem.data[key := value];
      case Cached(tx) => tx.Write(SetOp(key, value));
    }

    method RemoveKey(key: bytes)
      requires Valid()
      modifies Handle()
      ensures Valid() && View() == old(View()) - {key}
      ensures Cached? ==> tx.repLog == old(tx.repLog) + [DeleteOp(key)]
    {
      match this
      case Memory(mem) => mem.data := mem.data - {key};
      case Cached(tx) => tx.Write(DeleteOp(key));
    }

    method Apply(op: Op)
      requires Valid()
      modifies Handle()
      ensures Valid() && View() == op.On(old(View()))
      ensures Cached? ==> tx.repLog == old(tx.repLog) + [op]
    {
      match op
      case SetOp(key, value) => SetKey(key, value);
      case DeleteOp(key) => RemoveKey(key);
    }

    /** Iterates over a range of what the reader sees, lazily and at any depth. */
    method Range(start: Option<bytes>, end: Option<bytes>, order: Order) returns (it: RecordIter)
      requires Valid()
      ensures it.Valid() && fresh(it.Repr) && it.Rest() == Listing(View(), start, end, order)
      decreases Depth()
    {
      if Memory? {
        it := new RecordIter.FromItems(Listing(mem.data, start, end, order));
      } else {
        var base := tx.storage.Range(start, end, order);
        it := RangeOver(tx.localState, tx.storage.View(), base, start, end, order);
      }
    }
  }

  /** The local changes in range, merged lazily over the range of the storage below. */
  method RangeOver(local: DeltaMap, ghost below: Kv, base: RecordIter,
                   start: Option<bytes>, end: Option<bytes>, order: Order) returns (it: RecordIter)
    requires base.Valid() && base.Rest() == Listing(below, start, end, order)
    ensures it.Valid() && fresh(it.Repr - base.Repr)
    ensures it.Rest() == Listing(Overlaid(below, local), start, end, order)
  {
    var left := [];
    if start.Some? && end.Some? && Less(end.value, start.value) {
      InvertedRangeIsEmpty(local, start.value, end.value, order);
    } else {
      left := BTreeRange(local, start, end, order);
    }
    var merged := new MergeOverlay(left, base, order);
    MergeIsListing(local, below, start, end, order);
    it := new RecordIter.FromMerge(merged);
  }

  /** `BTreeMap::range`, which panics on an inverted range. */
  function BTreeRange(local: DeltaMap, start: Option<bytes>, end: Option<bytes>, order: Order): seq<Entry<Delta>>
    requires start.Some? && end.Some? ==> !Less(end.value, start.value)
  {
    Listing(local, start, end, order)
  }

  lemma InvertedRangeIsEmpty(local: DeltaMap, start: bytes, end: bytes, order: Order)
    requires Less(end, start)
    ensures Listing(local, Some(start), Some(end), order) == []
  {
    ListingLists(local, Some(start), Some(end), order);
    var s := Listing(local, Some(start), Some(end), order);
    if s != [] {
      LessTransitive(s[0].0, end, start);
      assert false;
    }
  }

  class StorageTransaction {
    ghost const depth: nat
    ghost const Repr: set<object>
    const storage: Storage
    var localState: DeltaMap
    var repLog: seq<Op>

    constructor (storage: Storage)
      requires storage.Valid()
      ensures this.storage == storage && fresh(this) && Repr == {this} + storage.Footprint()
      ensures Cached(this).Valid() && Cached(this).View() == storage.View()
      ensures localState == map[] && repLog == []
    {
      this.storage, localState, repLog := storage, map[], [];
      depth, Repr := storage.Depth() + 1, {this} + storage.Footprint();
      new;
      assert Overlaid(storage.View(), map[]) == storage.View();
    }

    method Write(op: Op)
      requires Cached(this).Valid()
      modifies this
      ensures Cached(this).Valid() && Cached(this).View() == op.On(old(Cached(this).View()))
      ensures repLog == old(repLog) + [op]
    {
      LastWriteStep(localState, repLog, op);
      ghost var below := storage.View();
      OverlaidWrite(below, localState, op);
      localState := localState[op.key := op.ToDelta()];
      repLog := repLog + [op];
      assert storage.View() == below;
    }
  }

  /** Flushes a log to a storage, operation by operation. */
  method Commit(log: seq<Op>, storage: Storage)
    requires storage.Valid()
    modifies storage.Handle()
    ensures storage.Valid() && storage.View() == Replay(log, old(storage.View()))
    ensures storage.Cached? ==> storage.tx.repLog == old(storage.tx.repLog) + log
  {
    for i := 0 to |log|
      invariant storage.Valid() && storage.View() == Replay(log[..i], old(storage.View()))
      invariant storage.Cached? ==> storage.tx.repLog == old(storage.tx.repLog) + log[..i]
    {
      assert log[..i + 1][..i] == log[..i];
      storage.Apply(log[i]);
    }
    assert log[..|log|] == log;
  }

  /** The second half of `transactional`: an action ran on `cache`, a transaction
      over `base`, and either succeeded or failed. */
  method Settle(base: Storage, cache: StorageTransaction, ok: bool)
    requires base.Valid() && cache.storage == base && Cached(cache).Valid()
    modifies base.Handle()
    ensures base.Valid()
    ensures base.View() == if ok then old(Cached(cache).View()) else old(base.View())
    ensures base.Cached? ==> base.tx.repLog == old(base.tx.repLog) + if ok then old(cache.repLog) else []
  {
    if ok {
      ReplayIsOverlay(cache.localState, cache.repLog, base.View());
      Commit(cache.repLog, base);
    }
  }
}
