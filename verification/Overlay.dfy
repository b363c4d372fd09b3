// The lazy merge of a transaction's local changes with the records of the
// storage underneath it (`MergeOverlay`), to any depth of nesting.
module Overlay {
  import opened Bytes
  import opened Listings

  type Record = Entry<bytes>

  /** A local change: a value written, or a deletion. */
  datatype Delta = Set(value: bytes) | Delete

  type DeltaMap = map<bytes, Delta>

  /** What a reader sees through the local changes. */
  function Overlaid(base: map<bytes, bytes>, local: DeltaMap): map<bytes, bytes> {
    map k | k in base.Keys + local.Keys && (k in local ==> local[k].Set?) ::
      if k in local then local[k].value else base[k]
  }

  function Live(e: Entry<Delta>): seq<Record> {
    match e.1
    case Set(value) => [(e.0, value)]
    case Delete => []
  }

  /** The whole merge at once: the local side wins on equal keys. */
  function Merge(left: seq<Entry<Delta>>, right: seq<Record>, order: Order): seq<Record>
    decreases |left| + |right|
  {
    if left == [] then right
    else if right == [] || Before(order, left[0].0, right[0].0) then
      Live(left[0]) + Merge(left[1..], right, order)
    else if left[0].0 == right[0].0 then
      Live(left[0]) + Merge(left[1..], right[1..], order)
    else
      [right[0]] + Merge(left, right[1..], order)
  }

  ghost predicate AllAfter<V>(order: Order, k: bytes, s: seq<Entry<V>>) {
    forall i | 0 <= i < |s| :: Before(order, k, s[i].0)
  }

  lemma {:induction false} MergeAfter(left: seq<Entry<Delta>>, right: seq<Record>, order: Order, k: bytes)
    requires AllAfter(order, k, left) && AllAfter(order, k, right)
    ensures AllAfter(order, k, Merge(left, right, order))
    decreases |left| + |right|
  {
    if left != [] {
      if right == [] || Before(order, left[0].0, right[0].0) {
        MergeAfter(left[1..], right, order, k);
      } else if left[0].0 == right[0].0 {
        MergeAfter(left[1..], right[1..], order, k);
      } else {
        MergeAfter(left, right[1..], order, k);
      }
    }
  }

  lemma ListsAgree<V>(s: seq<Entry<V>>, m: map<bytes, V>, m': map<bytes, V>,
                      start: Option<bytes>, end: Option<bytes>, order: Order)
    requires Lists(s, m, start, end, order)
    requires forall k | InRange(start, end, k) :: (k in m <==> k in m') && (k in m ==> m[k] == m'[k])
    ensures Lists(s, m', start, end, order)
  {
  }

  lemma ListsCons<V>(e: Entry<V>, t: seq<Entry<V>>, m: map<bytes, V>,
                     start: Option<bytes>, end: Option<bytes>, order: Order)
    requires Lists(t, m - {e.0}, start, end, order)
    requires InRange(start, end, e.0) && e.0 in m && m[e.0] == e.1 && AllAfter(order, e.0, t)
    ensures Lists([e] + t, m, start, end, order)
  {
    var s := [e] + t;
    forall k | k in m && InRange(start, end, k) ensures HasKey(s, k) {
      if k == e.0 {
        assert s[0].0 == k;
      } else {
        assert HasKey(t, k);
        var i :| 0 <= i < |t| && t[i].0 == k;
        assert s[i + 1].0 == k;
      }
    }
  }

  /** Everything after the head of a listing comes after it in the order. */
  lemma RestAfterHead(left: seq<Entry<Delta>>, right: seq<Record>, order: Order, k: bytes)
    requires Ordered(order, left) && Ordered(order, right)
    requires left != [] ==> left[0].0 == k || Before(order, k, left[0].0)
    requires right != [] ==> right[0].0 == k || Before(order, k, right[0].0)
    ensures AllAfter(order, k, if left != [] && left[0].0 == k then left[1..] else left)
    ensures AllAfter(order, k, if right != [] && right[0].0 == k then right[1..] else right)
  {
    forall i | 0 < i < |left| ensures Before(order, k, left[i].0) {
      if left[0].0 != k { BeforeTransitive(order, k, left[0].0, left[i].0); }
    }
    forall i | 0 < i < |right| ensures Before(order, k, right[i].0) {
      if right[0].0 != k { BeforeTransitive(order, k, right[0].0, right[i].0); }
    }
  }

  lemma AfterHasNotKey<V>(s: seq<Entry<V>>, order: Order, k: bytes)
    requires AllAfter(order, k, s)
    ensures !HasKey(s, k)
  {
    forall i | 0 <= i < |s| ensures s[i].0 != k { BeforeAsymmetric(order, k, s[i].0); }
  }

  /** Putting the local entry for `k` back over a merge of everything else. */
  lemma TakeLeftLists(e: Entry<Delta>, t: seq<Record>, local: DeltaMap, base: map<bytes, bytes>,
                      start: Option<bytes>, end: Option<bytes>, order: Order)
    requires e.0 in local && local[e.0] == e.1 && InRange(start, end, e.0)
    requires Lists(t, Overlaid(base - {e.0}, local - {e.0}), start, end, order) && AllAfter(order, e.0, t)
    ensures Lists(Live(e) + t, Overlaid(base, local), start, end, order)
  {
    var all := Overlaid(base, local);
    assert Overlaid(base - {e.0}, local - {e.0}) == all - {e.0};
    if e.1.Set? {
      ListsCons((e.0, e.1.value), t, all, start, end, order);
    } else {
      assert all - {e.0} == all;
      assert Live(e) + t == t;
    }
  }

  /** Putting a record of the storage below back in front of everything else. */
  lemma TakeRightLists(r: Record, t: seq<Record>, local: DeltaMap, base: map<bytes, bytes>,
                       start: Option<bytes>, end: Option<bytes>, order: Order)
    requires r.0 in base && base[r.0] == r.1 && r.0 !in local && InRange(start, end, r.0)
    requires Lists(t, Overlaid(base - {r.0}, local), start, end, order) && AllAfter(order, r.0, t)
    ensures Lists([r] + t, Overlaid(base, local), start, end, order)
  {
    assert Overlaid(base - {r.0}, local) == Overlaid(base, local) - {r.0};
    ListsCons(r, t, Overlaid(base, local), start, end, order);
  }

  /** The local side comes first: the storage below has nothing in range under that key. */
  lemma LeftFirst(left: seq<Entry<Delta>>, right: seq<Record>, local: DeltaMap, base: map<bytes, bytes>,
                  start: Option<bytes>, end: Option<bytes>, order: Order)
    requires left != [] && (right == [] || Before(order, left[0].0, right[0].0))
    requires Lists(left, local, start, end, order) && Lists(right, base, start, end, order)
    ensures base - {left[0].0} == base
    ensures AllAfter(order, left[0].0, Merge(left[1..], right, order))
  {
    var k := left[0].0;
    RestAfterHead(left, right, order, k);
    if right != [] { BeforeAsymmetric(order, k, right[0].0); }
    AfterHasNotKey(right, order, k);
    MergeAfter(left[1..], right, order, k);
    assert k !in base;
  }

  lemma RightFirst(left: seq<Entry<Delta>>, right: seq<Record>, local: DeltaMap, base: map<bytes, bytes>,
                   start: Option<bytes>, end: Option<bytes>, order: Order)
    requires left != [] && right != [] && left[0].0 != right[0].0 && !Before(order, left[0].0, right[0].0)
    requires Lists(left, local, start, end, order) && Lists(right, base, start, end, order)
    ensures right[0].0 !in local
    ensures AllAfter(order, right[0].0, Merge(left, right[1..], order))
  {
    var k := right[0].0;
    LessTotal(left[0].0, k);
    RestAfterHead(left, right, order, k);
    AfterHasNotKey(left, order, k);
    MergeAfter(left, right[1..], order, k);
  }

  lemma {:induction false} MergeLists(left: seq<Entry<Delta>>, right: seq<Record>, local: DeltaMap, base: map<bytes,
                                      bytes>,
                                      start: Option<bytes>, end: Option<bytes>, order: Order)
    requires Lists(left, local, start, end, order) && Lists(right, base, start, end, order)
    ensures Lists(Merge(left, right, order), Overlaid(base, local), start, end, order)
    decreases |left| + |right|
  {
    if left == [] {
      forall k | InRange(start, end, k) ensures k !in local {
        assert k in local ==> HasKey(left, k);
      }
      ListsAgree(right, base, Overlaid(base, local), start, end, order);
    } else if right == [] || Before(order, left[0].0, right[0].0) {
      var k := left[0].0;
      LeftFirst(left, right, local, base, start, end, order);
      ListsTail(left, local, start, end, order);
      MergeLists(left[1..], right, local - {k}, base, start, end, order);
      TakeLeftLists(left[0], Merge(left[1..], right, order), local, base, start, end, order);
    } else if left[0].0 == right[0].0 {
      var k := left[0].0;
      RestAfterHead(left, right, order, k);
      ListsTail(left, local, start, end, order);
      ListsTail(right, base, start, end, order);
      MergeLists(left[1..], right[1..], local - {k}, base - {k}, start, end, order);
      MergeAfter(left[1..], right[1..], order, k);
      TakeLeftLists(left[0], Merge(left[1..], right[1..], order), local, base, start, end, order);
    } else {
      var k := right[0].0;
      RightFirst(left, right, local, base, start, end, order);
      ListsTail(right, base, start, end, order);
      MergeLists(left, right[1..], local, base - {k}, start, end, order);
      TakeRightLists(right[0], Merge(left, right[1..], order), local, base, start, end, order);
    }
  }

  /** Merging the listing of the local changes with the listing of the storage
      below gives the listing of the overlaid map, in either order. */
  lemma MergeIsListing(local: DeltaMap, base: map<bytes, bytes>, start: Option<bytes>, end: Option<bytes>, order: Order)
    ensures Merge(Listing(local, start, end, order), Listing(base, start, end, order), order)
            == Listing(Overlaid(base, local), start, end, order)
  {
    ListingLists(local, start, end, order);
    ListingLists(base, start, end, order);
    MergeLists(Listing(local, start, end, order), Listing(base, start, end, order), local, base, start, end, order);
    IsTheListing(Merge(Listing(local, start, end, order), Listing(base, start, end, order), order),
                 Overlaid(base, local), start, end, order);
  }

  function Head<T>(s: seq<T>): Option<T> {
    if s == [] then None else Some(s[0])
  }

  function Tail<T>(s: seq<T>): seq<T> {
    if s == [] then [] else s[1..]
  }

  /** A peekable boxed iterator over records: the range of a plain map, or the
      merge of a transaction over another such iterator. */
  class RecordIter {
    ghost const Repr: set<object>
    ghost const rank: nat
    var items: seq<Record>
    const merge: MergeOverlay?
    var peeked: Option<Option<Record>>

    ghost predicate Valid()
      reads this, Repr
      decreases rank, 1
    {
      && this in Repr
      && (merge != null ==>
            merge in Repr && merge.Repr <= Repr && this !in merge.Repr && merge.rank < rank
            && merge.Valid())
      && (peeked == Some(None) ==> Source() == [])
    }

    /** What the boxed iterator itself will still yield. */
    ghost function Source(): seq<Record>
      requires merge != null ==> merge.rank < rank && merge in Repr && merge.Repr <= Repr && merge.Valid()
      reads this, Repr
      decreases rank, 0
    {
      if merge == null then items else merge.Rest()
    }

    /** What this iterator will still yield, the peeked record included. */
    ghost function Rest(): seq<Record>
      requires Valid()
      reads this, Repr
      decreases rank, 2
    {
      match peeked
      case None => Source()
      case Some(None) => []
      case Some(Some(r)) => [r] + Source()
    }

    constructor FromItems(items: seq<Record>)
      ensures Valid() && fresh(Repr) && Rest() == items && rank == 0
    {
      this.items, merge, peeked, rank := items, null, None, 0;
      Repr := {this};
    }

    constructor FromMerge(m: MergeOverlay)
      requires m.Valid()
      ensures Valid() && fresh(Repr - m.Repr) && Rest() == m.Rest() && rank == m.rank + 1
    {
      items, merge, peeked, rank := [], m, None, m.rank + 1;
      Repr := {this} + m.Repr;
    }

    method NextOfSource() returns (r: Option<Record>)
      requires Valid() && peeked == None
      modifies Repr
      ensures Valid() && peeked == None
      ensures r == Head(old(Rest())) && Rest() == Tail(old(Rest()))
      decreases rank, 0
    {
      if merge == null {
        if items == [] {
          r := None;
        } else {
          r, items := Some(items[0]), items[1..];
        }
      } else {
        r := merge.Next();
      }
    }

    method Next() returns (r: Option<Record>)
      requires Valid()
      modifies Repr
      ensures Valid() && peeked == None
      ensures r == Head(old(Rest())) && Rest() == Tail(old(Rest()))
      decreases rank, 1
    {
      match peeked
      case Some(v) =>
        r, peeked := v, None;
      case None =>
        r := NextOfSource();
    }

    method Peek() returns (r: Option<Record>)
      requires Valid()
      modifies Repr
      ensures Valid()
      ensures r == Head(Rest()) && Rest() == old(Rest())
      decreases rank, 1
    {
      match peeked
      case Some(v) =>
        r := v;
      case None =>
        r := NextOfSource();
        peeked := Some(r);
    }

    /** Draining the iterator yields the records it stands for, in order. */
    method Collect() returns (all: seq<Record>)
      requires Valid()
      modifies Repr
      ensures Valid() && all == old(Rest()) && Rest() == []
    {
      all := [];
      var r := Next();
      while r.Some?
        invariant Valid()
        invariant old(Rest()) == all + (if r.Some? then [r.value] else []) + Rest()
        invariant r == None ==> Rest() == []
        decreases |Rest()|, r.Some?
      {
        all := all + [r.value];
        r := Next();
      }
    }
  }

  class MergeOverlay {
    ghost const Repr: set<object>
    ghost const rank: nat
    var left: seq<Entry<Delta>>
    const right: RecordIter
    const order: Order

    ghost predicate Valid()
      reads this, Repr
      decreases rank, 1
    {
      && this in Repr && right in Repr && right.Repr <= Repr && this !in right.Repr
      && right.rank < rank && right.Valid()
    }

    ghost function Rest(): seq<Record>
      requires Valid()
      reads this, Repr
      decreases rank, 2
    {
      Merge(left, right.Rest(), order)
    }

    /** What is still to come once the first item of the left side is taken. */
    ghost function RestTakingLeft(): seq<Record>
      requires Valid() && left != []
      reads this, Repr
    {
      Live(left[0]) + Merge(left[1..], right.Rest(), order)
    }

    constructor (left: seq<Entry<Delta>>, right: RecordIter, order: Order)
      requires right.Valid()
      ensures Valid() && fresh(Repr - right.Repr) && Rest() == Merge(left, right.Rest(), order)
      ensures rank == right.rank + 1
    {
      this.left, this.right, this.order, rank := left, right, order, right.rank + 1;
      Repr := {this} + right.Repr;
    }

    method Next() returns (r: Option<Record>)
      requires Valid()
      modifies Repr
      ensures Valid()
      ensures r == Head(old(Rest())) && Rest() == Tail(old(Rest()))
      decreases rank, |left|, 2
    {
      var litem := Head(left);
      var ritem := right.Peek();
      if litem.Some? && ritem.Some? {
        r := PickMatch(litem.value.0, ritem.value.0);
      } else if litem.Some? {
        r := TakeLeft();
      } else if ritem.Some? {
        r := right.Next();
      } else {
        r := None;
      }
    }

    method PickMatch(lkey: bytes, rkey: bytes) returns (r: Option<Record>)
      requires Valid() && left != [] && right.Rest() != []
      requires lkey == left[0].0 && rkey == right.Rest()[0].0
      modifies Repr
      ensures Valid()
      ensures r == Head(old(Rest())) && Rest() == Tail(old(Rest()))
      decreases rank, |left|, 1
    {
      if Before(order, lkey, rkey) {
        r := TakeLeft();
      } else if lkey == rkey {
        var _ := right.Next();
        r := TakeLeft();
      } else {
        r := right.Next();
      }
    }

    /** Only called when the left side has an item. */
    method TakeLeft() returns (r: Option<Record>)
      requires Valid() && left != []
      modifies Repr
      ensures Valid()
      ensures r == Head(old(RestTakingLeft())) && Rest() == Tail(old(RestTakingLeft()))
      decreases rank, |left|, 0
    {
      var litem := left[0];
      left := left[1..];
      match litem.1
      case Set(value) =>
        r := Some((litem.0, value));
      case Delete =>
        r := Next();
    }
  }
}
