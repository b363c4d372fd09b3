// A deque over wrapping 32-bit positions, kept in a key-value storage, refines a plain
// sequence. Elements are stored serialized.
module Deques {
  import opened Bytes
  import opened Listings
  import opened IntKeys
  import opened Keys
  import opened Transactions

  const SPAN32: nat := 0x1_0000_0000

  type u32 = n: int | 0 <= n < SPAN32

  const U32_MAX: u32 := 0xFFFF_FFFF

  function WrappingAdd(a: u32, b: u32): u32 {
    if a + b < SPAN32 then a + b else a + b - SPAN32
  }

  function WrappingSub(a: u32, b: u32): u32 {
    if a >= b then a - b else a - b + SPAN32
  }

  /** `calc_len` */
  function CalcLen(head: u32, tail: u32): u32 {
    WrappingSub(tail, head)
  }

  type Namespace = n: bytes | |n| <= MAX_SEGMENT witness []

  lemma Span32()
    ensures Span(4) == SPAN32
  {
    assert Span(2) == 256 * (256 * Span(0));
    assert Span(3) == 256 * Span(2);
  }

  /** The four bytes of a position. */
  function PosBytes(p: u32): (b: bytes)
    ensures |b| == 4
  {
    Span32();
    ToBeBytes(p, 4)
  }

  function ReadPos(b: bytes): u32
    requires |b| == 4
  {
    Span32();
    FromBeBytes(b)
  }

  lemma PosRoundTrip(p: u32)
    ensures ReadPos(PosBytes(p)) == p
  {
    Span32();
    BeRoundTrip(p, 4);
  }

  /** "h" and "t", shorter than a position. */
  const HEAD: bytes := [104]
  const TAIL: bytes := [116]

  /** Exactly the `len` positions from `from` on, wrapping around, are stored. */
  ghost predicate Stores<T>(items: map<u32, T>, from: u32, len: nat) {
    forall p: u32 :: p in items <==> WrappingSub(p, from) < len
  }

  ghost predicate StoredFrom<T>(items: map<u32, T>, from: u32, len: nat) {
    len < SPAN32 && forall i: u32 | i < len :: WrappingAdd(from, i) in items
  }

  lemma StoresFrom<T>(items: map<u32, T>, from: u32, len: nat)
    requires Stores(items, from, len) && len < SPAN32
    ensures StoredFrom(items, from, len)
  {
    forall i: u32 | i < len ensures WrappingAdd(from, i) in items {
      assert WrappingSub(WrappingAdd(from, i), from) == i;
    }
  }

  /** The items at `len` consecutive positions. */
  ghost function Slice<T>(items: map<u32, T>, from: u32, len: nat): (s: seq<T>)
    requires StoredFrom(items, from, len)
    ensures |s| == len && forall i: u32 | i < len :: s[i] == items[WrappingAdd(from, i)]
  {
    seq(len, i requires 0 <= i < len => items[WrappingAdd(from, i)])
  }

  /** One position more at the back: the window grows by one as long as it does not wrap onto itself. */
  lemma WithLast<T>(items: map<u32, T>, from: u32, len: u32, value: T)
    requires Stores(items, from, len) && len < U32_MAX
    ensures var more := items[WrappingAdd(from, len) := value];
            && Stores(more, from, len + 1) && StoredFrom(items, from, len) && StoredFrom(more, from, len + 1)
            && Slice(more, from, len + 1) == Slice(items, from, len) + [value]
  {
    var end := WrappingAdd(from, len);
    assert WrappingSub(end, from) == len;
    StoresFrom(items, from, len);
    forall p: u32 ensures WrappingSub(p, from) == len <==> p == end {
    }
    StoresFrom(items[end := value], from, len + 1);
  }

  lemma WithoutLast<T>(items: map<u32, T>, from: u32, len: u32)
    requires Stores(items, from, len) && len > 0
    ensures var last := WrappingAdd(from, len - 1);
            && last in items && Stores(items - {last}, from, len - 1)
            && StoredFrom(items, from, len) && StoredFrom(items - {last}, from, len - 1)
            && Slice(items, from, len)[len - 1] == items[last]
            && Slice(items, from, len)[..len - 1] == Slice(items - {last}, from, len - 1)
  {
    var last := WrappingAdd(from, len - 1);
    assert WrappingSub(last, from) == len - 1;
    StoresFrom(items, from, len);
    forall p: u32 ensures WrappingSub(p, from) == len - 1 <==> p == last {
    }
    StoresFrom(items - {last}, from, len - 1);
  }

  lemma WithFirst<T>(items: map<u32, T>, from: u32, len: u32, value: T)
    requires Stores(items, from, len) && len < U32_MAX
    ensures var first := WrappingSub(from, 1);
            var more := items[first := value];
            && Stores(more, first, len + 1) && StoredFrom(items, from, len) && StoredFrom(more, first, len + 1)
            && Slice(more, first, len + 1) == [value] + Slice(items, from, len)
  {
    var first := WrappingSub(from, 1);
    var more := items[first := value];
    StoresFrom(items, from, len);
    forall p: u32 ensures p in more <==> WrappingSub(p, first) < len + 1 {
      assert p in items <==> WrappingSub(p, from) < len;
    }
    StoresFrom(more, first, len + 1);
    forall i: u32 | i < len ensures WrappingAdd(first, i + 1) == WrappingAdd(from, i) != first {
    }
  }

  lemma WithoutFirst<T>(items: map<u32, T>, from: u32, len: u32)
    requires Stores(items, from, len) && len > 0
    ensures var next := WrappingAdd(from, 1);
            && from in items && Stores(items - {from}, next, len - 1)
            && StoredFrom(items, from, len) && StoredFrom(items - {from}, next, len - 1)
            && Slice(items, from, len)[0] == items[from]
            && Slice(items, from, len)[1..] == Slice(items - {from}, next, len - 1)
  {
    var next := WrappingAdd(from, 1);
    assert WrappingSub(from, from) == 0 && WrappingAdd(from, 0) == from;
    StoresFrom(items, from, len);
    forall p: u32 ensures p in items - {from} <==> WrappingSub(p, next) < len - 1 {
      assert p in items <==> WrappingSub(p, from) < len;
    }
    StoresFrom(items - {from}, next, len - 1);
    forall i: u32 | i < len - 1 ensures WrappingAdd(next, i) == WrappingAdd(from, i + 1) != from {
    }
  }

  function LastOf<T>(s: seq<T>): Option<T> {
    if s == [] then None else Some(s[|s| - 1])
  }

  function WithoutLastOf<T>(s: seq<T>): seq<T> {
    if s == [] then [] else s[..|s| - 1]
  }

  // ---------------------------------------------------------------------------
  // In the storage
  // ---------------------------------------------------------------------------

  datatype Deque = Deque(namespace: Namespace) {

    /** What every key of the deque starts with. */
    function Prefix(): bytes {
      NamespacesWithKey([namespace], [])
    }

    function KeyOf(name: bytes): bytes {
      NamespacesWithKey([namespace], name)
    }

    function ItemKey(p: u32): bytes {
      KeyOf(PosBytes(p))
    }

    /** What is stored at each position. */
    ghost function Items(view: Kv): map<u32, bytes> {
      map p: u32 | ItemKey(p) in view :: view[ItemKey(p)]
    }

    /** A missing end reads as position zero; one that is not four bytes long is an error. */
    function End(view: Kv, name: bytes): u32
      requires KeyOf(name) in view ==> |view[KeyOf(name)]| == 4
    {
      if KeyOf(name) in view then ReadPos(view[KeyOf(name)]) else 0
    }

    ghost predicate Formed(view: Kv) {
      && (KeyOf(HEAD) in view ==> |view[KeyOf(HEAD)]| == 4)
      && (KeyOf(TAIL) in view ==> |view[KeyOf(TAIL)]| == 4)
    }

    ghost function Len(view: Kv): u32
      requires Formed(view)
    {
      CalcLen(End(view, HEAD), End(view, TAIL))
    }

    /** Exactly the positions of the window from head to tail are stored. */
    ghost predicate Valid(view: Kv) {
      Formed(view) && Stores(Items(view), End(view, HEAD), Len(view))
    }

    ghost function Contents(view: Kv): (s: seq<bytes>)
      requires Valid(view)
      ensures |s| == Len(view)
    {
      StoresFrom(Items(view), End(view, HEAD), Len(view));
      Slice(Items(view), End(view, HEAD), Len(view))
    }

    method ReadEnd(storage: Storage, name: bytes) returns (p: u32)
      requires storage.Valid() && (KeyOf(name) in storage.View() ==> |storage.View()[KeyOf(name)]| == 4)
      ensures p == End(storage.View(), name)
    {
      var value := storage.Get(KeyOf(name));
      p := match value case Some(b) => ReadPos(b) case None => 0;
    }

    method WriteEnd(storage: Storage, name: bytes, p: u32)
      requires storage.Valid()
      modifies storage.Handle()
      ensures storage.Valid() && storage.View() == old(storage.View())[KeyOf(name) := PosBytes(p)]
    {
      storage.SetKey(KeyOf(name), PosBytes(p));
    }

    /** The item first, then the end that moves. */
    method Put(storage: Storage, at: u32, value: bytes, name: bytes, p: u32)
      requires storage.Valid()
      modifies storage.Handle()
      ensures storage.Valid() && storage.View() == old(storage.View())[ItemKey(at) := value][KeyOf(name) := PosBytes(p)]
    {
      storage.SetKey(ItemKey(at), value);
      WriteEnd(storage, name, p);
    }

    method Take(storage: Storage, at: u32, name: bytes, p: u32)
      requires storage.Valid()
      modifies storage.Handle()
      ensures storage.Valid() && storage.View() == (old(storage.View()) - {ItemKey(at)})[KeyOf(name) := PosBytes(p)]
    {
      storage.RemoveKey(ItemKey(at));
      WriteEnd(storage, name, p);
    }

    /** Appends, as long as fewer than u32::MAX elements are stored; one more push and the
        deque reports itself empty. Nothing outside the deque's namespace changes. */
    method PushBack(storage: Storage, value: bytes)
      requires storage.Valid() && Valid(storage.View())
      modifies storage.Handle()
      ensures storage.Valid() && SameElsewhere(this, old(storage.View()), storage.View())
      ensures var s := Contents(old(storage.View()));
              if |s| < U32_MAX then Valid(storage.View()) && Contents(storage.View()) == s + [value]
              else Formed(storage.View()) && Len(storage.View()) == 0 && !Valid(storage.View())
    {
      var pos := ReadEnd(storage, TAIL);
      PushedBack(this, storage.View(), value);
      Put(storage, pos, value, TAIL, WrappingAdd(pos, 1));
    }

    method PushFront(storage: Storage, value: bytes)
      requires storage.Valid() && Valid(storage.View())
      modifies storage.Handle()
      ensures storage.Valid() && SameElsewhere(this, old(storage.View()), storage.View())
      ensures var s := Contents(old(storage.View()));
              if |s| < U32_MAX then Valid(storage.View()) && Contents(storage.View()) == [value] + s
              else Formed(storage.View()) && Len(storage.View()) == 0 && !Valid(storage.View())
    {
      // the head itself is taken, unless the deque is empty
      var head := ReadEnd(storage, HEAD);
      var pos := WrappingSub(head, 1);
      PushedFront(this, storage.View(), value);
      Put(storage, pos, value, HEAD, pos);
    }

    method PopBack(storage: Storage) returns (value: Option<bytes>)
      requires storage.Valid() && Valid(storage.View())
      modifies storage.Handle()
      ensures storage.Valid() && Valid(storage.View()) && SameElsewhere(this, old(storage.View()), storage.View())
      ensures var s, s' := Contents(old(storage.View())), Contents(storage.View());
              value == LastOf(s) && s' == WithoutLastOf(s)
    {
      var tail := ReadEnd(storage, TAIL);
      var pos := WrappingSub(tail, 1);
      LastItem(this, storage.View());
      value := storage.Get(ItemKey(pos));
      if value.Some? {
        PoppedBack(this, storage.View());
        // an empty deque stays where it is
        Take(storage, pos, TAIL, pos);
      }
    }

    method PopFront(storage: Storage) returns (value: Option<bytes>)
      requires storage.Valid() && Valid(storage.View())
      modifies storage.Handle()
      ensures storage.Valid() && Valid(storage.View()) && SameElsewhere(this, old(storage.View()), storage.View())
      ensures var s, s' := Contents(old(storage.View())), Contents(storage.View());
              if s == [] then value == None && s' == s else value == Some(s[0]) && s' == s[1..]
    {
      var pos := ReadEnd(storage, HEAD);
      FirstItem(this, storage.View());
      value := storage.Get(ItemKey(pos));
      if value.Some? {
        PoppedFront(this, storage.View());
        // an empty deque stays where it is
        Take(storage, pos, HEAD, WrappingAdd(pos, 1));
      }
    }

    method Front(storage: Storage) returns (value: Option<bytes>)
      requires storage.Valid() && Valid(storage.View())
      ensures value == if Contents(storage.View()) == [] then None else Some(Contents(storage.View())[0])
    {
      FirstItem(this, storage.View());
      var pos := ReadEnd(storage, HEAD);
      value := storage.Get(ItemKey(pos));
    }

    method Back(storage: Storage) returns (value: Option<bytes>)
      requires storage.Valid() && Valid(storage.View())
      ensures value == LastOf(Contents(storage.View()))
    {
      LastItem(this, storage.View());
      var tail := ReadEnd(storage, TAIL);
      value := storage.Get(ItemKey(WrappingSub(tail, 1)));
    }

    method Length(storage: Storage) returns (n: u32)
      requires storage.Valid() && Valid(storage.View())
      ensures n == |Contents(storage.View())|
    {
      var head := ReadEnd(storage, HEAD);
      var tail := ReadEnd(storage, TAIL);
      n := CalcLen(head, tail);
    }

    method Get(storage: Storage, pos: u32) returns (value: Option<bytes>)
      requires storage.Valid() && Valid(storage.View())
      ensures var s := Contents(storage.View()); value == if pos < |s| then Some(s[pos]) else None
    {
      var head := ReadEnd(storage, HEAD);
      var tail := ReadEnd(storage, TAIL);
      if pos >= CalcLen(head, tail) {
        return None;
      }
      var at := WrappingAdd(head, pos);
      ItemAt(this, storage.View(), pos);
      value := storage.Get(ItemKey(at));
    }

    method Iter(storage: Storage) returns (it: DequeIter)
      requires storage.Valid() && Valid(storage.View())
      ensures fresh(it) && it.deque == this && it.storage == storage && it.Valid()
      ensures it.Rest() == Contents(storage.View())
    {
      var head := ReadEnd(storage, HEAD);
      var tail := ReadEnd(storage, TAIL);
      Window(this, storage.View());
      it := new DequeIter(this, storage, head, tail);
    }
  }

  /** Nothing changed but keys of the deque. */
  ghost predicate SameElsewhere(d: Deque, view: Kv, view': Kv) {
    forall k | !(d.Prefix() <= k) :: (k in view <==> k in view') && (k in view ==> view'[k] == view[k])
  }

  // ---------------------------------------------------------------------------
  // The keys
  // ---------------------------------------------------------------------------

  /** Names of different things give different keys, all under the deque's prefix. */
  lemma KeysDistinct(d: Deque, a: bytes, b: bytes)
    ensures d.Prefix() <= d.KeyOf(a) && (d.KeyOf(a) == d.KeyOf(b) ==> a == b)
  {
    NamespacesThenKey([d.namespace], a);
    NamespacesThenKey([d.namespace], b);
    if d.KeyOf(a) == d.KeyOf(b) { KeysInjective([d.namespace], a, [d.namespace], b); }
  }

  /** The storage keys of the two ends and of every position are pairwise different. */
  lemma StorageKeysDistinct(d: Deque, p: u32, q: u32)
    requires p != q
    ensures var (h, t, x, y) := (d.KeyOf(HEAD), d.KeyOf(TAIL), d.ItemKey(p), d.ItemKey(q));
            h != t && x != h && x != t && x != y
  {
    PosRoundTrip(p);
    PosRoundTrip(q);
    KeysDistinct(d, HEAD, TAIL);
    KeysDistinct(d, PosBytes(p), HEAD);
    KeysDistinct(d, PosBytes(p), TAIL);
    KeysDistinct(d, PosBytes(p), PosBytes(q));
  }

  lemma ItemKeys(d: Deque, p: u32)
    ensures d.Prefix() <= d.ItemKey(p) && d.ItemKey(p) != d.KeyOf(HEAD) && d.ItemKey(p) != d.KeyOf(TAIL)
    ensures forall q: u32 | q != p :: d.ItemKey(q) != d.ItemKey(p)
  {
    KeysDistinct(d, PosBytes(p), HEAD);
    KeysDistinct(d, PosBytes(p), TAIL);
    forall q: u32 | q != p ensures d.ItemKey(q) != d.ItemKey(p) { StorageKeysDistinct(d, p, q); }
  }

  lemma ItemWritten(d: Deque, view: Kv, p: u32, value: bytes)
    requires d.Formed(view)
    ensures var view' := view[d.ItemKey(p) := value];
            && d.Formed(view') && SameElsewhere(d, view, view') && d.Items(view') == d.Items(view)[p := value]
            && d.End(view', HEAD) == d.End(view, HEAD) && d.End(view', TAIL) == d.End(view, TAIL)
  {
    var view' := view[d.ItemKey(p) := value];
    ItemKeys(d, p);
    forall q: u32 ensures q != p ==> (d.ItemKey(q) in view' <==> d.ItemKey(q) in view) {
    }
    assert d.Items(view') == d.Items(view)[p := value];
  }

  lemma ItemRemoved(d: Deque, view: Kv, p: u32)
    requires d.Formed(view)
    ensures var view' := view - {d.ItemKey(p)};
            && d.Formed(view') && SameElsewhere(d, view, view') && d.Items(view') == d.Items(view) - {p}
            && d.End(view', HEAD) == d.End(view, HEAD) && d.End(view', TAIL) == d.End(view, TAIL)
  {
    var view' := view - {d.ItemKey(p)};
    ItemKeys(d, p);
    forall q: u32 ensures q != p ==> (d.ItemKey(q) in view' <==> d.ItemKey(q) in view) {
    }
    assert d.Items(view') == d.Items(view) - {p};
  }

  lemma EndWritten(d: Deque, view: Kv, name: bytes, p: u32)
    requires d.Formed(view) && (name == HEAD || name == TAIL)
    ensures var view' := view[d.KeyOf(name) := PosBytes(p)];
            && d.Formed(view') && SameElsewhere(d, view, view') && d.Items(view') == d.Items(view)
            && d.End(view', name) == p
            && forall other | other != name
                  && (other == HEAD || other == TAIL) :: d.End(view', other) == d.End(view, other)
  {
    PosRoundTrip(p);
    KeysDistinct(d, HEAD, TAIL);
    KeysDistinct(d, name, name);
    forall q: u32 ensures d.ItemKey(q) != d.KeyOf(name) { ItemKeys(d, q); }
  }

  // ---------------------------------------------------------------------------
  // The window
  // ---------------------------------------------------------------------------

  /** What a push writes: an item, then an end. */
  lemma PushWritten(d: Deque, view: Kv, p: u32, value: bytes, name: bytes, other: bytes, q: u32)
    requires d.Formed(view) && ((name == HEAD && other == TAIL) || (name == TAIL && other == HEAD))
    ensures var view' := view[d.ItemKey(p) := value][d.KeyOf(name) := PosBytes(q)];
            && SameElsewhere(d, view, view') && d.Formed(view') && d.Items(view') == d.Items(view)[p := value]
            && d.End(view', name) == q && d.End(view', other) == d.End(view, other)
  {
    ItemWritten(d, view, p, value);
    EndWritten(d, view[d.ItemKey(p) := value], name, q);
  }

  /** What a pop writes. */
  lemma PopWritten(d: Deque, view: Kv, p: u32, name: bytes, other: bytes, q: u32)
    requires d.Formed(view) && ((name == HEAD && other == TAIL) || (name == TAIL && other == HEAD))
    ensures var view' := (view - {d.ItemKey(p)})[d.KeyOf(name) := PosBytes(q)];
            && SameElsewhere(d, view, view') && d.Formed(view') && d.Items(view') == d.Items(view) - {p}
            && d.End(view', name) == q && d.End(view', other) == d.End(view, other)
  {
    ItemRemoved(d, view, p);
    EndWritten(d, view - {d.ItemKey(p)}, name, q);
  }

  /** The items and the two ends are all there is to a deque. */
  lemma FromItems(d: Deque, view: Kv, items: map<u32, bytes>, from: u32, len: u32)
    requires d.Formed(view) && d.Items(view) == items && d.End(view, HEAD) == from && d.Len(view) == len
    requires Stores(items, from, len)
    ensures d.Valid(view) && StoredFrom(items, from, len) && d.Contents(view) == Slice(items, from, len)
  {
    StoresFrom(items, from, len);
  }

  lemma Window(d: Deque, view: Kv)
    requires d.Valid(view)
    ensures StoredFrom(d.Items(view), d.End(view, HEAD), d.Len(view))
    ensures Slice(d.Items(view), d.End(view, HEAD), d.Len(view)) == d.Contents(view)
  {
    StoresFrom(d.Items(view), d.End(view, HEAD), d.Len(view));
  }

  lemma ItemAt(d: Deque, view: Kv, pos: u32)
    requires d.Valid(view) && pos < d.Len(view)
    ensures var key := d.ItemKey(WrappingAdd(d.End(view, HEAD), pos)); key in view && view[key] == d.Contents(view)[pos]
  {
    var items, at := d.Items(view), WrappingAdd(d.End(view, HEAD), pos);
    StoresFrom(items, d.End(view, HEAD), d.Len(view));
    assert at in items;
  }

  /** Reporting itself empty with an item still stored. */
  lemma WrapsAround(d: Deque, view: Kv, p: u32)
    requires d.Formed(view) && d.Len(view) == 0 && p in d.Items(view)
    ensures !d.Valid(view)
  {
  }

  ghost function AfterPushBack(d: Deque, view: Kv, value: bytes): Kv
    requires d.Formed(view)
  {
    var tail := d.End(view, TAIL);
    view[d.ItemKey(tail) := value][d.KeyOf(TAIL) := PosBytes(WrappingAdd(tail, 1))]
  }

  lemma PushedBack(d: Deque, view: Kv, value: bytes)
    requires d.Valid(view)
    ensures var view', s := AfterPushBack(d, view, value), d.Contents(view);
            && SameElsewhere(d, view, view') && d.Formed(view')
            && if |s| < U32_MAX then d.Valid(view') && d.Contents(view') == s + [value]
               else d.Len(view') == 0 && !d.Valid(view')
  {
    var (from, tail, len) := (d.End(view, HEAD), d.End(view, TAIL), d.Len(view));
    PushWritten(d, view, tail, value, TAIL, HEAD, WrappingAdd(tail, 1));
    if len < U32_MAX {
      WithLast(d.Items(view), from, len, value);
      FromItems(d, AfterPushBack(d, view, value), d.Items(view)[tail := value], from, len + 1);
    } else {
      WrapsAround(d, AfterPushBack(d, view, value), tail);
    }
  }

  ghost function AfterPushFront(d: Deque, view: Kv, value: bytes): Kv
    requires d.Formed(view)
  {
    var first := WrappingSub(d.End(view, HEAD), 1);
    view[d.ItemKey(first) := value][d.KeyOf(HEAD) := PosBytes(first)]
  }

  lemma PushedFront(d: Deque, view: Kv, value: bytes)
    requires d.Valid(view)
    ensures var view', s := AfterPushFront(d, view, value), d.Contents(view);
            && SameElsewhere(d, view, view') && d.Formed(view')
            && if |s| < U32_MAX then d.Valid(view') && d.Contents(view') == [value] + s
               else d.Len(view') == 0 && !d.Valid(view')
  {
    var (first, len) := (WrappingSub(d.End(view, HEAD), 1), d.Len(view));
    PushWritten(d, view, first, value, HEAD, TAIL, first);
    if len < U32_MAX {
      WithFirst(d.Items(view), d.End(view, HEAD), len, value);
      FromItems(d, AfterPushFront(d, view, value), d.Items(view)[first := value], first, len + 1);
    } else {
      WrapsAround(d, AfterPushFront(d, view, value), first);
    }
  }

  ghost function AfterPopBack(d: Deque, view: Kv): Kv
    requires d.Formed(view)
  {
    var last := WrappingSub(d.End(view, TAIL), 1);
    (view - {d.ItemKey(last)})[d.KeyOf(TAIL) := PosBytes(last)]
  }

  /** The position in front of the tail holds the last element, if there is any. */
  lemma LastItem(d: Deque, view: Kv)
    requires d.Valid(view)
    ensures var key := d.ItemKey(WrappingSub(d.End(view, TAIL), 1));
            (if key in view then Some(view[key]) else None) == LastOf(d.Contents(view))
  {
    var last := WrappingSub(d.End(view, TAIL), 1);
    if d.Len(view) > 0 {
      ItemAt(d, view, d.Len(view) - 1);
    } else {
      assert last in d.Items(view) <==> d.ItemKey(last) in view;
    }
  }

  lemma PoppedBack(d: Deque, view: Kv)
    requires d.Valid(view) && d.Contents(view) != []
    ensures var view' := AfterPopBack(d, view);
            SameElsewhere(d, view, view') && d.Valid(view') && d.Contents(view') == WithoutLastOf(d.Contents(view))
  {
    var (from, last, len) := (d.End(view, HEAD), WrappingSub(d.End(view, TAIL), 1), d.Len(view));
    WithoutLast(d.Items(view), from, len);
    PopWritten(d, view, last, TAIL, HEAD, last);
    FromItems(d, AfterPopBack(d, view), d.Items(view) - {last}, from, len - 1);
  }

  ghost function AfterPopFront(d: Deque, view: Kv): Kv
    requires d.Formed(view)
  {
    var first := d.End(view, HEAD);
    (view - {d.ItemKey(first)})[d.KeyOf(HEAD) := PosBytes(WrappingAdd(first, 1))]
  }

  lemma FirstItem(d: Deque, view: Kv)
    requires d.Valid(view)
    ensures var key, s := d.ItemKey(d.End(view, HEAD)), d.Contents(view);
            if s == [] then key !in view else key in view && view[key] == s[0]
  {
    if d.Len(view) > 0 {
      ItemAt(d, view, 0);
    } else {
      assert d.End(view, HEAD) in d.Items(view) <==> d.ItemKey(d.End(view, HEAD)) in view;
    }
  }

  lemma PoppedFront(d: Deque, view: Kv)
    requires d.Valid(view) && d.Contents(view) != []
    ensures var view' := AfterPopFront(d, view);
            SameElsewhere(d, view, view') && d.Valid(view') && d.Contents(view') == d.Contents(view)[1..]
  {
    var (first, len) := (d.End(view, HEAD), d.Len(view));
    WithoutFirst(d.Items(view), first, len);
    PopWritten(d, view, first, HEAD, TAIL, WrappingAdd(first, 1));
    FromItems(d, AfterPopFront(d, view), d.Items(view) - {first}, WrappingAdd(first, 1), len - 1);
  }

  // ---------------------------------------------------------------------------
  // Runs
  // ---------------------------------------------------------------------------

  datatype DequeOp = PushingBack(value: bytes) | PushingFront(value: bytes) | PoppingBack | PoppingFront

  /** The same operation on a plain sequence, with what it pops. */
  function OnSequence(op: DequeOp, s: seq<bytes>): (seq<bytes>, Option<bytes>) {
    match op
    case PushingBack(value) => (s + [value], None)
    case PushingFront(value) => ([value] + s, None)
    case PoppingBack => if s == [] then (s, None) else (s[..|s| - 1], Some(s[|s| - 1]))
    case PoppingFront => if s == [] then (s, None) else (s[1..], Some(s[0]))
  }

  function SequenceRun(s: seq<bytes>, ops: seq<DequeOp>): (seq<bytes>, seq<Option<bytes>>) {
    if ops == [] then (s, [])
    else
      var (before, popped) := SequenceRun(s, ops[..|ops| - 1]);
      var (after, p) := OnSequence(ops[|ops| - 1], before);
      (after, popped + [p])
  }

  /** Any run of pushes and pops at both ends, from anywhere in the position space, acts as
      on a plain sequence and touches no key but the deque's own, provided no more than
      u32::MAX elements are ever held. */
  method Perform(d: Deque, storage: Storage, ops: seq<DequeOp>) returns (popped: seq<Option<bytes>>)
    requires storage.Valid() && d.Valid(storage.View())
    requires forall n | 0 <= n <= |ops| :: |SequenceRun(d.Contents(storage.View()), ops[..n]).0| <= U32_MAX
    modifies storage.Handle()
    ensures storage.Valid() && d.Valid(storage.View()) && SameElsewhere(d, old(storage.View()), storage.View())
    ensures (d.Contents(storage.View()), popped) == SequenceRun(d.Contents(old(storage.View())), ops)
  {
    popped := [];
    ghost var s := d.Contents(storage.View());
    for i := 0 to |ops|
      invariant storage.Valid() && d.Valid(storage.View()) && SameElsewhere(d, old(storage.View()), storage.View())
      invariant (d.Contents(storage.View()), popped) == SequenceRun(s, ops[..i])
    {
      assert ops[..i + 1][..i] == ops[..i];
      assert |SequenceRun(s, ops[..i + 1]).0| <= U32_MAX;
      var p := PerformOne(d, storage, ops[i]);
      popped := popped + [p];
    }
    assert ops[..|ops|] == ops;
  }

  method PerformOne(d: Deque, storage: Storage, op: DequeOp) returns (popped: Option<bytes>)
    requires storage.Valid() && d.Valid(storage.View())
    requires |OnSequence(op, d.Contents(storage.View())).0| <= U32_MAX
    modifies storage.Handle()
    ensures storage.Valid() && d.Valid(storage.View()) && SameElsewhere(d, old(storage.View()), storage.View())
    ensures (d.Contents(storage.View()), popped) == OnSequence(op, d.Contents(old(storage.View())))
  {
    popped := None;
    match op
    case PushingBack(value) => d.PushBack(storage, value);
    case PushingFront(value) => d.PushFront(storage, value);
    case PoppingBack => popped := d.PopBack(storage);
    case PoppingFront => popped := d.PopFront(storage);
  }

  // ---------------------------------------------------------------------------
  // Iteration from both ends
  // ---------------------------------------------------------------------------

  /** What `n + 1` calls of `next` return last and leave behind. */
  ghost function NextTimes<T>(s: seq<T>, n: nat): (Option<T>, seq<T>) {
    var (first, rest) := if s == [] then (None, []) else (Some(s[0]), s[1..]);
    if n == 0 then (first, rest) else NextTimes(rest, n - 1)
  }

  /** What `nth(n)` returns and leaves behind: `n` is cut down to 32 bits. */
  ghost function Nth<T>(s: seq<T>, n: nat): (Option<T>, seq<T>) {
    var skip := n % SPAN32;
    if skip < |s| then (Some(s[skip]), s[skip + 1..]) else (None, [])
  }

  lemma {:induction false} NextTimesClosed<T>(s: seq<T>, n: nat)
    ensures NextTimes(s, n) == if n < |s| then (Some(s[n]), s[n + 1..]) else (None, [])
  {
    if n > 0 {
      NextTimesClosed(if s == [] then [] else s[1..], n - 1);
    }
  }

  /** `nth(n)` equals `n + 1` calls of `next` unless the truncated `n` still falls inside. */
  lemma NthIsNextTimes<T>(s: seq<T>, n: nat)
    requires |s| < SPAN32
    ensures Nth(s, n) == NextTimes(s, n) <==> n < SPAN32 || |s| <= n % SPAN32
  {
    NextTimesClosed(s, n);
  }

  /** With indices wider than 32 bits, as on a 64-bit machine: 2^32 is cut down to 0, and
      skipping that many of one element returns it. */
  lemma NthWrapsAround<T>(x: T)
    ensures Nth([x], SPAN32) == (Some(x), []) && NextTimes([x], SPAN32) == (None, [])
  {
    NextTimesClosed([x], SPAN32);
    assert [x][1..] == [];
  }

  class DequeIter {
    const deque: Deque
    const storage: Storage
    ghost const items: map<u32, bytes>
    var start: u32
    var end: u32

    /** The storage does not change while it is iterated over. */
    ghost predicate Unchanged()
      reads storage.Footprint()
    {
      storage.Valid() && deque.Items(storage.View()) == items
    }

    ghost predicate Valid()
      reads this, storage.Footprint()
    {
      this !in storage.Footprint() && Unchanged() && StoredFrom(items, start, CalcLen(start, end))
    }

    /** What is still to come, front to back. */
    ghost function Rest(): (s: seq<bytes>)
      requires Valid()
      reads this, storage.Footprint()
      ensures |s| == CalcLen(start, end)
    {
      Slice(items, start, CalcLen(start, end))
    }

    constructor (deque: Deque, storage: Storage, start: u32, end: u32)
      requires storage.Valid() && StoredFrom(deque.Items(storage.View()), start, CalcLen(start, end))
      ensures this.deque == deque && this.storage == storage && this.start == start && this.end == end
      ensures Valid() && items == deque.Items(storage.View())
    {
      this.deque, this.storage, this.start, this.end := deque, storage, start, end;
      items := deque.Items(storage.View());
    }

    /** What is stored at a position of the window. */
    method Fetch(p: u32) returns (item: bytes)
      requires Unchanged() && p in items
      ensures item == items[p]
    {
      var value := storage.Get(deque.ItemKey(p));
      item := value.value;
    }

    method Next() returns (item: Option<bytes>)
      requires Valid()
      modifies this
      ensures Valid() && (item, Rest()) == NextTimes(old(Rest()), 0)
    {
      if start == end {
        return None;
      }
      SliceSkip(items, start, CalcLen(start, end), 1);
      var first := Fetch(start);
      item := Some(first);
      start := WrappingAdd(start, 1);
    }

    method NextBack() returns (item: Option<bytes>)
      requires Valid()
      modifies this
      ensures Valid() && item == LastOf(old(Rest())) && Rest() == WithoutLastOf(old(Rest()))
    {
      if start == end {
        return None;
      }
      SliceKeep(items, start, CalcLen(start, end), 1);
      var last := WrappingSub(end, 1);
      var fetched := Fetch(last);
      item := Some(fetched);
      end := last;
    }

    method NthForward(n: nat) returns (item: Option<bytes>)
      requires Valid()
      modifies this
      ensures Valid() && (item, Rest()) == Nth(old(Rest()), n)
    {
      var skip: u32 := n % SPAN32;
      // too far: nothing is left
      if CalcLen(start, end) < skip {
        start := end;
      } else {
        SliceSkip(items, start, CalcLen(start, end), skip);
        start := WrappingAdd(start, skip);
      }
      item := Next();
    }

    method NthBack(n: nat) returns (item: Option<bytes>)
      requires Valid()
      modifies this
      ensures Valid() && (item, Reversed(Rest())) == Nth(Reversed(old(Rest())), n)
    {
      ghost var s := Rest();
      SkipBack(n % SPAN32);
      ghost var kept := Rest();
      item := NextBack();
      NthFromTheBack(s, kept, n);
    }

    method SkipBack(skip: u32)
      requires Valid()
      modifies `end
      ensures Valid() && Rest() == if |old(Rest())| < skip then [] else old(Rest())[..|old(Rest())| - skip]
    {
      // too far: nothing is left
      if CalcLen(start, end) < skip {
        end := start;
      } else {
        SliceKeep(items, start, CalcLen(start, end), skip);
        end := WrappingSub(end, skip);
      }
    }
  }

  /** Skipping from the back and then taking the last is skipping and taking on the reverse. */
  lemma NthFromTheBack<T>(s: seq<T>, kept: seq<T>, n: nat)
    requires kept == if |s| < n % SPAN32 then [] else s[..|s| - n % SPAN32]
    ensures (LastOf(kept), Reversed(WithoutLastOf(kept))) == Nth(Reversed(s), n)
  {
    var skip := n % SPAN32;
    assert skip < |s| ==> Reversed(WithoutLastOf(kept)) == Reversed(s)[skip + 1..];
  }

  /** Leaving out the first `skip` positions of a window. */
  lemma SliceSkip<T>(items: map<u32, T>, from: u32, len: u32, skip: u32)
    requires StoredFrom(items, from, len) && skip <= len
    ensures var next := WrappingAdd(from, skip);
            && StoredFrom(items, next, len - skip) && Slice(items, next, len - skip) == Slice(items, from, len)[skip..]
            && (len > 0 ==> from in items && items[from] == Slice(items, from, len)[0])
    ensures forall end: u32 | CalcLen(from, end) == len :: CalcLen(WrappingAdd(from, skip), end) == len - skip
  {
    var next := WrappingAdd(from, skip);
    assert WrappingAdd(from, 0) == from;
    forall i: u32 | i < len - skip ensures WrappingAdd(next, i) == WrappingAdd(from, i + skip)
        && WrappingAdd(next, i) in items {
    }
  }

  /** Leaving out the last `skip` positions of a window. */
  lemma SliceKeep<T>(items: map<u32, T>, from: u32, len: u32, skip: u32)
    requires StoredFrom(items, from, len) && skip <= len
    ensures StoredFrom(items, from, len - skip)
    ensures Slice(items, from, len - skip) == Slice(items, from, len)[..len - skip]
    ensures forall end: u32 | CalcLen(from, end) == len ::
              && CalcLen(from, WrappingSub(end, skip)) == len - skip
              && (len > 0 ==>
                    WrappingSub(end, 1) in items
                    && items[WrappingSub(end, 1)] == Slice(items, from, len)[len - 1])
  {
    forall end: u32 | CalcLen(from, end) == len && len > 0
      ensures WrappingSub(end, 1) == WrappingAdd(from, len - 1) && WrappingAdd(from, len - 1) in items
    {
    }
  }
}
