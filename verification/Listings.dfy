// What a range query over an ordered key-value map lists: the entries whose
// keys lie in [start, end), sorted ascending or descending.
module Listings {
  import opened Bytes

  type Entry<V> = (bytes, V)

  /** `start` is inclusive and `end` exclusive; a missing bound does not limit. */
  predicate InRange(start: Option<bytes>, end: Option<bytes>, k: bytes) {
    && (start.Some? ==> !Less(k, start.value))
    && (end.Some? ==> Less(k, end.value))
  }

  predicate Least(keys: set<bytes>, k: bytes) {
    k in keys && forall other | other in keys :: !Less(other, k)
  }

  lemma {:induction false} LeastExists(keys: set<bytes>)
    requires keys != {}
    ensures exists k :: Least(keys, k)
  {
    var k :| k in keys;
    var rest := keys - {k};
    LessIrreflexive(k);
    if rest == {} {
      assert keys == {k};
      assert Least(keys, k);
    } else {
      LeastExists(rest);
      var l :| Least(rest, l);
      if Less(k, l) {
        forall other | other in keys ensures !Less(other, k) {
          if other != k && Less(other, k) { LessTransitive(other, k, l); }
        }
        assert Least(keys, k);
      } else {
        assert Least(keys, l);
      }
    }
  }

  lemma LeastUnique()
    ensures forall keys, a, b | Least(keys, a) && Least(keys, b) :: a == b
  {
    forall keys, a, b | Least(keys, a) && Least(keys, b) ensures a == b {
      LessTotal(a, b);
    }
  }

  function SortedKeys(keys: set<bytes>): (ks: seq<bytes>)
    ensures forall k :: k in ks <==> k in keys
    ensures forall i, j | 0 <= i < j < |ks| :: Less(ks[i], ks[j])
  {
    if keys == {} then []
    else
      LeastExists(keys);
      LeastUnique();
      var k :| Least(keys, k);
      var rest := SortedKeys(keys - {k});
      assert forall other | other in keys - {k} :: Less(k, other) by {
        forall other | other in keys - {k} ensures Less(k, other) { LessTotal(k, other); }
      }
      assert forall i | 0 <= i < |rest| :: rest[i] in rest;
      [k] + rest
  }

  function KeysIn<V>(m: map<bytes, V>, start: Option<bytes>, end: Option<bytes>): set<bytes> {
    set k | k in m && InRange(start, end, k)
  }

  function Entries<V>(m: map<bytes, V>, ks: seq<bytes>): (s: seq<Entry<V>>)
    requires forall i | 0 <= i < |ks| :: ks[i] in m
    ensures |s| == |ks| && forall i | 0 <= i < |s| :: s[i] == (ks[i], m[ks[i]])
  {
    seq(|ks|, i requires 0 <= i < |ks| => (ks[i], m[ks[i]]))
  }

  function Reversed<T>(s: seq<T>): (r: seq<T>)
    ensures |r| == |s| && forall i | 0 <= i < |s| :: r[i] == s[|s| - 1 - i]
  {
    seq(|s|, i requires 0 <= i < |s| => s[|s| - 1 - i])
  }

  lemma SortedKeysAreKeys(keys: set<bytes>)
    ensures forall i | 0 <= i < |SortedKeys(keys)| :: SortedKeys(keys)[i] in keys
  {
    var ks := SortedKeys(keys);
    forall i | 0 <= i < |ks| ensures ks[i] in keys { assert ks[i] in ks; }
  }

  function Listing<V>(m: map<bytes, V>, start: Option<bytes>, end: Option<bytes>, order: Order): seq<Entry<V>> {
    SortedKeysAreKeys(KeysIn(m, start, end));
    var ascending := Entries(m, SortedKeys(KeysIn(m, start, end)));
    if order.Ascending? then ascending else Reversed(ascending)
  }

  predicate Ordered<V>(order: Order, s: seq<Entry<V>>) {
    forall i, j | 0 <= i < j < |s| :: Before(order, s[i].0, s[j].0)
  }

  ghost predicate HasKey<V>(s: seq<Entry<V>>, k: bytes) {
    exists i :: 0 <= i < |s| && s[i].0 == k
  }

  /** The declarative meaning of a listing: order, soundness and completeness. */
  ghost predicate Lists<V>(s: seq<Entry<V>>, m: map<bytes, V>, start: Option<bytes>, end: Option<bytes>, order: Order) {
    && Ordered(order, s)
    && (forall i | 0 <= i < |s| :: InRange(start, end, s[i].0) && s[i].0 in m && m[s[i].0] == s[i].1)
    && (forall k | k in m && InRange(start, end, k) :: HasKey(s, k))
  }

  lemma AscendingLists<V>(m: map<bytes, V>, start: Option<bytes>, end: Option<bytes>)
    ensures Lists(Listing(m, start, end, Ascending), m, start, end, Ascending)
  {
    var keys := KeysIn(m, start, end);
    var ks := SortedKeys(keys);
    var s := Listing(m, start, end, Ascending);
    SortedKeysAreKeys(keys);
    forall k | k in m && InRange(start, end, k) ensures HasKey(s, k) {
      assert k in keys;
      var i :| 0 <= i < |ks| && ks[i] == k;
      assert s[i].0 == k;
    }
  }

  lemma ReversedLists<V>(s: seq<Entry<V>>, m: map<bytes, V>, start: Option<bytes>, end: Option<bytes>)
    requires Lists(s, m, start, end, Ascending)
    ensures Lists(Reversed(s), m, start, end, Descending)
  {
    var r := Reversed(s);
    forall k | k in m && InRange(start, end, k) ensures HasKey(r, k) {
      assert HasKey(s, k);
      var i :| 0 <= i < |s| && s[i].0 == k;
      assert r[|s| - 1 - i].0 == k;
    }
  }

  lemma ListingLists<V>(m: map<bytes, V>, start: Option<bytes>, end: Option<bytes>, order: Order)
    ensures Lists(Listing(m, start, end, order), m, start, end, order)
  {
    AscendingLists(m, start, end);
    if order.Descending? {
      ReversedLists(Listing(m, start, end, Ascending), m, start, end);
    }
  }

  lemma ListsTail<V>(s: seq<Entry<V>>, m: map<bytes, V>, start: Option<bytes>, end: Option<bytes>, order: Order)
    requires s != [] && Lists(s, m, start, end, order)
    ensures Lists(s[1..], m - {s[0].0}, start, end, order)
  {
    var t := s[1..];
    forall i | 0 <= i < |t| ensures t[i].0 != s[0].0 {
      BeforeAsymmetric(order, s[0].0, s[i + 1].0);
    }
    forall k | k in m - {s[0].0} && InRange(start, end, k) ensures HasKey(t, k) {
      assert HasKey(s, k);
      var i :| 0 <= i < |s| && s[i].0 == k;
      assert t[i - 1].0 == k;
    }
  }

  /** A map, a range and an order determine the listing. */
  lemma {:induction false} ListsUnique<V>(s: seq<Entry<V>>, t: seq<Entry<V>>, m: map<bytes, V>,
                                          start: Option<bytes>, end: Option<bytes>, order: Order)
    requires Lists(s, m, start, end, order) && Lists(t, m, start, end, order)
    ensures s == t
    decreases |s|
  {
    if s == [] {
      assert t == [] || HasKey(s, t[0].0);
    } else {
      assert HasKey(t, s[0].0);
      assert HasKey(s, t[0].0);
      var i :| 0 <= i < |t| && t[i].0 == s[0].0;
      var j :| 0 <= j < |s| && s[j].0 == t[0].0;
      if i > 0 && j > 0 {
        BeforeAsymmetric(order, s[0].0, s[j].0);
      }
      assert s[0] == t[0];
      ListsTail(s, m, start, end, order);
      ListsTail(t, m, start, end, order);
      ListsUnique(s[1..], t[1..], m - {s[0].0}, start, end, order);
      assert s == [s[0]] + s[1..] && t == [t[0]] + t[1..];
    }
  }

  lemma IsTheListing<V>(s: seq<Entry<V>>, m: map<bytes, V>, start: Option<bytes>, end: Option<bytes>, order: Order)
    requires Lists(s, m, start, end, order)
    ensures s == Listing(m, start, end, order)
  {
    ListingLists(m, start, end, order);
    ListsUnique(s, Listing(m, start, end, order), m, start, end, order);
  }
}
