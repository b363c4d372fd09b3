// Range bounds over a namespace: which stored keys a prefix range lists.
module Prefixes {
  import opened Bytes
  import opened Listings

  /** The successor bound: trailing 0xFF bytes become zero, the byte before them grows by one. */
  function Increment(input: bytes): (r: bytes)
    ensures |r| == |input|
  {
    if input == [] then []
    else
      var n := |input| - 1;
      if input[n] == 255 then Increment(input[..n]) + [0] else input[..n] + [input[n] + 1]
  }

  predicate AllFF(s: bytes) {
    forall i | 0 <= i < |s| :: s[i] == 255
  }

  /** `increment_last_byte`, walking the vector backwards in place. */
  method IncrementLastByte(copy: array<byte>)
    modifies copy
    ensures copy[..] == Increment(old(copy[..]))
  {
    var i := copy.Length;
    ghost var input := copy[..];
    assert input[..i] == input && Increment(input) + copy[i..] == Increment(input);
    while i > 0
      invariant 0 <= i <= copy.Length
      invariant copy[..i] == input[..i]
      invariant Increment(input) == Increment(input[..i]) + copy[i..]
      decreases i
    {
      i := i - 1;
      assert input[..i + 1][..i] == input[..i];
      if copy[i] == 255 {
        copy[i] := 0;
        assert copy[i..] == [0] + copy[i + 1..];
      } else {
        ghost var rest := copy[i + 1..];
        copy[i] := copy[i] + 1;
        assert copy[..] == copy[..i] + [copy[i]] + copy[i + 1..];
        return;
      }
    }
  }

  /** `p` is a prefix of `k`. */
  predicate HasPrefix(k: bytes, p: bytes) {
    p <= k
  }

  lemma PrefixNotLess(p: bytes, k: bytes)
    requires p <= k
    ensures !Less(k, p)
  {
    assert k == p + k[|p|..] && p == p + [];
    LessCommonPrefix(p, k[|p|..], []);
  }

  /** Keys of the prefix's own length: nothing lies between a prefix and its increment. */
  lemma {:induction false} IncrementIsNext(p: bytes, q: bytes)
    requires !AllFF(p) && |q| == |p|
    ensures Less(q, Increment(p)) <==> !Less(p, q)
    decreases |p|, 0
  {
    var n := |p| - 1;
    var (a, b) := (p[..n], q[..n]);
    assert p == a + [p[n]] && q == b + [q[n]];
    LessIrreflexive(a);
    if p[n] == 255 {
      assert !AllFF(a);
      IncrementIsNext(a, b);
      if a == b {
        LessCommonPrefix(a, [p[n]], [q[n]]);
        IncrementGrows(a);
        LessEqualLength(b, Increment(a), [q[n]], [0]);
      } else {
        LessEqualLength(a, b, [p[n]], [q[n]]);
        if b == Increment(a) {
          LessCommonPrefix(b, [q[n]], [0]);
          LessIrreflexive(b);
        } else {
          LessEqualLength(b, Increment(a), [q[n]], [0]);
        }
      }
    } else if a == b {
      LessCommonPrefix(a, [p[n]], [q[n]]);
      LessCommonPrefix(a, [q[n]], [p[n] + 1]);
    } else {
      LessEqualLength(a, b, [p[n]], [q[n]]);
      LessEqualLength(b, a, [q[n]], [p[n] + 1]);
      LessTotal(a, b);
      if Less(a, b) { LessAsymmetric(a, b); } else { LessAsymmetric(b, a); }
    }
  }

  lemma IncrementGrows(p: bytes)
    requires !AllFF(p)
    ensures Less(p, Increment(p)) && p != Increment(p)
    decreases |p|, 1
  {
    LessIrreflexive(p);
    IncrementIsNext(p, p);
    LessIrreflexive(Increment(p));
  }

  /** For a prefix that is not all 0xFF, every key at least as long as it lies between it
      and its increment if and only if it starts with it. */
  lemma PrefixInterval(p: bytes, k: bytes)
    requires !AllFF(p) && |k| >= |p|
    ensures (!Less(k, p) && Less(k, Increment(p))) <==> HasPrefix(k, p)
  {
    var (q, rest) := (k[..|p|], k[|p|..]);
    assert k == q + rest && p == p + [] && Increment(p) == Increment(p) + [];
    IncrementIsNext(p, q);
    IncrementGrows(p);
    if q == p {
      PrefixNotLess(p, k);
      LessEqualLength(q, Increment(p), rest, []);
    } else {
      LessEqualLength(q, p, rest, []);
      LessTotal(p, q);
      if q == Increment(p) {
        LessCommonPrefix(q, rest, []);
      } else {
        LessEqualLength(q, Increment(p), rest, []);
      }
    }
  }

  function Zeros(n: nat): (r: bytes)
    ensures |r| == n
  {
    seq(n, _ => 0)
  }

  /** The increment of a concatenation happens in its second part, unless that is all 0xFF. */
  lemma {:induction false} IncrementConcat(x: bytes, y: bytes)
    ensures !AllFF(y) ==> Increment(x + y) == x + Increment(y)
    ensures AllFF(y) ==> Increment(x + y) == Increment(x) + Zeros(|y|)
    decreases |y|
  {
    if y == [] {
      assert x + y == x && Increment(x) + Zeros(0) == Increment(x);
    } else {
      var n := |y| - 1;
      assert (x + y)[..|x + y| - 1] == x + y[..n] && (x + y)[|x + y| - 1] == y[n];
      IncrementConcat(x, y[..n]);
      if y[n] == 255 {
        assert AllFF(y) <==> AllFF(y[..n]);
        assert Increment(x) + Zeros(n) + [0] == Increment(x) + Zeros(n + 1);
        assert x + Increment(y[..n]) + [0] == x + Increment(y);
      } else {
        assert x + y[..n] + [y[n] + 1] == x + Increment(y);
      }
    }
  }

  /** The shorter keys that slip in between a prefix and its increment: the carry of the
      increment, with nothing after it. */
  predicate Stray(p: bytes, k: bytes) {
    |k| < |p| && AllFF(p[|k|..]) && !AllFF(p[..|k|]) && k == Increment(p[..|k|])
  }

  lemma ShorterKey(p: bytes, k: bytes)
    requires !AllFF(p) && |k| < |p|
    ensures (!Less(k, p) && Less(k, Increment(p))) <==> Stray(p, k)
  {
    var (x, y) := (p[..|k|], p[|k|..]);
    assert p == x + y && k == k + [];
    IncrementConcat(x, y);
    if AllFF(y) {
      assert AllFF(x) ==> AllFF(x + y);
      ShorterThanCarry(x, y, k);
    } else if k == x {
      LessCommonPrefix(x, [], y);
    } else {
      LessEqualLength(k, x, [], y);
      LessEqualLength(k, x, [], Increment(y));
    }
  }

  lemma ShorterThanCarry(x: bytes, y: bytes, k: bytes)
    requires |k| == |x| && y != [] && !AllFF(x)
    ensures (!Less(k, x + y) && Less(k, Increment(x) + Zeros(|y|))) <==> k == Increment(x)
  {
    var zeros := Zeros(|y|);
    assert k == k + [];
    IncrementIsNext(x, k);
    IncrementGrows(x);
    if k == Increment(x) {
      LessCommonPrefix(k, [], zeros);
      LessEqualLength(x, k, y, []);
      LessAsymmetric(x + y, k);
    } else if k == x {
      LessCommonPrefix(x, [], y);
    } else {
      LessEqualLength(k, Increment(x), [], zeros);
      LessEqualLength(k, x, [], y);
      LessTotal(k, x);
    }
  }

  /** Which keys, of any length, lie between a prefix and its increment: those that start
      with it, and strays. */
  lemma IntervalExact(p: bytes, k: bytes)
    requires !AllFF(p)
    ensures (!Less(k, p) && Less(k, Increment(p))) <==> HasPrefix(k, p) || Stray(p, k)
  {
    if |k| >= |p| { PrefixInterval(p, k); } else { ShorterKey(p, k); }
  }

  lemma AllFFInterval(p: bytes, k: bytes)
    requires AllFF(p) && !Less(k, p)
    ensures !Less(k, Increment(p))
  {
    if p != [] && Less(k, Increment(p)) {
      AllFFWraps(p);
      LessTransitive(k, Increment(p), p);
    }
  }

  ghost predicate Exact(p: bytes) {
    forall k :: (!Less(k, p) && Less(k, Increment(p))) <==> HasPrefix(k, p)
  }

  /** The interval is the prefix, for keys of every length, exactly when the prefix is
      nonempty and does not end in 0xFF. */
  lemma ExactUnlessEndingInFF(p: bytes)
    ensures Exact(p) <==> p != [] && p[|p| - 1] != 255
  {
    var n := |p| - 1;
    if p != [] && p[n] != 255 {
      forall k ensures (!Less(k, p) && Less(k, Increment(p))) <==> HasPrefix(k, p) {
        IntervalExact(p, k);
        assert |k| < |p| ==> p[|k|..][n - |k|] == p[n];
      }
    } else if AllFF(p) {
      PrefixNotLess(p, p);
      AllFFInterval(p, p);
      assert HasPrefix(p, p);
    } else {
      var k := Increment(p[..n]);
      assert p == p[..n] + [255];
      assert p[n..] == [255] && !AllFF(p[..n]);
      IntervalExact(p, k);
      assert Stray(p, k) && !HasPrefix(k, p);
    }
  }

  /** All bytes 0xFF wrap around to zeros, below the prefix itself. */
  lemma {:induction false} AllFFWraps(p: bytes)
    requires p != [] && AllFF(p)
    ensures Less(Increment(p), p)
  {
    var n := |p| - 1;
    assert p == p[..n] + [255];
    if n == 0 {
      assert Increment(p[..0]) == [] && Increment(p) == [0];
    } else {
      AllFFWraps(p[..n]);
      LessAsymmetric(Increment(p[..n]), p[..n]);
      LessEqualLength(Increment(p[..n]), p[..n], [0], [255]);
    }
  }

  // ---------------------------------------------------------------------------
  // Ranges with bounds
  // ---------------------------------------------------------------------------

  datatype RawBound = Inclusive(limit: bytes) | Exclusive(limit: bytes)

  function ExtendOneByte(limit: bytes): bytes {
    limit + [0]
  }

  function StartBound(namespace: bytes, bound: Option<RawBound>): bytes {
    match bound
    case None => namespace
    case Some(Inclusive(limit)) => namespace + limit
    case Some(Exclusive(limit)) => namespace + ExtendOneByte(limit)
  }

  function EndBound(namespace: bytes, bound: Option<RawBound>): bytes {
    match bound
    case None => Increment(namespace)
    case Some(Exclusive(limit)) => namespace + limit
    case Some(Inclusive(limit)) => namespace + ExtendOneByte(limit)
  }

  /** What the bounds mean for a key without its namespace. */
  predicate Satisfies(min: Option<RawBound>, max: Option<RawBound>, s: bytes) {
    && (match min
        case None => true
        case Some(Inclusive(limit)) => !Less(s, limit)
        case Some(Exclusive(limit)) => Less(limit, s))
    && (match max
        case None => true
        case Some(Inclusive(limit)) => !Less(limit, s)
        case Some(Exclusive(limit)) => Less(s, limit))
  }

  lemma AboveStart(namespace: bytes, min: Option<RawBound>, s: bytes)
    ensures !Less(namespace + s, StartBound(namespace, min)) <==> Satisfies(min, None, s)
  {
    match min
    case None => PrefixNotLess(namespace, namespace + s);
    case Some(Inclusive(limit)) => LessCommonPrefix(namespace, s, limit);
    case Some(Exclusive(limit)) =>
      LessCommonPrefix(namespace, s, ExtendOneByte(limit));
      ZeroByteSuccessor(limit, s);
  }

  lemma BelowEnd(namespace: bytes, max: Option<RawBound>, s: bytes)
    requires max.Some? || Less(namespace + s, Increment(namespace))
    ensures Less(namespace + s, EndBound(namespace, max)) <==> Satisfies(None, max, s)
  {
    match max
    case None =>
    case Some(Exclusive(limit)) => LessCommonPrefix(namespace, s, limit);
    case Some(Inclusive(limit)) =>
      LessCommonPrefix(namespace, s, ExtendOneByte(limit));
      ZeroByteSuccessor(limit, s);
  }

  /** Between two keys with a common prefix there are only keys with that prefix. */
  lemma {:induction false} BetweenPrefixed(p: bytes, a: bytes, k: bytes, b: bytes)
    requires !Less(k, p + a) && Less(k, p + b)
    ensures HasPrefix(k, p)
    decreases |p|
  {
    if p != [] {
      assert (p + a)[1..] == p[1..] + a && (p + b)[1..] == p[1..] + b;
      BetweenPrefixed(p[1..], a, k[1..], b);
    }
  }

  /** A lower bound at or above the namespace itself. */
  lemma StartAtLeastNamespace(namespace: bytes, min: Option<RawBound>, k: bytes)
    requires !Less(k, StartBound(namespace, min))
    ensures !Less(k, namespace)
  {
    PrefixNotLess(namespace, StartBound(namespace, min));
    NotLessTransitive(namespace, StartBound(namespace, min), k);
  }

  /** The stored keys that a range without an upper limit gets wrong: a stray is listed
      although it is not the namespace's, and above a namespace of 0xFF bytes nothing is listed. */
  predicate Misplaced(namespace: bytes, min: Option<RawBound>, max: Option<RawBound>, k: bytes) {
    && max == None
    && if AllFF(namespace) then HasPrefix(k, namespace)
          && Satisfies(min, None, k[|namespace|..]) else Stray(namespace, k)
  }

  /** A key lies within the computed bounds if and only if it is the namespace followed by a
      suffix that satisfies the requested bounds; this holds of every key but the misplaced. */
  lemma BoundsExact(namespace: bytes, min: Option<RawBound>, max: Option<RawBound>, k: bytes)
    ensures (InRange(Some(StartBound(namespace, min)), Some(EndBound(namespace, max)), k)
             <==> HasPrefix(k, namespace) && Satisfies(min, max, k[|namespace|..]))
            <==> !Misplaced(namespace, min, max, k)
  {
    if max.Some? {
      LimitedBoundsExact(namespace, min, max, k);
    } else if AllFF(namespace) {
      NothingInRange(namespace, min);
    } else {
      OpenBoundsExact(namespace, min, k);
    }
  }

  lemma LimitedBoundsExact(namespace: bytes, min: Option<RawBound>, max: Option<RawBound>, k: bytes)
    requires max.Some?
    ensures InRange(Some(StartBound(namespace, min)), Some(EndBound(namespace, max)), k)
            <==> HasPrefix(k, namespace) && Satisfies(min, max, k[|namespace|..])
  {
    if HasPrefix(k, namespace) {
      var s := k[|namespace|..];
      assert k == namespace + s;
      AboveStart(namespace, min, s);
      BelowEnd(namespace, max, s);
    } else if InRange(Some(StartBound(namespace, min)), Some(EndBound(namespace, max)), k) {
      StartAtLeastNamespace(namespace, min, k);
      assert namespace == namespace + [];
      BetweenPrefixed(namespace, [], k, if max.value.Inclusive? then ExtendOneByte(max.value.limit)
          else max.value.limit);
    }
  }

  lemma OpenBoundsExact(namespace: bytes, min: Option<RawBound>, k: bytes)
    requires !AllFF(namespace)
    ensures InRange(Some(StartBound(namespace, min)), Some(Increment(namespace)), k)
            <==> (HasPrefix(k, namespace) && Satisfies(min, None, k[|namespace|..])) || Stray(namespace, k)
  {
    IntervalExact(namespace, k);
    if HasPrefix(k, namespace) {
      assert k == namespace + k[|namespace|..];
      AboveStart(namespace, min, k[|namespace|..]);
    } else if Stray(namespace, k) {
      StrayAboveStart(namespace, min, k);
    } else if !Less(k, StartBound(namespace, min)) {
      StartAtLeastNamespace(namespace, min, k);
    }
  }

  /** Strays lie above everything that starts with the prefix, so no lower limit keeps them out. */
  lemma StrayAboveStart(namespace: bytes, min: Option<RawBound>, k: bytes)
    requires Stray(namespace, k)
    ensures !Less(k, StartBound(namespace, min))
  {
    var start := StartBound(namespace, min);
    var x := namespace[..|k|];
    IncrementGrows(x);
    assert start == x + start[|k|..] && k == k + [];
    LessEqualLength(x, k, start[|k|..], []);
    LessAsymmetric(start, k);
  }

  // ---------------------------------------------------------------------------
  // The listing
  // ---------------------------------------------------------------------------

  /** `trim`: the key without its namespace. */
  function Trimmed(namespace: bytes, records: seq<Entry<bytes>>): (r: seq<Entry<bytes>>)
    requires forall i | 0 <= i < |records| :: |records[i].0| >= |namespace|
    ensures |r| == |records| && forall i | 0 <= i < |r| :: r[i] == (records[i].0[|namespace|..], records[i].1)
  {
    seq(|records|, i requires 0 <= i < |records| => (records[i].0[|namespace|..], records[i].1))
  }

  /** The sub-store of a namespace, under the keys without it. */
  function SubStore(m: map<bytes, bytes>, namespace: bytes): map<bytes, bytes> {
    map s | s in Suffixes(m, namespace) && namespace + s in m :: m[namespace + s]
  }

  function Suffixes(m: map<bytes, bytes>, namespace: bytes): set<bytes> {
    set k | k in m && HasPrefix(k, namespace) :: k[|namespace|..]
  }

  lemma SubStoreEntries(m: map<bytes, bytes>, namespace: bytes)
    ensures forall s :: s in SubStore(m, namespace) <==> namespace + s in m
    ensures forall s | s in SubStore(m, namespace) :: SubStore(m, namespace)[s] == m[namespace + s]
  {
    forall s | namespace + s in m ensures s in Suffixes(m, namespace) {
      assert HasPrefix(namespace + s, namespace) && (namespace + s)[|namespace|..] == s;
    }
  }

  /** An ordered, sound and complete listing of the wanted entries. */
  ghost predicate ListsWhere(r: seq<Entry<bytes>>, sub: map<bytes, bytes>, wanted: bytes -> bool, order: Order) {
    && Ordered(order, r)
    && (forall i | 0 <= i < |r| :: r[i].0 in sub && sub[r[i].0] == r[i].1 && wanted(r[i].0))
    && (forall s | s in sub && wanted(s) :: HasKey(r, s))
  }

  /** What a range over a namespace owes its caller: no key too short to be trimmed, and
      exactly the namespace's own wanted entries, in order, without the namespace. */
  ghost predicate ListsNamespace(m: map<bytes, bytes>, namespace: bytes, start: bytes, end: bytes,
                                 wanted: bytes -> bool, order: Order) {
    var records := Listing(m, Some(start), Some(end), order);
    && (forall i | 0 <= i < |records| :: |records[i].0| >= |namespace|)
    && ListsWhere(Trimmed(namespace, records), SubStore(m, namespace), wanted, order)
  }

  /** Whether each stored key is within the bounds exactly when it should be. */
  ghost predicate KeysPlaced(m: map<bytes, bytes>, namespace: bytes, start: bytes, end: bytes, wanted: bytes -> bool) {
    forall k | k in m :: InRange(Some(start), Some(end), k) <==> HasPrefix(k, namespace) && wanted(k[|namespace|..])
  }

  lemma PlacedLists(m: map<bytes, bytes>, namespace: bytes, start: bytes, end: bytes, wanted: bytes -> bool,
                    order: Order)
    requires KeysPlaced(m, namespace, start, end, wanted)
    ensures ListsNamespace(m, namespace, start, end, wanted, order)
  {
    var records := Listing(m, Some(start), Some(end), order);
    ListingLists(m, Some(start), Some(end), order);
    forall i | 0 <= i < |records| ensures records[i].0 == namespace + records[i].0[|namespace|..]
        && |records[i].0| >= |namespace| {
      assert HasPrefix(records[i].0, namespace);
    }
    SubStoreEntries(m, namespace);
    TrimmedOrdered(namespace, records, order);
    forall s | s in SubStore(m, namespace) && wanted(s) ensures HasKey(Trimmed(namespace, records), s) {
      PlacedHasKey(m, namespace, start, end, wanted, records, s);
    }
  }

  lemma PlacedHasKey(m: map<bytes, bytes>, namespace: bytes, start: bytes, end: bytes, wanted: bytes -> bool,
                     records: seq<Entry<bytes>>, s: bytes)
    requires KeysPlaced(m, namespace, start, end, wanted) && namespace + s in m && wanted(s)
    requires forall k | k in m && InRange(Some(start), Some(end), k) :: HasKey(records, k)
    requires forall i | 0 <= i < |records| :: |records[i].0| >= |namespace|
    ensures HasKey(Trimmed(namespace, records), s)
  {
    var k := namespace + s;
    assert HasPrefix(k, namespace) && k[|namespace|..] == s;
    assert HasKey(records, k);
    var i :| 0 <= i < |records| && records[i].0 == k;
    assert Trimmed(namespace, records)[i].0 == s;
  }

  lemma ListedIsWanted(m: map<bytes, bytes>, namespace: bytes, start: bytes, end: bytes, wanted: bytes -> bool,
                       order: Order, k: bytes)
    requires ListsNamespace(m, namespace, start, end, wanted, order)
    requires k in m && InRange(Some(start), Some(end), k)
    ensures |k| >= |namespace| && wanted(k[|namespace|..])
  {
    var records := Listing(m, Some(start), Some(end), order);
    ListingLists(m, Some(start), Some(end), order);
    assert HasKey(records, k);
    var i :| 0 <= i < |records| && records[i].0 == k;
    assert Trimmed(namespace, records)[i].0 == k[|namespace|..];
  }

  lemma WantedIsListed(m: map<bytes, bytes>, namespace: bytes, start: bytes, end: bytes, wanted: bytes -> bool,
                       order: Order, k: bytes)
    requires ListsNamespace(m, namespace, start, end, wanted, order)
    requires forall j | j in m :: InRange(Some(start), Some(end), j) ==> HasPrefix(j, namespace)
    requires k in m && HasPrefix(k, namespace) && wanted(k[|namespace|..])
    ensures InRange(Some(start), Some(end), k)
  {
    var records, s := Listing(m, Some(start), Some(end), order), k[|namespace|..];
    assert k == namespace + s;
    SubStoreEntries(m, namespace);
    assert HasKey(Trimmed(namespace, records), s);
    var i :| 0 <= i < |records| && Trimmed(namespace, records)[i].0 == s;
    ListingLists(m, Some(start), Some(end), order);
    var j := records[i].0;
    assert InRange(Some(start), Some(end), j) && j in m;
    assert j == namespace + j[|namespace|..];
  }

  /** Where only the namespace's own keys lie within the bounds, nothing less will do. */
  lemma ListsIffPlaced(m: map<bytes, bytes>, namespace: bytes, start: bytes, end: bytes, wanted: bytes -> bool,
                       order: Order)
    requires forall k | k in m :: InRange(Some(start), Some(end), k) ==> HasPrefix(k, namespace)
    ensures ListsNamespace(m, namespace, start, end, wanted, order) <==> KeysPlaced(m, namespace, start, end, wanted)
  {
    if KeysPlaced(m, namespace, start, end, wanted) {
      PlacedLists(m, namespace, start, end, wanted, order);
    } else if ListsNamespace(m, namespace, start, end, wanted, order) {
      forall k | k in m ensures InRange(Some(start), Some(end), k) <==>
            HasPrefix(k, namespace)
            && wanted(k[|namespace|..]) {
        if InRange(Some(start), Some(end), k) {
          ListedIsWanted(m, namespace, start, end, wanted, order, k);
        } else if HasPrefix(k, namespace) && wanted(k[|namespace|..]) {
          WantedIsListed(m, namespace, start, end, wanted, order, k);
        }
      }
    }
  }

  /** `range_with_prefix` lists exactly the namespace's own entries within the bounds, in order,
      without the namespace, if and only if no stored key is misplaced. */
  lemma RangeWithPrefixExact(m: map<bytes, bytes>, namespace: bytes, min: Option<RawBound>, max: Option<RawBound>,
                             order: Order)
    ensures ListsNamespace(m, namespace, StartBound(namespace, min), EndBound(namespace, max),
            s => Satisfies(min, max, s), order)
            <==> forall k | k in m :: !Misplaced(namespace, min, max, k)
  {
    var start, end, wanted := StartBound(namespace, min), EndBound(namespace, max), s => Satisfies(min, max, s);
    if forall k | k in m :: !Misplaced(namespace, min, max, k) {
      forall k | k in m ensures InRange(Some(start), Some(end), k) <==>
            HasPrefix(k, namespace)
            && wanted(k[|namespace|..]) {
        BoundsExact(namespace, min, max, k);
      }
      PlacedLists(m, namespace, start, end, wanted, order);
    } else {
      var k :| k in m && Misplaced(namespace, min, max, k);
      MisplacedSpoils(m, namespace, min, k, order);
    }
  }

  lemma MisplacedSpoils(m: map<bytes, bytes>, namespace: bytes, min: Option<RawBound>, k: bytes, order: Order)
    requires k in m && Misplaced(namespace, min, None, k)
    ensures !ListsNamespace(m, namespace, StartBound(namespace, min), Increment(namespace),
            s => Satisfies(min, None, s), order)
  {
    var start, end, wanted := StartBound(namespace, min), Increment(namespace), s => Satisfies(min, None, s);
    if ListsNamespace(m, namespace, start, end, wanted, order) {
      if AllFF(namespace) {
        NothingInRange(namespace, min);
        WantedIsListed(m, namespace, start, end, wanted, order, k);
      } else {
        OpenBoundsExact(namespace, min, k);
        ListedIsWanted(m, namespace, start, end, wanted, order, k);
      }
    }
  }

  lemma NothingInRange(namespace: bytes, min: Option<RawBound>)
    requires AllFF(namespace)
    ensures forall k :: !InRange(Some(StartBound(namespace, min)), Some(Increment(namespace)), k)
  {
    forall k ensures !InRange(Some(StartBound(namespace, min)), Some(Increment(namespace)), k) {
      if !Less(k, StartBound(namespace, min)) {
        StartAtLeastNamespace(namespace, min, k);
        AllFFInterval(namespace, k);
      }
    }
  }

  lemma TrimmedOrdered(namespace: bytes, records: seq<Entry<bytes>>, order: Order)
    requires Ordered(order, records)
    requires forall i | 0 <= i < |records| ::
               |records[i].0| >= |namespace| && records[i].0 == namespace + records[i].0[|namespace|..]
    ensures Ordered(order, Trimmed(namespace, records))
  {
    var r := Trimmed(namespace, records);
    forall i, j | 0 <= i < j < |r| ensures Before(order, r[i].0, r[j].0) {
      LessCommonPrefix(namespace, r[i].0, r[j].0);
      LessCommonPrefix(namespace, r[j].0, r[i].0);
      assert Before(order, records[i].0, records[j].0);
    }
  }
}
