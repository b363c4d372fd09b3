// Ranges over whole prefixes of composite keys (`prefix_range`): the bounds are
// prefixes, and stand for all the keys that start with them.
module PrefixRanges {
  import opened Bytes
  import opened Listings
  import opened IntKeys
  import opened Keys
  import opened Prefixes
  import opened Maps

  /** The leading segments of a key, every one of them length-prefixed. */
  function JoinedPrefix(segments: seq<bytes>): bytes
    requires Encodable(segments)
  {
    NamespacesWithKey(segments, [])
  }

  lemma PrefixOfKey(a: seq<bytes>, segments: seq<bytes>, key: bytes)
    requires Encodable(a) && Encodable(segments) && |a| == |segments|
    ensures HasPrefix(NamespacesWithKey(segments, key), JoinedPrefix(a)) <==> segments == a
  {
    var s, l := NamespacesWithKey(segments, key), JoinedPrefix(a);
    NamespacesThenKey(segments, key);
    if HasPrefix(s, l) {
      NamespacesThenKey(a, s[|l|..]);
      assert s == l + s[|l|..];
      KeysInjective(segments, key, a, s[|l|..]);
    }
  }

  // ---------------------------------------------------------------------------
  // When the increment of a prefix is just above all its keys
  // ---------------------------------------------------------------------------

  /** Incrementing has room in the last segment, if only in its length. */
  predicate Incrementable(segments: seq<bytes>)
    requires Encodable(segments)
  {
    segments != [] && !AllFF(LengthPrefixed(segments[|segments| - 1]))
  }

  lemma LastSegment(segments: seq<bytes>, key: bytes)
    requires Encodable(segments) && segments != []
    ensures var n := |segments| - 1;
            NamespacesWithKey(segments, key) == JoinedPrefix(segments[..n]) + (LengthPrefixed(segments[n]) + key)
  {
    var n := |segments| - 1;
    assert segments == segments[..n] + [segments[n]];
    NamespacesConcat(segments[..n], [segments[n]], key);
    OneSegment(segments[n], key);
  }

  lemma OneSegment(segment: bytes, key: bytes)
    requires |segment| <= MAX_SEGMENT
    ensures NamespacesWithKey([segment], key) == LengthPrefixed(segment) + key
  {
    assert [segment][1..] == [];
  }

  /** Within one segment nothing strays: a carry into the length makes the segment longer. */
  lemma NoStraySegment(last: bytes, segment: bytes, rest: bytes)
    requires |last| <= MAX_SEGMENT && |segment| <= MAX_SEGMENT && !AllFF(LengthPrefixed(last))
    ensures !Stray(LengthPrefixed(last), LengthPrefixed(segment) + rest)
  {
    var (p, s) := (LengthPrefixed(last), LengthPrefixed(segment) + rest);
    if |s| < |p| && !AllFF(p[..|s|]) && s == Increment(p[..|s|]) {
      var z := p[..|s|];
      var (length, tail) := (EncodeLength(last), z[2..]);
      assert z == length + tail;
      IncrementConcat(length, tail);
      assert s[..2] == EncodeLength(segment);
      LengthNotSmaller(last, segment, tail);
      assert false;
    }
  }

  lemma LengthNotSmaller(last: bytes, segment: bytes, tail: bytes)
    requires |last| <= MAX_SEGMENT && |segment| <= MAX_SEGMENT && !AllFF(EncodeLength(last) + tail)
    requires EncodeLength(segment) == (if AllFF(tail) then Increment(EncodeLength(last)) else EncodeLength(last))
    ensures |segment| >= |last|
  {
    assert Span(2) == 0x10000 by { assert Span(1) == 256 * Span(0); }
    var length := EncodeLength(last);
    if AllFF(tail) {
      assert AllFF(length) ==> AllFF(length + tail);
      IncrementGrows(length);
      UnsignedOrder(|last|, |segment|, 2);
    } else {
      BeRoundTrip(|last|, 2);
      BeRoundTrip(|segment|, 2);
    }
  }

  /** No key of as many segments strays between an incrementable prefix and its increment. */
  lemma NoStrayKey(a: seq<bytes>, segments: seq<bytes>, key: bytes)
    requires Encodable(a) && Encodable(segments) && |a| == |segments| && Incrementable(a)
    ensures !Stray(JoinedPrefix(a), NamespacesWithKey(segments, key))
  {
    var n := |a| - 1;
    var (l, s) := (JoinedPrefix(a), NamespacesWithKey(segments, key));
    var (front, last) := (JoinedPrefix(a[..n]), LengthPrefixed(a[n]));
    LastSegment(a, []);
    assert last + [] == last;
    if Stray(l, s) {
      StrayInLast(front, last, s);
      var z := last[..|s| - |front|];
      LastSegment(segments, key);
      NamespacesThenKey(a[..n], Increment(z));
      NamespacesThenKey(segments[..n], LengthPrefixed(segments[n]) + key);
      KeysInjective(segments[..n], LengthPrefixed(segments[n]) + key, a[..n], Increment(z));
      NoStraySegment(a[n], segments[n], key);
      assert false;
    }
  }

  lemma StrayInLast(front: bytes, last: bytes, s: bytes)
    requires Stray(front + last, s) && !AllFF(last)
    ensures |s| > |front|
    ensures var z := last[..|s| - |front|]; s == front + Increment(z) && Stray(last, Increment(z))
  {
    var l := front + last;
    var m := |s|;
    if m <= |front| {
      assert l[m..] == front[m..] + last;
      forall i | 0 <= i < |last| ensures last[i] == 255 { assert l[m..][|front| - m + i] == last[i]; }
      assert false;
    }
    var j := m - |front|;
    var (z, rest) := (last[..j], last[j..]);
    assert l[..m] == front + z && l[m..] == rest;
    assert last == z + rest;
    assert AllFF(z) ==> AllFF(z + rest);
    IncrementConcat(front, z);
  }

  lemma IncrementableIsNotAllFF(a: seq<bytes>)
    requires Encodable(a) && Incrementable(a)
    ensures !AllFF(JoinedPrefix(a))
  {
    LastSegment(a, []);
    var (front, last) := (JoinedPrefix(a[..|a| - 1]), LengthPrefixed(a[|a| - 1]) + []);
    assert last == LengthPrefixed(a[|a| - 1]);
    var i :| 0 <= i < |last| && last[i] != 255;
    assert (front + last)[|front| + i] == last[i];
  }

  // ---------------------------------------------------------------------------
  // When it is not
  // ---------------------------------------------------------------------------

  /** A key whose place relative to the incremented prefix is not that of its segments. */
  ghost predicate Misjudged(a: seq<bytes>, segments: seq<bytes>, key: bytes)
    requires Encodable(a)
  {
    && Encodable(segments) && |segments| == |a|
    && (Less(NamespacesWithKey(segments, key), Increment(JoinedPrefix(a))) <==> SegmentsBefore(a, segments))
  }

  function Empties(n: nat): (r: seq<bytes>)
    ensures |r| == n && Encodable(r)
  {
    seq(n, _ => [])
  }

  lemma {:induction false} EmptiesAreZeros(n: nat)
    ensures JoinedPrefix(Empties(n)) == Zeros(2 * n)
  {
    if n > 0 {
      assert Empties(n)[1..] == Empties(n - 1);
      EmptiesAreZeros(n - 1);
      IntKeysZero();
      assert LengthPrefixed([]) == [0, 0];
    }
  }

  /** The next segment in the order, which the carry out of the segments behind it spells. */
  lemma NextSegment(a: bytes) returns (next: bytes)
    requires |a| <= MAX_SEGMENT && !AllFF(LengthPrefixed(a))
    ensures |next| <= MAX_SEGMENT && Shortlex(a, next)
    ensures LengthPrefixed(next) == Increment(LengthPrefixed(a)) || LengthPrefixed(next)
            == Increment(LengthPrefixed(a)) + [0]
  {
    var length := EncodeLength(a);
    IncrementConcat(length, a);
    if AllFF(a) {
      assert AllFF(length) ==> AllFF(length + a);
      NextLength(|a|);
      next := Zeros(|a| + 1);
      assert Zeros(|a| + 1) == Zeros(|a|) + [0];
      assert Increment(length) + Zeros(|a|) + [0] == Increment(length) + Zeros(|a| + 1);
    } else {
      next := Increment(a);
      IncrementGrows(a);
    }
  }

  lemma NextLength(n: nat)
    requires n <= MAX_SEGMENT
    ensures Span(2) == 0x10000
    ensures !AllFF(ToBeBytes(n, 2)) ==> n < MAX_SEGMENT && ToBeBytes(n + 1, 2) == Increment(ToBeBytes(n, 2))
  {
    assert Span(2) == 0x10000 && Span(1) == 256 by { assert Span(1) == 256 * Span(0); }
    TwoBytes(n);
    if n < MAX_SEGMENT { TwoBytes(n + 1); }
    assert Increment([n / 256, n % 256])
           == if n % 256 == 255 then Increment([n / 256]) + [0] else [n / 256, n % 256 + 1] by {
      assert [n / 256, n % 256][..1] == [n / 256];
    }
    assert Increment([n / 256]) == if n / 256 == 255 then [0] else [n / 256 + 1] by {
      assert [n / 256][..0] == [] && Increment([]) == [];
    }
  }

  /** Behind a segment of 65535 bytes of 0xFF the carry leaves the segment, and the short
      key it spells comes after the prefix but below the incremented bound. */
  lemma {:induction false} SomeKeyMisjudged(a: seq<bytes>) returns (segments: seq<bytes>)
    requires Encodable(a) && !Incrementable(a)
    ensures Misjudged(a, segments, [])
    decreases |a|
  {
    var l := JoinedPrefix(a);
    if AllFF(l) {
      segments := a;
      LessIrreflexive(l);
      AllFFInterval(l, l);
      KeyOrder(a, [], a, []);
    } else {
      var (head, rest) := (LengthPrefixed(a[0]), JoinedPrefix(a[1..]));
      if AllFF(rest) {
        segments := CarriedKey(a);
      } else {
        var behind := SomeKeyMisjudged(a[1..]);
        segments := [a[0]] + behind;
        assert segments[1..] == behind;
        LessIrreflexive(a[0]);
        IncrementConcat(head, rest);
        LessCommonPrefix(head, JoinedPrefix(behind), Increment(rest));
      }
    }
  }

  lemma CarriedKey(a: seq<bytes>) returns (segments: seq<bytes>)
    requires Encodable(a) && !Incrementable(a) && a != [] && AllFF(JoinedPrefix(a[1..])) && !AllFF(JoinedPrefix(a))
    ensures Misjudged(a, segments, [])
  {
    var (head, rest, n) := (LengthPrefixed(a[0]), JoinedPrefix(a[1..]), |a| - 1);
    assert AllFF(head) ==> AllFF(head + rest);
    var next := NextSegment(a[0]);
    segments := [next] + Empties(n);
    assert segments[1..] == Empties(n);
    EmptiesAreZeros(n);
    IncrementConcat(head, rest);
    RestIsLong(a[1..]);
    var s := LengthPrefixed(next) + Zeros(2 * n);
    assert s == JoinedPrefix(segments);
    var more := Increment(head) + Zeros(|rest|);
    assert |s| < |more| && s <= more;
    var tail := more[|s|..];
    assert more == s + tail && s == s + [];
    LessCommonPrefix(s, [], tail);
  }

  /** With two bytes each for their lengths, all 0xFF, segments are as long as can be. */
  lemma {:induction false} RestIsLong(a: seq<bytes>)
    requires Encodable(a) && AllFF(JoinedPrefix(a))
    ensures |JoinedPrefix(a)| >= 4 * |a|
  {
    if a != [] {
      var (head, rest) := (LengthPrefixed(a[0]), JoinedPrefix(a[1..]));
      forall i | 0 <= i < |rest| ensures rest[i] == 255 { assert (head + rest)[|head| + i] == 255; }
      RestIsLong(a[1..]);
      TwoBytes(|a[0]|);
      assert (head + rest)[0] == 255;
    }
  }

  /** The increment of a prefix bounds exactly the keys it should, whatever they are, if and
      only if its last segment is not one of 65535 bytes of 0xFF, and there is one. */
  lemma IncrementExactIff(a: seq<bytes>)
    requires Encodable(a)
    ensures (forall segments, key | Encodable(segments) && |segments| == |a| :: !Misjudged(a, segments, key))
            <==> Incrementable(a)
  {
    if Incrementable(a) {
      forall segments, key | Encodable(segments) && |segments| == |a| ensures !Misjudged(a, segments, key) {
        IncrementedBound(a, segments, key);
      }
    } else {
      var segments := SomeKeyMisjudged(a);
    }
  }

  /** The keys an incremented prefix misjudges: its strays, or, when it is all 0xFF and wraps
      around to zeros, every key that is not below those. */
  predicate OutOfPlace(a: seq<bytes>, s: bytes)
    requires forall i | 0 <= i < |a| :: |a[i]| <= MAX_SEGMENT
  {
    if AllFF(JoinedPrefix(a)) then !Less(s, Zeros(|JoinedPrefix(a)|)) else Stray(JoinedPrefix(a), s)
  }

  lemma MisjudgedIff(a: seq<bytes>, segments: seq<bytes>, key: bytes)
    requires Encodable(a) && Encodable(segments) && |a| == |segments|
    ensures Misjudged(a, segments, key) <==> OutOfPlace(a, NamespacesWithKey(segments, key))
  {
    var (l, s) := (JoinedPrefix(a), NamespacesWithKey(segments, key));
    KeyOrder(a, [], segments, key);
    KeyOrder(a, [], a, []);
    LessIrreflexive(l);
    PrefixOfKey(a, segments, key);
    if AllFF(l) {
      IncrementConcat([], l);
      assert [] + l == l && Increment([]) + Zeros(|l|) == Zeros(|l|);
      if Less(l, s) { AboveAllFF(l, s); }
    } else {
      IntervalExact(l, s);
      LessTotal(l, s);
      if Less(s, l) {
        LessAsymmetric(s, l);
        IncrementGrows(l);
        LessTransitive(s, l, Increment(l));
      }
    }
  }

  /** Below the increment of a prefix are exactly the keys whose segments do not come after it. */
  lemma IncrementedBound(a: seq<bytes>, segments: seq<bytes>, key: bytes)
    requires Encodable(a) && Encodable(segments) && |a| == |segments| && Incrementable(a)
    ensures Less(NamespacesWithKey(segments, key), Increment(JoinedPrefix(a))) <==> !SegmentsBefore(a, segments)
  {
    IncrementableIsNotAllFF(a);
    NoStrayKey(a, segments, key);
    MisjudgedIff(a, segments, key);
  }

  lemma {:induction false} AboveAllFF(l: bytes, s: bytes)
    requires AllFF(l) && Less(l, s)
    ensures HasPrefix(s, l)
  {
    if l != [] {
      assert s[0] <= 255 == l[0];
      AboveAllFF(l[1..], s[1..]);
      assert s == [s[0]] + s[1..] && l == [l[0]] + l[1..];
    }
  }

  // ---------------------------------------------------------------------------
  // The bounds and the listing
  // ---------------------------------------------------------------------------

  /** A bound that stands for all keys starting with the given segments. */
  datatype PrefixBound = InclusivePrefix(segments: seq<bytes>) | ExclusivePrefix(segments: seq<bytes>)

  function PrefixStartBound(namespace: bytes, bound: Option<PrefixBound>): bytes
    requires bound.Some? ==> Encodable(bound.value.segments)
  {
    match bound
    case None => namespace
    case Some(InclusivePrefix(a)) => namespace + JoinedPrefix(a)
    case Some(ExclusivePrefix(a)) => namespace + Increment(JoinedPrefix(a))
  }

  function PrefixEndBound(namespace: bytes, bound: Option<PrefixBound>): bytes
    requires bound.Some? ==> Encodable(bound.value.segments)
  {
    match bound
    case None => Increment(namespace)
    case Some(ExclusivePrefix(a)) => namespace + JoinedPrefix(a)
    case Some(InclusivePrefix(a)) => namespace + Increment(JoinedPrefix(a))
  }

  /** What the bounds ask of a key's leading segments. */
  predicate SatisfiesPrefix(min: Option<PrefixBound>, max: Option<PrefixBound>, segments: seq<bytes>)
    requires min.Some? ==> |min.value.segments| == |segments|
    requires max.Some? ==> |max.value.segments| == |segments|
  {
    && (match min
        case None => true
        case Some(InclusivePrefix(a)) => !SegmentsBefore(segments, a)
        case Some(ExclusivePrefix(a)) => SegmentsBefore(a, segments))
    && (match max
        case None => true
        case Some(InclusivePrefix(a)) => !SegmentsBefore(a, segments)
        case Some(ExclusivePrefix(a)) => SegmentsBefore(segments, a))
  }

  /** Bounds of `n` segments each. */
  ghost predicate Bounding(n: nat, min: Option<PrefixBound>, max: Option<PrefixBound>) {
    && (min.Some? ==> |min.value.segments| == n && Encodable(min.value.segments))
    && (max.Some? ==> |max.value.segments| == n && Encodable(max.value.segments))
  }

  ghost predicate Wanted(n: nat, min: Option<PrefixBound>, max: Option<PrefixBound>, s: bytes)
    requires Bounding(n, min, max)
  {
    DecodeSegments(n, s).Decoded? && (DecodedSegments(n, s); SatisfiesPrefix(min, max, DecodeSegments(n, s).value.0))
  }

  /** Whether the lower bound misjudges a key: only an excluded prefix is incremented. */
  ghost predicate StartMisjudges(n: nat, min: Option<PrefixBound>, s: bytes)
    requires Bounding(n, min, None)
  {
    min.Some? && min.value.ExclusivePrefix? && OutOfPlace(min.value.segments, s)
  }

  /** Whether the upper bound misjudges a key: only an included prefix is incremented. */
  ghost predicate EndMisjudges(n: nat, max: Option<PrefixBound>, s: bytes)
    requires Bounding(n, None, max)
  {
    max.Some? && max.value.InclusivePrefix? && OutOfPlace(max.value.segments, s)
  }

  /** A key on the wrong side: one bound misjudges it and the other does not rule it out
      anyway, or both do, and do not make up for each other. */
  ghost predicate WrongSide(n: nat, min: Option<PrefixBound>, max: Option<PrefixBound>, s: bytes)
    requires Bounding(n, min, max)
  {
    var (start, end) := (StartMisjudges(n, min, s), EndMisjudges(n, max, s));
    if start && end then Wanted(n, min, None, s) == Wanted(n, None, max, s)
    else (start && Wanted(n, None, max, s)) || (end && Wanted(n, min, None, s))
  }

  lemma AbovePrefixStart(namespace: bytes, n: nat, min: Option<PrefixBound>, segments: seq<bytes>, key: bytes)
    requires Bounding(n, min, None) && Encodable(segments) && |segments| == n
    ensures var s := NamespacesWithKey(segments, key);
            (!Less(namespace + s, PrefixStartBound(namespace, min)) <==> SatisfiesPrefix(min, None, segments))
            <==> !StartMisjudges(n, min, s)
  {
    var s := NamespacesWithKey(segments, key);
    match min
    case None => PrefixNotLess(namespace, namespace + s);
    case Some(InclusivePrefix(a)) =>
      LessCommonPrefix(namespace, s, JoinedPrefix(a));
      KeyOrder(segments, key, a, []);
    case Some(ExclusivePrefix(a)) =>
      LessCommonPrefix(namespace, s, Increment(JoinedPrefix(a)));
      MisjudgedIff(a, segments, key);
  }

  lemma BelowPrefixEnd(namespace: bytes, n: nat, max: Option<PrefixBound>, segments: seq<bytes>, key: bytes)
    requires Bounding(n, None, max) && Encodable(segments) && |segments| == n && (max == None ==> Exact(namespace))
    ensures var s := NamespacesWithKey(segments, key);
            (Less(namespace + s, PrefixEndBound(namespace, max)) <==> SatisfiesPrefix(None, max, segments))
            <==> !EndMisjudges(n, max, s)
  {
    var s := NamespacesWithKey(segments, key);
    match max
    case None => assert HasPrefix(namespace + s, namespace);
    case Some(ExclusivePrefix(a)) =>
      LessCommonPrefix(namespace, s, JoinedPrefix(a));
      KeyOrder(segments, key, a, []);
    case Some(InclusivePrefix(a)) =>
      LessCommonPrefix(namespace, s, Increment(JoinedPrefix(a)));
      MisjudgedIff(a, segments, key);
  }

  /** A key that lies within the bounds has the namespace. */
  lemma WithinHasNamespace(namespace: bytes, n: nat, min: Option<PrefixBound>, max: Option<PrefixBound>, k: bytes)
    requires Bounding(n, min, max) && Exact(namespace)
    requires InRange(Some(PrefixStartBound(namespace, min)), Some(PrefixEndBound(namespace, max)), k)
    ensures HasPrefix(k, namespace)
  {
    var start := PrefixStartBound(namespace, min);
    PrefixNotLess(namespace, start);
    NotLessTransitive(namespace, start, k);
    if max.Some? {
      assert namespace == namespace + [];
      BetweenPrefixed(namespace, [], k, PrefixEndBound(namespace, max)[|namespace|..]);
    }
  }

  /** Excluding a prefix skips, and including it keeps, every key that starts with it, however
      short or long the key: a key is within the bounds exactly when its segments satisfy
      them, unless it is misplaced. */
  lemma PrefixBoundsExact(namespace: bytes, n: nat, min: Option<PrefixBound>, max: Option<PrefixBound>, s: bytes)
    requires Bounding(n, min, max) && Exact(namespace) && DecodeSegments(n, s).Decoded?
    ensures (InRange(Some(PrefixStartBound(namespace, min)), Some(PrefixEndBound(namespace, max)), namespace + s)
            <==> Wanted(n, min, max, s))
            <==> !WrongSide(n, min, max, s)
  {
    DecodedSegments(n, s);
    var (segments, key) := DecodeSegments(n, s).value;
    AbovePrefixStart(namespace, n, min, segments, key);
    BelowPrefixEnd(namespace, n, max, segments, key);
  }

  /** Prefixes that can be incremented misplace nothing. */
  lemma IncrementableMisplacesNothing(n: nat, min: Option<PrefixBound>, max: Option<PrefixBound>, s: bytes)
    requires Bounding(n, min, max) && DecodeSegments(n, s).Decoded?
    requires min.Some? && min.value.ExclusivePrefix? ==> Incrementable(min.value.segments)
    requires max.Some? && max.value.InclusivePrefix? ==> Incrementable(max.value.segments)
    ensures !WrongSide(n, min, max, s)
  {
    DecodedSegments(n, s);
    var (segments, key) := DecodeSegments(n, s).value;
    if StartMisjudges(n, min, s) {
      MisjudgedIff(min.value.segments, segments, key);
      IncrementedBound(min.value.segments, segments, key);
    }
    if EndMisjudges(n, max, s) {
      MisjudgedIff(max.value.segments, segments, key);
      IncrementedBound(max.value.segments, segments, key);
    }
  }

  /** The store holds nothing under the map's namespace but keys of at least `n` segments. */
  ghost predicate KeysOf(m: map<bytes, bytes>, namespace: bytes, n: nat) {
    forall k | k in m && HasPrefix(k, namespace) :: DecodeSegments(n, k[|namespace|..]).Decoded?
  }

  /** `namespaced_prefix_range` lists exactly the map's entries whose leading segments satisfy
      the bounds, in key order and without the namespace, whatever else is stored, if and only
      if none of the map's keys is misplaced. */
  lemma PrefixRangeExact(m: map<bytes, bytes>, namespace: bytes, n: nat, min: Option<PrefixBound>,
                         max: Option<PrefixBound>, order: Order)
    requires MapNamespace(namespace) && KeysOf(m, StoragePrefix(namespace), n) && Bounding(n, min, max)
    ensures var p := StoragePrefix(namespace);
            ListsNamespace(m, p, PrefixStartBound(p, min), PrefixEndBound(p, max), s => Wanted(n, min, max, s), order)
            <==> forall k | k in m && HasPrefix(k, p) :: !WrongSide(n, min, max, k[|p|..])
  {
    var p := StoragePrefix(namespace);
    var start, end, wanted := PrefixStartBound(p, min), PrefixEndBound(p, max), s => Wanted(n, min, max, s);
    StoragePrefixExact(namespace);
    forall k | k in m ensures InRange(Some(start), Some(end), k) ==> HasPrefix(k, p) {
      if InRange(Some(start), Some(end), k) { WithinHasNamespace(p, n, min, max, k); }
    }
    forall k | k in m && HasPrefix(k, p)
      ensures (InRange(Some(start), Some(end), k) <==> wanted(k[|p|..])) <==> !WrongSide(n, min, max, k[|p|..])
    {
      assert k == p + k[|p|..];
      PrefixBoundsExact(p, n, min, max, k[|p|..]);
    }
    ListsIffPlaced(m, p, start, end, wanted, order);
  }

  // ---------------------------------------------------------------------------
  // Ranges over one prefix
  // ---------------------------------------------------------------------------

  /** Between a map's incrementable prefix and its increment no key of the store strays. */
  lemma NoStrayUnderPrefix(m: map<bytes, bytes>, namespace: bytes, a: seq<bytes>, k: bytes)
    requires MapNamespace(namespace) && Encodable(a) && Incrementable(a)
    requires KeysOf(m, StoragePrefix(namespace), |a|) && k in m
    ensures !Stray(StoragePrefix(namespace) + JoinedPrefix(a), k)
  {
    var (p, l) := (StoragePrefix(namespace), JoinedPrefix(a));
    IncrementableIsNotAllFF(a);
    if Stray(p + l, k) {
      StrayInLast(p, l, k);
      var s := k[|p|..];
      assert HasPrefix(k, p) && s == Increment(l[..|k| - |p|]);
      DecodedSegments(|a|, s);
      NoStrayKey(a, DecodeSegments(|a|, s).value.0, DecodeSegments(|a|, s).value.1);
      assert false;
    }
  }

  /** A range under one prefix of a map's keys (`map.prefix(a)`), whatever the namespace of that
      prefix ends in: it lists exactly the keys with those leading segments, by what follows
      them, within the bounds and in order. Without segments it is the range over the map. */
  lemma UnderPrefixExact(m: map<bytes, bytes>, namespace: bytes, a: seq<bytes>, min: Option<RawBound>,
                         max: Option<RawBound>, order: Order)
    requires MapNamespace(namespace) && Encodable(a) && (a == [] || Incrementable(a))
             && KeysOf(m, StoragePrefix(namespace), |a|)
    ensures var p := StoragePrefix(namespace) + JoinedPrefix(a);
            ListsNamespace(m, p, StartBound(p, min), EndBound(p, max), s => Satisfies(min, max, s), order)
  {
    var (p, l) := (StoragePrefix(namespace), JoinedPrefix(a));
    StoragePrefixExact(namespace);
    assert !AllFF(p + l) by {
      assert p != [] && p[|p| - 1] != 255 && (p + l)[|p| - 1] == p[|p| - 1];
    }
    forall k | k in m ensures !Misplaced(p + l, min, max, k) {
      if a == [] {
        assert p + l == p;
        IntervalExact(p, k);
        assert (!Less(k, p) && Less(k, Increment(p))) <==> HasPrefix(k, p);
      } else {
        NoStrayUnderPrefix(m, namespace, a, k);
      }
    }
    RangeWithPrefixExact(m, p + l, min, max, order);
  }
}
