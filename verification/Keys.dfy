// Length-prefixed composite keys: encoding, decoding, order and disjointness.
module Keys {
  import opened Bytes
  import opened IntKeys

  const MAX_SEGMENT: nat := 0xFFFF

  /** The length of a segment in two big-endian bytes; longer segments make it panic. */
  function EncodeLength(segment: bytes): (r: bytes)
    requires |segment| <= MAX_SEGMENT
    ensures |r| == 2
  {
    assert Span(2) == 0x10000 by { assert Span(1) == 256 * Span(0); }
    ToBeBytes(|segment|, 2)
  }

  lemma TwoBytes(n: nat)
    requires n <= MAX_SEGMENT
    ensures Span(2) == 0x10000 && ToBeBytes(n, 2) == [n / 256, n % 256]
  {
    assert Span(2) == 0x10000 && Span(1) == 256 by { assert Span(1) == 256 * Span(0); }
    assert ToBeBytes(n / 256, 1) == ToBeBytes(n / 256 / 256, 0) + [n / 256 % 256];
    assert ToBeBytes(n, 2) == ToBeBytes(n / 256, 1) + [n % 256];
  }

  /** The two bytes are the length, high byte first. */
  lemma EncodedLength(segment: bytes)
    requires |segment| <= MAX_SEGMENT
    ensures EncodeLength(segment) == [|segment| / 256, |segment| % 256]
  {
    TwoBytes(|segment|);
  }

  ghost predicate Encodable(segments: seq<bytes>) {
    forall i | 0 <= i < |segments| :: |segments[i]| <= MAX_SEGMENT
  }

  function LengthPrefixed(segment: bytes): bytes
    requires |segment| <= MAX_SEGMENT
  {
    EncodeLength(segment) + segment
  }

  /** Every namespace length-prefixed, then the bare key. */
  function NamespacesWithKey(namespaces: seq<bytes>, key: bytes): bytes
    requires Encodable(namespaces)
  {
    if namespaces == [] then key else LengthPrefixed(namespaces[0]) + NamespacesWithKey(namespaces[1..], key)
  }

  lemma {:induction false} NamespacesSnoc(namespaces: seq<bytes>, last: bytes, key: bytes)
    requires Encodable(namespaces) && |last| <= MAX_SEGMENT
    ensures NamespacesWithKey(namespaces + [last], key)
            == NamespacesWithKey(namespaces, []) + LengthPrefixed(last) + key
  {
    if namespaces == [] {
      assert NamespacesWithKey([last][1..], key) == key;
      assert namespaces + [last] == [last];
      assert [] + LengthPrefixed(last) == LengthPrefixed(last);
    } else {
      assert (namespaces + [last])[1..] == namespaces[1..] + [last];
      NamespacesSnoc(namespaces[1..], last, key);
      var h, r := LengthPrefixed(namespaces[0]), NamespacesWithKey(namespaces[1..], []);
      assert h + (r + LengthPrefixed(last) + key) == h + r + LengthPrefixed(last) + key;
    }
  }

  lemma {:induction false} NamespacesThenKey(namespaces: seq<bytes>, key: bytes)
    requires Encodable(namespaces)
    ensures NamespacesWithKey(namespaces, key) == NamespacesWithKey(namespaces, []) + key
  {
    if namespaces != [] {
      NamespacesThenKey(namespaces[1..], key);
      var h, r := LengthPrefixed(namespaces[0]), NamespacesWithKey(namespaces[1..], []);
      assert h + (r + key) == h + r + key;
    } else {
      assert [] + key == key;
    }
  }

  /** The loop that appends every name, with its length before it, to an output vector. */
  method AppendPrefixed(prefix: bytes, names: seq<bytes>) returns (out: bytes)
    requires Encodable(names)
    ensures out == prefix + NamespacesWithKey(names, [])
  {
    out := prefix;
    for i := 0 to |names|
      invariant out == prefix + NamespacesWithKey(names[..i], [])
    {
      NamespacesSnoc(names[..i], names[i], []);
      assert names[..i + 1] == names[..i] + [names[i]];
      ghost var before := NamespacesWithKey(names[..i], []);
      out := out + EncodeLength(names[i]);
      out := out + names[i];
      assert out == prefix + (before + LengthPrefixed(names[i]) + []);
    }
    assert names[..|names|] == names;
  }

  /** `namespaces_with_key` */
  method BuildKey(namespaces: seq<bytes>, key: bytes) returns (out: bytes)
    requires Encodable(namespaces)
    ensures out == NamespacesWithKey(namespaces, key)
  {
    out := AppendPrefixed([], namespaces);
    NamespacesThenKey(namespaces, key);
    out := out + key;
  }

  lemma {:induction false} NamespacesConcat(top: seq<bytes>, sub: seq<bytes>, key: bytes)
    requires Encodable(top) && Encodable(sub)
    ensures NamespacesWithKey(top + sub, key) == NamespacesWithKey(top, []) + NamespacesWithKey(sub, key)
  {
    if top == [] {
      assert top + sub == sub;
    } else {
      assert (top + sub)[1..] == top[1..] + sub;
      NamespacesConcat(top[1..], sub, key);
    }
  }

  /** `nested_namespaces_with_key`: as if the two lists of names were one. */
  method BuildNestedKey(top: seq<bytes>, sub: seq<bytes>, key: bytes) returns (out: bytes)
    requires Encodable(top) && Encodable(sub)
    ensures out == NamespacesWithKey(top + sub, key)
  {
    out := AppendPrefixed([], top);
    out := AppendPrefixed(out, sub);
    out := out + key;
    NamespacesThenKey(sub, key);
    NamespacesConcat(top, sub, key);
  }

  /** The raw key of a composite key: all segments but the last are length-prefixed. */
  function JoinedKey(segments: seq<bytes>): bytes
    requires segments != [] && Encodable(segments[..|segments| - 1])
  {
    NamespacesWithKey(segments[..|segments| - 1], segments[|segments| - 1])
  }

  // ---------------------------------------------------------------------------
  // Decoding
  // ---------------------------------------------------------------------------

  datatype Decoded<+T> = Decoded(value: T) | SplitPanic

  /** Cuts a length-prefixed segment off the front; `split_off` panics past the end. */
  function SplitSegment(value: bytes): Decoded<(bytes, bytes)> {
    if |value| < 2 then SplitPanic
    else
      var len := FromBeBytes(value[..2]);
      if len > |value| - 2 then SplitPanic
      else Decoded((value[2..2 + len], value[2 + len..]))
  }

  function DecodePair(value: bytes): Decoded<(bytes, bytes)> {
    SplitSegment(value)
  }

  function DecodeTriple(value: bytes): Decoded<(bytes, bytes, bytes)> {
    match SplitSegment(value)
    case SplitPanic => SplitPanic
    case Decoded((t, rest)) =>
      match SplitSegment(rest)
      case SplitPanic => SplitPanic
      case Decoded((u, v)) => Decoded((t, u, v))
  }

  /** The first `n` segments and what follows them. */
  function DecodeSegments(n: nat, value: bytes): Decoded<(seq<bytes>, bytes)> {
    if n == 0 then Decoded(([], value))
    else
      match SplitSegment(value)
      case SplitPanic => SplitPanic
      case Decoded((segment, rest)) =>
        match DecodeSegments(n - 1, rest)
        case SplitPanic => SplitPanic
        case Decoded((segments, key)) => Decoded(([segment] + segments, key))
  }

  /** Keys of any number of segments decode to themselves, and decoding succeeds on nothing else. */
  lemma {:induction false} SegmentsRoundTrip(segments: seq<bytes>, key: bytes)
    requires Encodable(segments)
    ensures DecodeSegments(|segments|, NamespacesWithKey(segments, key)) == Decoded((segments, key))
  {
    if segments != [] {
      SplitPrefixed(segments[0], NamespacesWithKey(segments[1..], key));
      SegmentsRoundTrip(segments[1..], key);
      assert [segments[0]] + segments[1..] == segments;
    }
  }

  lemma {:induction false} DecodedSegments(n: nat, value: bytes)
    requires DecodeSegments(n, value).Decoded?
    ensures var (segments, key) := DecodeSegments(n, value).value;
            |segments| == n && Encodable(segments) && NamespacesWithKey(segments, key) == value
  {
    if n > 0 {
      SplitIsPrefixed(value);
      DecodedSegments(n - 1, SplitSegment(value).value.1);
    }
  }

  lemma SplitPrefixed(segment: bytes, rest: bytes)
    requires |segment| <= MAX_SEGMENT
    ensures SplitSegment(LengthPrefixed(segment) + rest) == Decoded((segment, rest))
  {
    var value := LengthPrefixed(segment) + rest;
    assert Span(2) == 0x10000 by { assert Span(1) == 256 * Span(0); }
    BeRoundTrip(|segment|, 2);
    assert value[..2] == EncodeLength(segment);
    assert value[2..2 + |segment|] == segment && value[2 + |segment|..] == rest;
  }

  lemma SplitIsPrefixed(value: bytes)
    requires SplitSegment(value).Decoded?
    ensures var (segment, rest) := SplitSegment(value).value;
            |segment| <= MAX_SEGMENT && value == LengthPrefixed(segment) + rest
  {
    assert Span(2) == 0x10000 by { assert Span(1) == 256 * Span(0); }
    BeBytesRoundTrip(value[..2]);
    var (segment, rest) := SplitSegment(value).value;
    assert value == value[..2] + value[2..2 + |segment|] + value[2 + |segment|..];
  }

  /** Pairs decode to themselves, and decoding succeeds on nothing but encoded pairs. */
  lemma PairRoundTrip(t: bytes, u: bytes, value: bytes)
    requires |t| <= MAX_SEGMENT
    ensures DecodePair(JoinedKey([t, u])) == Decoded((t, u))
    ensures DecodePair(value).Decoded? ==>
              |DecodePair(value).value.0| <= MAX_SEGMENT
                  && JoinedKey([DecodePair(value).value.0, DecodePair(value).value.1]) == value
  {
    JoinedPair(t, u);
    SplitPrefixed(t, u);
    if DecodePair(value).Decoded? {
      SplitIsPrefixed(value);
      JoinedPair(DecodePair(value).value.0, DecodePair(value).value.1);
    }
  }

  lemma JoinedPair(t: bytes, u: bytes)
    requires |t| <= MAX_SEGMENT
    ensures JoinedKey([t, u]) == LengthPrefixed(t) + u
  {
    assert [t, u][..1] == [t] && [t][1..] == [];
    assert NamespacesWithKey([], u) == u;
  }

  lemma JoinedTriple(t: bytes, u: bytes, v: bytes)
    requires |t| <= MAX_SEGMENT && |u| <= MAX_SEGMENT
    ensures JoinedKey([t, u, v]) == LengthPrefixed(t) + (LengthPrefixed(u) + v)
  {
    assert [t, u, v][..2] == [t, u] && [t, u][1..] == [u] && [u][1..] == [];
    assert NamespacesWithKey([], v) == v;
    assert NamespacesWithKey([u], v) == LengthPrefixed(u) + v;
  }

  lemma TripleRoundTrip(t: bytes, u: bytes, v: bytes, value: bytes)
    requires |t| <= MAX_SEGMENT && |u| <= MAX_SEGMENT
    ensures DecodeTriple(JoinedKey([t, u, v])) == Decoded((t, u, v))
    ensures DecodeTriple(value).Decoded? ==>
              var (a, b, c) := DecodeTriple(value).value;
              |a| <= MAX_SEGMENT && |b| <= MAX_SEGMENT && JoinedKey([a, b, c]) == value
  {
    JoinedTriple(t, u, v);
    SplitPrefixed(t, LengthPrefixed(u) + v);
    SplitPrefixed(u, v);
    if DecodeTriple(value).Decoded? {
      SplitIsPrefixed(value);
      var (a, rest) := SplitSegment(value).value;
      SplitIsPrefixed(rest);
      JoinedTriple(a, SplitSegment(rest).value.0, SplitSegment(rest).value.1);
    }
  }

  /** Any number of segments can be told apart: equal keys of equally many namespaces
      have equal namespaces and equal last keys. */
  lemma {:induction false} KeysInjective(a: seq<bytes>, x: bytes, b: seq<bytes>, y: bytes)
    requires Encodable(a) && Encodable(b) && |a| == |b|
    requires NamespacesWithKey(a, x) == NamespacesWithKey(b, y)
    ensures a == b && x == y
  {
    if a != [] {
      SplitPrefixed(a[0], NamespacesWithKey(a[1..], x));
      SplitPrefixed(b[0], NamespacesWithKey(b[1..], y));
      KeysInjective(a[1..], x, b[1..], y);
      assert a == [a[0]] + a[1..] && b == [b[0]] + b[1..];
    }
  }

  /** Maps with different namespaces never share a key, whatever follows the namespace. */
  lemma NamespacesDisjoint(m: bytes, n: bytes, a: seq<bytes>, x: bytes, b: seq<bytes>, y: bytes)
    requires |m| <= MAX_SEGMENT && |n| <= MAX_SEGMENT && m != n && Encodable(a) && Encodable(b)
    ensures Encodable([m] + a) && Encodable([n] + b)
    ensures NamespacesWithKey([m] + a, x) != NamespacesWithKey([n] + b, y)
  {
    assert ([m] + a)[1..] == a && ([n] + b)[1..] == b;
    SplitPrefixed(m, NamespacesWithKey(a, x));
    SplitPrefixed(n, NamespacesWithKey(b, y));
  }

  // ---------------------------------------------------------------------------
  // Order
  // ---------------------------------------------------------------------------

  /** Shorter first, equal lengths lexicographically. */
  predicate Shortlex(a: bytes, b: bytes) {
    |a| < |b| || (|a| == |b| && Less(a, b))
  }

  /** The byte order of encoded pairs: shortlex on the first component, then
      lexicographic on the second. */
  lemma PairOrder(t: bytes, u: bytes, t': bytes, u': bytes)
    requires |t| <= MAX_SEGMENT && |t'| <= MAX_SEGMENT
    ensures Less(JoinedKey([t, u]), JoinedKey([t', u'])) <==> Shortlex(t, t') || (t == t' && Less(u, u'))
  {
    JoinedPair(t, u);
    JoinedPair(t', u');
    assert Span(2) == 0x10000 by { assert Span(1) == 256 * Span(0); }
    assert LengthPrefixed(t) + u == EncodeLength(t) + (t + u);
    assert LengthPrefixed(t') + u' == EncodeLength(t') + (t' + u');
    UnsignedOrder(|t|, |t'|, 2);
    if |t| != |t'| {
      BeRoundTrip(|t|, 2);
      BeRoundTrip(|t'|, 2);
      LessEqualLength(EncodeLength(t), EncodeLength(t'), t + u, t' + u');
    } else {
      LessCommonPrefix(EncodeLength(t), t + u, t' + u');
      if t == t' {
        LessCommonPrefix(t, u, u');
        LessIrreflexive(t);
      } else {
        LessEqualLength(t, t', u, u');
      }
    }
  }

  /** Segment by segment, the first difference decides, shortlex. */
  predicate SegmentsBefore(a: seq<bytes>, b: seq<bytes>)
    requires |a| == |b|
  {
    a != [] && (Shortlex(a[0], b[0]) || (a[0] == b[0] && SegmentsBefore(a[1..], b[1..])))
  }

  /** The byte order of keys of equally many segments. */
  lemma {:induction false} KeyOrder(a: seq<bytes>, x: bytes, b: seq<bytes>, y: bytes)
    requires Encodable(a) && Encodable(b) && |a| == |b|
    ensures Less(NamespacesWithKey(a, x), NamespacesWithKey(b, y)) <==> SegmentsBefore(a, b) || (a == b && Less(x, y))
  {
    if a != [] {
      var (r, r') := (NamespacesWithKey(a[1..], x), NamespacesWithKey(b[1..], y));
      JoinedPair(a[0], r);
      JoinedPair(b[0], r');
      PairOrder(a[0], r, b[0], r');
      KeyOrder(a[1..], x, b[1..], y);
      assert a == [a[0]] + a[1..] && b == [b[0]] + b[1..];
    }
  }
}
