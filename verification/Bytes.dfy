// Byte strings under the lexicographic order that the key-value store,
// `BTreeMap` and Rust's slice comparison all share.
module Bytes {

  type byte = b: int | 0 <= b < 256

  type bytes = seq<byte>

  datatype Option<+T> = None | Some(value: T)

  datatype Order = Ascending | Descending

  predicate Less(a: bytes, b: bytes) {
    b != [] && (a == [] || a[0] < b[0] || (a[0] == b[0] && Less(a[1..], b[1..])))
  }

  predicate Before(order: Order, a: bytes, b: bytes) {
    if order.Ascending? then Less(a, b) else Less(b, a)
  }

  lemma {:induction false} LessIrreflexive(a: bytes)
    ensures !Less(a, a)
  {
    if a != [] {
      LessIrreflexive(a[1..]);
    }
  }

  lemma {:induction false} LessTransitive(a: bytes, b: bytes, c: bytes)
    requires Less(a, b) && Less(b, c)
    ensures Less(a, c)
  {
    if a != [] && a[0] == b[0] == c[0] {
      LessTransitive(a[1..], b[1..], c[1..]);
    }
  }

  lemma LessAsymmetric(a: bytes, b: bytes)
    requires Less(a, b)
    ensures !Less(b, a) && a != b
  {
    LessIrreflexive(a);
    if Less(b, a) {
      LessTransitive(a, b, a);
    }
  }

  lemma {:induction false} LessTotal(a: bytes, b: bytes)
    ensures Less(a, b) || a == b || Less(b, a)
  {
    if a != [] && b != [] && a[0] == b[0] {
      LessTotal(a[1..], b[1..]);
      assert a == [a[0]] + a[1..] && b == [b[0]] + b[1..];
    }
  }

  /** `a <= b` in the lexicographic order, used as "not less" throughout. */
  lemma NotLessTransitive(a: bytes, b: bytes, c: bytes)
    requires !Less(b, a) && !Less(c, b)
    ensures !Less(c, a)
  {
    LessTotal(a, b);
    if Less(c, a) && a != b {
      LessTransitive(c, a, b);
    }
  }

  lemma LessNotLess(a: bytes, b: bytes, c: bytes)
    requires Less(a, b) && !Less(c, b)
    ensures Less(a, c)
  {
    LessTotal(b, c);
    if b != c {
      LessTransitive(a, b, c);
    }
  }

  /** A common prefix never decides a comparison. */
  lemma {:induction false} LessCommonPrefix(p: bytes, a: bytes, b: bytes)
    ensures Less(p + a, p + b) <==> Less(a, b)
  {
    if p == [] {
      assert p + a == a && p + b == b;
    } else {
      assert (p + a)[1..] == p[1..] + a && (p + b)[1..] == p[1..] + b;
      LessCommonPrefix(p[1..], a, b);
    }
  }

  /** Strings of equal length that differ are decided before what follows them. */
  lemma {:induction false} LessEqualLength(x: bytes, y: bytes, a: bytes, b: bytes)
    requires |x| == |y| && x != y
    ensures Less(x + a, y + b) <==> Less(x, y)
  {
    assert (x + a)[1..] == x[1..] + a && (y + b)[1..] == y[1..] + b;
    if x[0] == y[0] {
      assert x == [x[0]] + x[1..] && y == [y[0]] + y[1..];
      LessEqualLength(x[1..], y[1..], a, b);
    }
  }

  /** The immediate successor of `limit` is `limit` with a zero byte appended. */
  lemma {:induction false} ZeroByteSuccessor(limit: bytes, s: bytes)
    ensures Less(limit, s) <==> !Less(s, limit + [0])
  {
    if limit == [] {
      if s != [] {
        assert (limit + [0])[1..] == [];
      }
    } else if s != [] {
      assert (limit + [0])[1..] == limit[1..] + [0];
      ZeroByteSuccessor(limit[1..], s[1..]);
    }
  }

  lemma BeforeAsymmetric(order: Order, a: bytes, b: bytes)
    requires Before(order, a, b)
    ensures !Before(order, b, a) && a != b
  {
    if order.Ascending? { LessAsymmetric(a, b); } else { LessAsymmetric(b, a); }
  }

  lemma BeforeTransitive(order: Order, a: bytes, b: bytes, c: bytes)
    requires Before(order, a, b) && Before(order, b, c)
    ensures Before(order, a, c)
  {
    if order.Ascending? { LessTransitive(a, b, c); } else { LessTransitive(c, b, a); }
  }
}
