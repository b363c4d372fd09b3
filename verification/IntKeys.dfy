// Integer keys: big-endian bytes, with the sign bit flipped for signed integers,
// so that byte order is numeric order at every width.
module IntKeys {
  import opened Bytes

  /** 256 to the power of `width`, the number of values of that many bytes. */
  function Span(width: nat): (r: nat)
    ensures r > 0
  {
    if width == 0 then 1 else 256 * Span(width - 1)
  }

  function ToBeBytes(n: nat, width: nat): (b: bytes)
    requires n < Span(width)
    ensures |b| == width
  {
    if width == 0 then []
    else
      QuotientFits(n, width);
      ToBeBytes(n / 256, width - 1) + [n % 256]
  }

  lemma QuotientFits(n: nat, width: nat)
    requires width > 0 && n < Span(width)
    ensures n / 256 < Span(width - 1)
  {
  }

  function FromBeBytes(b: bytes): (n: nat)
    ensures n < Span(|b|)
  {
    if b == [] then 0 else 256 * FromBeBytes(b[..|b| - 1]) + b[|b| - 1]
  }

  /** `from_be_bytes` and `to_be_bytes` are inverse to each other. */
  lemma {:induction false} BeRoundTrip(n: nat, width: nat)
    requires n < Span(width)
    ensures FromBeBytes(ToBeBytes(n, width)) == n
  {
    if width > 0 {
      QuotientFits(n, width);
      BeRoundTrip(n / 256, width - 1);
      assert ToBeBytes(n, width)[..width - 1] == ToBeBytes(n / 256, width - 1);
    }
  }

  lemma {:induction false} BeBytesRoundTrip(b: bytes)
    ensures ToBeBytes(FromBeBytes(b), |b|) == b
    decreases |b|
  {
    if b != [] {
      var front := b[..|b| - 1];
      BeBytesRoundTrip(front);
      assert FromBeBytes(b) / 256 == FromBeBytes(front) && FromBeBytes(b) % 256 == b[|b| - 1];
      assert b == front + [b[|b| - 1]];
    }
  }

  /** Unsigned keys of one width sort as their values. */
  lemma {:induction false} UnsignedOrder(a: nat, b: nat, width: nat)
    requires a < Span(width) && b < Span(width)
    ensures Less(ToBeBytes(a, width), ToBeBytes(b, width)) <==> a < b
  {
    if width > 0 {
      QuotientFits(a, width);
      QuotientFits(b, width);
      UnsignedOrder(a / 256, b / 256, width - 1);
      var x, y := ToBeBytes(a / 256, width - 1), ToBeBytes(b / 256, width - 1);
      if x == y {
        BeRoundTrip(a / 256, width - 1);
        BeRoundTrip(b / 256, width - 1);
        LessCommonPrefix(x, [a % 256], [b % 256]);
        assert Less([a % 256], [b % 256]) <==> a % 256 < b % 256;
      } else {
        LessEqualLength(x, y, [a % 256], [b % 256]);
        BeInjective(a / 256, b / 256, width - 1);
      }
    }
  }

  lemma BeInjective(a: nat, b: nat, width: nat)
    requires a < Span(width) && b < Span(width) && ToBeBytes(a, width) != ToBeBytes(b, width)
    ensures a != b
  {
  }

  // ---------------------------------------------------------------------------
  // Signed integers
  // ---------------------------------------------------------------------------

  function Half(width: nat): nat
    requires width > 0
  {
    128 * Span(width - 1)
  }

  predicate Representable(x: int, width: nat)
    requires width > 0
  {
    0 <= x + Half(width) && x < Half(width)
  }

  /** Two's complement: the cast to the unsigned type of the same width. */
  function AsUnsigned(x: int, width: nat): (n: nat)
    requires width > 0 && Representable(x, width)
    ensures n < Span(width)
  {
    if x < 0 then x + Span(width) else x
  }

  function AsSigned(n: nat, width: nat): (x: int)
    requires width > 0 && n < Span(width)
    ensures Representable(x, width)
  {
    if n >= Half(width) then n - Span(width) else n
  }

  /** Xor with the sign bit alone. */
  function FlipSign(n: nat, width: nat): (r: nat)
    requires width > 0 && n < Span(width)
    ensures r < Span(width)
  {
    if n >= Half(width) then n - Half(width) else n + Half(width)
  }

  function ToSignedKey(x: int, width: nat): bytes
    requires width > 0 && Representable(x, width)
  {
    ToBeBytes(FlipSign(AsUnsigned(x, width), width), width)
  }

  function FromSignedKey(b: bytes): int
    requires b != []
  {
    AsSigned(FlipSign(AsUnsigned(AsSigned(FromBeBytes(b), |b|), |b|), |b|), |b|)
  }

  lemma FlipIsOffset(x: int, width: nat)
    requires width > 0 && Representable(x, width)
    ensures FlipSign(AsUnsigned(x, width), width) == x + Half(width)
  {
  }

  /** Signed keys of one width sort as their values, and read back as their values. */
  lemma SignedOrderAndRoundTrip(x: int, y: int, width: nat)
    requires width > 0 && Representable(x, width) && Representable(y, width)
    ensures Less(ToSignedKey(x, width), ToSignedKey(y, width)) <==> x < y
    ensures FromSignedKey(ToSignedKey(x, width)) == x
  {
    FlipIsOffset(x, width);
    FlipIsOffset(y, width);
    UnsignedOrder(x + Half(width), y + Half(width), width);
    BeRoundTrip(x + Half(width), width);
  }

  /** Every byte string of the width is the key of the integer it reads back as. */
  lemma SignedKeysOnto(b: bytes)
    requires b != []
    ensures Representable(FromSignedKey(b), |b|) && ToSignedKey(FromSignedKey(b), |b|) == b
  {
    BeBytesRoundTrip(b);
  }
}
