// Fixed-point numbers: a `Decimal` counts units of 10^-18 in 128 bits, and every
// multiplication and division rounds down. Intermediate results have 256 bits.
module Decimals {
  import opened Ints
  import opened Outcomes

  type Decimal = u128

  /** A result that does not fit panics. */
  function Fit(x: nat): Outcome<Decimal> {
    if x > MAX_UINT128 then Panic else Ok(x)
  }

  const ONE: nat := 1_000_000_000_000_000_000

  function Mul(a: nat, b: nat): nat { a * b / ONE }

  function Div(a: nat, b: nat): nat
    requires b > 0
  {
    a * ONE / b
  }

  function FromInt(n: nat): nat { n * ONE }

  /** `Uint128 * Decimal`. */
  function IntMul(n: nat, d: nat): nat { n * d / ONE }

  lemma DivBounds(x: nat, d: nat)
    requires d > 0
    ensures d * (x / d) <= x < d * (x / d) + d
  {
  }

  lemma MulBounds(a: nat, b: nat)
    ensures ONE * Mul(a, b) <= a * b < ONE * Mul(a, b) + ONE
  {
    DivBounds(a * b, ONE);
  }

  /** Scaling by at most one never grows a number. */
  lemma MulAtMost(a: nat, b: nat)
    requires b <= ONE
    ensures Mul(a, b) <= a
  {
    MulBounds(a, b);
    Monotone(a, b, ONE);
  }

  function ScaleDown(a: Decimal, p: Decimal): (r: Decimal)
    requires p <= ONE
    ensures r <= a
  {
    MulAtMost(a, p);
    Mul(a, p)
  }

  lemma Monotone(a: nat, x: nat, y: nat)
    requires x <= y
    ensures a * x <= a * y
  {
  }

  /** Multiplying by a whole number does not round. */
  lemma ExactFactor(n: nat, d: nat)
    ensures Mul(FromInt(n), d) == Mul(d, FromInt(n)) == n * d
  {
    assert n * ONE * d == n * d * ONE == d * (n * ONE);
  }

  /** Dividing by a whole number rounds once. */
  lemma DivByInt(x: nat, n: nat)
    requires n > 0
    ensures FromInt(n) > 0 && Div(x, FromInt(n)) == x / n <= x
  {
    DivBounds(x, n);
    Monotone(x / n, 1, n);
    var q, r := x / n, x % n;
    assert x * ONE == (n * ONE) * q + r * ONE;
    assert 0 <= r * ONE < n * ONE;
    Quotient(x * ONE, n * ONE, q, r * ONE);
  }

  lemma Quotient(x: nat, d: nat, q: nat, r: nat)
    requires d > 0 && x == d * q + r && r < d
    ensures x / d == q
  {
    DivBounds(x, d);
    if x / d > q { Monotone(d, q + 1, x / d); }
    if x / d < q { Monotone(d, x / d + 1, q); }
  }

  lemma MulZero(a: nat)
    ensures Mul(a, 0) == 0 && Mul(0, a) == 0
  {
  }

  /** Flooring twice, first by `ONE` and then by `stake`, floors by their product. */
  lemma NestedFloors(x: nat, stake: nat)
    requires stake > 0
    ensures var q := x / ONE / stake; ONE * stake * q <= x < ONE * stake * q + ONE * stake
  {
    var q1 := x / ONE;
    var q := q1 / stake;
    DivBounds(x, ONE);
    DivBounds(q1, stake);
    NestedStep(x, q1, q, stake);
  }

  lemma NestedStep(x: nat, q1: nat, q: nat, stake: nat)
    requires ONE * q1 <= x < ONE * q1 + ONE
    requires stake * q <= q1 < stake * q + stake
    ensures ONE * stake * q <= x < ONE * stake * q + ONE * stake
  {
    Monotone(ONE, stake * q, q1);
    Monotone(ONE, q1 + 1, stake * q + stake);
    assert ONE * (stake * q) == ONE * stake * q;
    assert ONE * (stake * q + stake) == ONE * stake * q + ONE * stake;
    assert ONE * (q1 + 1) == ONE * q1 + ONE;
  }
}
