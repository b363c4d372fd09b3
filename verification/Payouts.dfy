// What processing the unbonding queue does, in any state: which payouts go through,
// and which one stops the rest.
module Payouts {
  import opened Bytes
  import opened Ints
  import opened Balances
  import opened Bank
  import opened Staking

  function Queued(q: seq<Unbonding>): nat {
    if q == [] then 0 else q[0].amount + Queued(q[1..])
  }

  /** What the queue entries add up to for one delegator. */
  function PaidTo(q: seq<Unbonding>, a: Addr): nat {
    if q == [] then 0 else (if q[0].delegator == a then q[0].amount else 0) + PaidTo(q[1..], a)
  }

  function Vault(st: State): nat {
    Held(st.bank, MODULE, st.info.bondedDenom)
  }

  /** The length of the longest prefix of the queue that has matured. */
  function Matured(q: seq<Unbonding>, now: nat): (n: nat)
    ensures n <= |q| && (forall i | 0 <= i < n :: q[i].payoutAt <= now)
    ensures n < |q| ==> q[n].payoutAt > now
  {
    if q == [] || q[0].payoutAt > now then 0 else 1 + Matured(q[1..], now)
  }

  /** What the vault holds when the `j`-th entry's turn comes covers it. */
  predicate Affordable(st: State, j: nat)
    requires j < |st.queue|
  {
    st.queue[j].amount <= Vault(st) - Queued(st.queue[..j]) + PaidTo(st.queue[..j], MODULE)
  }

  /** With everything up to the `j`-th entry, its delegator would hold more than fits. */
  predicate Overfull(st: State, j: nat)
    requires j < |st.queue|
  {
    var a := st.queue[j].delegator;
    a != MODULE && Held(st.bank, a, st.info.bondedDenom) + PaidTo(st.queue[..j + 1], a) > MAX_UINT128
  }

  /** The module account paid a whole prefix of the queue, entry by entry. */
  ghost predicate PaidOut(before: Ledger, after: Ledger, paid: seq<Unbonding>, denom: bytes) {
    forall a, d :: Held(after, a, d) == Held(before, a, d)
                     + (if d == denom then PaidTo(paid, a) - (if a == MODULE then Queued(paid) else 0) else 0)
  }

  // ---------------------------------------------------------------------------
  // The front of the queue
  // ---------------------------------------------------------------------------

  /** The state once the front of the queue is paid. */
  function FrontPaid(st: State): State
    requires st.queue != []
  {
    var u, st1 := st.queue[0], st.(queue := st.queue[1..]);
    if u.amount == 0 then st1
    else
      match Send(st.bank, MODULE, u.delegator, [Coin(st.info.bondedDenom, u.amount)])
      case Ok(bank) => st1.(bank := bank)
      case _ => st1
  }

  ghost predicate PaidOne(before: Ledger, after: Ledger, u: Unbonding, denom: bytes) {
    forall a, d :: Held(after, a, d) == Held(before, a, d)
      + (if d == denom then (if u.delegator == a then u.amount else 0) - (if a == MODULE then u.amount else 0) else 0)
  }

  /** The front goes through: it has matured, is covered, and fits. */
  predicate FrontPays(st: State, now: nat) {
    st.queue != [] && st.queue[0].payoutAt <= now && Affordable(st, 0) && !Overfull(st, 0)
  }

  lemma FrontAlone(st: State)
    requires st.queue != [] && AllNormalized(st.bank)
    ensures var u := st.queue[0];
            && (Affordable(st, 0) <==> u.amount <= Vault(st))
            && (Overfull(st, 0) <==> u.delegator != MODULE
                                     && Held(st.bank, u.delegator, st.info.bondedDenom) + u.amount > MAX_UINT128)
            && (Overfull(st, 0) ==> u.amount > 0)
  {
    var u := st.queue[0];
    assert st.queue[..0] == [] && st.queue[..1] == [u];
    assert PaidTo([u], u.delegator) == u.amount + PaidTo([u][1..], u.delegator);
    NormalizedFits(BalanceOf(st.bank, st.queue[0].delegator));
  }

  lemma FrontStops(st: State, now: nat)
    requires AllNormalized(st.bank) && st.queue != [] && st.queue[0].payoutAt <= now
    ensures !Affordable(st, 0) ==> DoProcessQueue(st, now).Error?
    ensures Affordable(st, 0) && Overfull(st, 0) ==> DoProcessQueue(st, now).Panic?
  {
    var u := st.queue[0];
    FrontAlone(st);
    if u.amount > 0 {
      SendOneExact(st.bank, MODULE, u.delegator, Coin(st.info.bondedDenom, u.amount));
    }
  }

  lemma FrontGoesThrough(st: State, now: nat)
    requires AllNormalized(st.bank) && FrontPays(st, now)
    ensures var st1 := FrontPaid(st);
            && DoProcessQueue(st, now) == DoProcessQueue(st1, now)
            && st1 == st.(queue := st.queue[1..], bank := st1.bank) && AllNormalized(st1.bank)
            && PaidOne(st.bank, st1.bank, st.queue[0], st.info.bondedDenom)
  {
    var u := st.queue[0];
    FrontAlone(st);
    if u.amount > 0 {
      SendOneExact(st.bank, MODULE, u.delegator, Coin(st.info.bondedDenom, u.amount));
    }
  }

  /** Whether a later entry goes through is the same before and after the front is paid. */
  lemma LaterEntries(st: State, now: nat, j: nat)
    requires AllNormalized(st.bank) && FrontPays(st, now) && 0 < j < |st.queue|
    ensures |FrontPaid(st).queue| == |st.queue| - 1
    ensures Affordable(st, j) <==> Affordable(FrontPaid(st), j - 1)
    ensures Overfull(st, j) <==> Overfull(FrontPaid(st), j - 1)
  {
    FrontGoesThrough(st, now);
    var q, st1, a := st.queue, FrontPaid(st), st.queue[j].delegator;
    assert q[..j][1..] == st1.queue[..j - 1] && q[..j + 1][1..] == st1.queue[..j];
    assert Held(st1.bank, MODULE, st.info.bondedDenom)
           == Vault(st) + (if q[0].delegator == MODULE then q[0].amount else 0) - q[0].amount;
    if a != MODULE {
      assert Held(st1.bank, a, st.info.bondedDenom)
             == Held(st.bank, a, st.info.bondedDenom) + if q[0].delegator == a then q[0].amount else 0;
    }
  }

  // ---------------------------------------------------------------------------
  // The whole queue
  // ---------------------------------------------------------------------------

  /** Some matured payout overflows its recipient, and the vault lasts until its turn. */
  ghost predicate PayoutOverflows(st: State, now: nat) {
    exists j: nat :: j < Matured(st.queue, now) && OverflowsAt(st, j)
  }

  ghost predicate OverflowsAt(st: State, j: nat)
    requires j < |st.queue|
  {
    Overfull(st, j) && forall i: nat | i <= j :: Affordable(st, i)
  }

  ghost predicate AllGoThrough(st: State, now: nat) {
    forall j: nat | j < Matured(st.queue, now) :: Affordable(st, j) && !Overfull(st, j)
  }

  lemma OverflowsLater(st: State, now: nat)
    requires AllNormalized(st.bank) && FrontPays(st, now)
    ensures PayoutOverflows(st, now) <==> PayoutOverflows(FrontPaid(st), now)
  {
    var st1 := FrontPaid(st);
    FrontGoesThrough(st, now);
    if PayoutOverflows(st, now) {
      var j: nat :| j < Matured(st.queue, now) && OverflowsAt(st, j);
      LaterEntries(st, now, j);
      forall i: nat | i <= j - 1 ensures Affordable(st1, i) { LaterEntries(st, now, i + 1); }
      assert OverflowsAt(st1, j - 1);
    }
    if PayoutOverflows(st1, now) {
      var j: nat :| j < Matured(st1.queue, now) && OverflowsAt(st1, j);
      LaterEntries(st, now, j + 1);
      forall i: nat | i <= j + 1 ensures Affordable(st, i) {
        if i > 0 { LaterEntries(st, now, i); }
      }
      assert OverflowsAt(st, j + 1);
    }
  }

  lemma GoThroughLater(st: State, now: nat)
    requires AllNormalized(st.bank) && FrontPays(st, now)
    ensures AllGoThrough(st, now) <==> AllGoThrough(FrontPaid(st), now)
  {
    var st1 := FrontPaid(st);
    FrontGoesThrough(st, now);
    if AllGoThrough(st, now) {
      forall j: nat | j < Matured(st1.queue, now) ensures Affordable(st1, j) && !Overfull(st1, j) {
        LaterEntries(st, now, j + 1);
      }
    }
    if AllGoThrough(st1, now) {
      forall j: nat | j < Matured(st.queue, now) ensures Affordable(st, j) && !Overfull(st, j) {
        if j > 0 {
          LaterEntries(st, now, j);
          assert Affordable(st1, j - 1) && !Overfull(st1, j - 1);
        }
      }
    }
  }

  /** Processing aborts iff a matured payout overflows its recipient before the vault runs dry,
      and succeeds iff all matured payouts are covered and fit; it fails otherwise. */
  lemma {:induction false} ProcessQueueOutcome(st: State, now: nat)
    requires AllNormalized(st.bank)
    ensures DoProcessQueue(st, now).Panic? <==> PayoutOverflows(st, now)
    ensures DoProcessQueue(st, now).Ok? <==> AllGoThrough(st, now)
    decreases |st.queue|
  {
    if st.queue != [] && st.queue[0].payoutAt <= now {
      FrontStops(st, now);
      assert Matured(st.queue, now) > 0;
      if FrontPays(st, now) {
        FrontGoesThrough(st, now);
        ProcessQueueOutcome(FrontPaid(st), now);
        OverflowsLater(st, now);
        GoThroughLater(st, now);
      } else if Affordable(st, 0) {
        assert OverflowsAt(st, 0);
      }
    }
  }

  /** Exactly the matured prefix was paid, front first and each entry once, and the rest of
      the queue stays as it was. */
  ghost predicate Paid(st: State, now: nat, st': State) {
    var n := Matured(st.queue, now);
    && st' == st.(queue := st.queue[n..], bank := st'.bank)
    && PaidOut(st.bank, st'.bank, st.queue[..n], st.info.bondedDenom) && AllNormalized(st'.bank)
  }

  lemma PaidOutCons(before: Ledger, mid: Ledger, after: Ledger, q: seq<Unbonding>, n: nat, denom: bytes)
    requires 0 < n <= |q| && PaidOne(before, mid, q[0], denom) && PaidOut(mid, after, q[1..][..n - 1], denom)
    ensures PaidOut(before, after, q[..n], denom)
  {
    assert q[..n][1..] == q[1..][..n - 1];
    forall a, d ensures Held(after, a, d) == Held(before, a, d)
                          + (if d == denom then PaidTo(q[..n], a) - (if a == MODULE then Queued(q[..n]) else 0)
                              else 0) {
      assert Held(mid, a, d) == Held(before, a, d)
               + (if d == denom then (if q[0].delegator == a then q[0].amount else 0)
                                     - (if a == MODULE then q[0].amount else 0) else 0);
    }
  }

  lemma PaidStep(st: State, now: nat, st': State)
    requires AllNormalized(st.bank) && FrontPays(st, now) && Paid(FrontPaid(st), now, st')
    ensures Paid(st, now, st')
  {
    var st1, n := FrontPaid(st), Matured(st.queue, now);
    FrontGoesThrough(st, now);
    assert Matured(st1.queue, now) == n - 1;
    assert st.queue[1..][n - 1..] == st.queue[n..];
    PaidOutCons(st.bank, st1.bank, st'.bank, st.queue, n, st.info.bondedDenom);
  }

  lemma {:induction false} ProcessQueuePays(st: State, now: nat)
    requires AllNormalized(st.bank) && DoProcessQueue(st, now).Ok?
    ensures Paid(st, now, DoProcessQueue(st, now).value)
    decreases |st.queue|
  {
    if st.queue != [] && st.queue[0].payoutAt <= now {
      FrontStops(st, now);
      FrontGoesThrough(st, now);
      ProcessQueuePays(FrontPaid(st), now);
      PaidStep(st, now, DoProcessQueue(st, now).value);
    } else {
      assert st.queue[..0] == [];
    }
  }
}
