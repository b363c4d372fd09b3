// The arithmetic of interest: what it comes to, and exactly when it overflows.
module Interest {
  import opened Ints
  import opened Decimals
  import opened Outcomes
  import opened Staking

  /** The whole seconds between two times: whole, because both are cut down to seconds. */
  function Seconds(now: nat, since: nat): nat
    requires since <= now
  {
    now / NANOS - since / NANOS
  }

  /** The yearly interest on a stake for that long, before commission. */
  function Gross(now: nat, since: nat, apr: Decimal, stake: u128): nat
    requires since <= now
  {
    stake * apr * Seconds(now, since) / YEAR
  }

  /** What is left after a commission; negative if that is above 100%. */
  function Net(now: nat, since: nat, apr: Decimal, commission: Decimal, stake: u128): int
    requires since <= now
  {
    Gross(now, since, apr, stake) - Mul(Gross(now, since, apr, stake), commission)
  }

  /** A factor or a product exceeds 128 bits, or the commission exceeds the reward. */
  predicate InterestOverflows(now: nat, since: nat, apr: Decimal, commission: Decimal, stake: u128)
    requires since <= now
  {
    || FromInt(stake) > MAX_UINT128 || stake * apr > MAX_UINT128
    || FromInt(Seconds(now, since)) > MAX_UINT128 || stake * apr * Seconds(now, since) > MAX_UINT128
    || Net(now, since, apr, commission, stake) < 0
  }

  lemma SecondsBetween(now: nat, since: nat)
    requires since <= now
    ensures now >= since / NANOS * NANOS && (now - since / NANOS * NANOS) / NANOS == Seconds(now, since)
  {
  }

  /** The calculation panics iff the interest overflows, and otherwise rounds nothing but the
      division by the year and the commission. */
  lemma InterestExact(now: nat, since: nat, apr: Decimal, commission: Decimal, stake: u128)
    requires since <= now
    ensures var r := CalculateRewards(now, since, apr, commission, stake);
            && !r.Error? && (r.Panic? <==> InterestOverflows(now, since, apr, commission, stake))
            && (r.Ok? ==> r.value == Net(now, since, apr, commission, stake))
  {
    var seconds := Seconds(now, since);
    SecondsBetween(now, since);
    ExactFactor(stake, apr);
    ExactFactor(seconds, stake * apr);
    DivByInt(stake * apr * seconds, YEAR);
  }

  /** Interest to within one smallest unit, and none at all under a commission of 100% or more. */
  lemma RewardsAreInterest(now: nat, since: nat, apr: Decimal, commission: Decimal, stake: u128)
    requires since <= now && CalculateRewards(now, since, apr, commission, stake).Ok?
    ensures var r, interest := CalculateRewards(now, since, apr, commission, stake).value,
            stake * apr * Seconds(now, since);
            && (commission >= ONE ==> r == 0)
            && (commission <= ONE ==>
                  interest * (ONE - commission) - (ONE - commission) * YEAR <= ONE * YEAR * r
                  < interest * (ONE - commission) + ONE * YEAR)
  {
    InterestExact(now, since, apr, commission, stake);
    var y, gross := stake * apr * Seconds(now, since), Gross(now, since, apr, stake);
    DivBounds(y, YEAR);
    MulBounds(gross, commission);
    if commission >= ONE {
      FeeAtLeast(gross, commission);
    }
    if commission <= ONE {
      MulAtMost(gross, commission);
      NetInterest(y, gross, commission, Mul(gross, commission));
    }
  }

  lemma FeeAtLeast(gross: nat, commission: nat)
    requires commission >= ONE
    ensures Mul(gross, commission) >= gross
  {
    MulBounds(gross, commission);
    Monotone(gross, ONE, commission);
  }

  lemma NetInterest(y: nat, gross: nat, commission: nat, fee: nat)
    requires YEAR * gross <= y < YEAR * gross + YEAR && commission <= ONE && fee <= gross
    requires ONE * fee <= gross * commission < ONE * fee + ONE
    ensures var interest := y * (ONE - commission);
            interest - (ONE - commission) * YEAR <= ONE * YEAR * (gross - fee) < interest + ONE * YEAR
  {
    var keep := ONE - commission;
    Monotone(keep, YEAR * gross, y);
    Monotone(keep, y, YEAR * gross + YEAR);
    assert keep * (YEAR * gross + YEAR) == keep * (YEAR * gross) + keep * YEAR;
    assert gross * keep == gross * ONE - gross * commission;
  }

  /** Without a stake, or within a second, there is no interest. */
  lemma NoInterest(now: nat, since: nat, apr: Decimal, commission: Decimal, stake: u128)
    requires since <= now && (stake == 0 || Seconds(now, since) == 0)
    ensures Gross(now, since, apr, stake) == 0 && Net(now, since, apr, commission, stake) == 0
  {
    assert stake * apr * Seconds(now, since) == 0;
    MulZero(commission);
  }

  /** A smaller stake overflows no sooner and, where the larger earned nothing, earns nothing. */
  lemma LessStake(now: nat, since: nat, apr: Decimal, commission: Decimal, stake: u128, less: u128)
    requires since <= now && less <= stake && !InterestOverflows(now, since, apr, commission, stake)
    requires Net(now, since, apr, commission, stake) == 0
    ensures !InterestOverflows(now, since, apr, commission, less) && Net(now, since, apr, commission, less) == 0
  {
    LessProducts(stake, less, apr, Seconds(now, since));
    LessGross(Gross(now, since, apr, stake), Gross(now, since, apr, less), commission);
  }

  lemma LessProducts(stake: nat, less: nat, apr: nat, seconds: nat)
    requires less <= stake
    ensures less * apr <= stake * apr && less * apr * seconds <= stake * apr * seconds
    ensures less * apr * seconds / YEAR <= stake * apr * seconds / YEAR
  {
    Monotone(apr, less, stake);
    Monotone(seconds, less * apr, stake * apr);
    LessQuotient(less * apr * seconds, stake * apr * seconds);
  }

  lemma LessQuotient(x: nat, y: nat)
    requires x <= y
    ensures x / YEAR <= y / YEAR
  {
  }

  lemma LessGross(gross: nat, less: nat, commission: nat)
    requires less <= gross && Mul(gross, commission) == gross
    ensures Mul(less, commission) == less
  {
    MulBounds(gross, commission);
    MulBounds(less, commission);
    if less > 0 {
      // a commission below 100% leaves something of every positive reward
      if commission < ONE { Monotone(gross, commission, ONE - 1); }
      Monotone(less, ONE, commission);
      Excess(gross, less, commission - ONE);
    }
  }

  lemma Excess(gross: nat, less: nat, over: nat)
    requires less <= gross && gross * (over + ONE) < ONE * gross + ONE
    ensures less * (over + ONE) < ONE * less + ONE
  {
    Monotone(over, less, gross);
    assert gross * (over + ONE) == gross * over + ONE * gross && less * (over + ONE) == less * over + ONE * less;
  }

  /** Two hundred trillion coins, left for a year at 10%: a product of the calculation no longer
      fits, although the reward would. */
  lemma YearOverflows()
    ensures CalculateRewards(YEAR * NANOS, 0, ONE / 10, 0, 200_000_000_000_000) == Panic
  {
    InterestExact(YEAR * NANOS, 0, ONE / 10, 0, 200_000_000_000_000);
  }
}
