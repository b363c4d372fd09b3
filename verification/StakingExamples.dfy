// Inputs at which the staking module does not do what a caller would expect.
module StakingExamples {
  import opened Bytes
  import opened Ints
  import opened Balances
  import opened Bank
  import opened Decimals
  import opened Outcomes
  import opened Staking
  import opened StakingInvariants
  import opened Payouts
  import opened StakingOverflows
  import opened Rewards

  // ---------------------------------------------------------------------------
  // Large stakes
  // ---------------------------------------------------------------------------

  const LARGE: u128 := 200_000_000_000_000_000_000

  /** Two delegators stake 2 * 10^20 each, in the first block. */
  function LargeStakes(d: Addr, e: Addr, v: Addr, denom: bytes): seq<Event> {
    [Event(0, AddValidator(Validator(v, 0))), Event(0, Delegate(d, v, Coin(denom, LARGE))),
        Event(0, Delegate(e, v, Coin(denom, LARGE)))]
  }

  /** Both delegations go through, but together they are too large for a fixed-point number:
      in every later block whatever brings the validator's rewards up to date aborts. */
  lemma LargeStakesAbort(st: State, d: Addr, e: Addr, v: Addr, denom: bytes, now: nat, x: Addr, amount: u128,
                         percentage: Decimal)
    requires Genesis(st) && st.info.bondedDenom == denom && d != e && d != MODULE && e != MODULE
    requires Held(st.bank, d, denom) >= LARGE && Held(st.bank, e, denom) >= LARGE && Vault(st) == 0
    requires now > 0 && percentage <= ONE
    ensures var s := Run(st, LargeStakes(d, e, v, denom));
            && TimeOrdered(LargeStakes(d, e, v, denom)) && v in s.infos && s.infos[v].stake == 2 * LARGE
            && DoDelegate(s, now, x, v, Coin(denom, amount)) == Panic
                  && DoUndelegate(s, now, x, v, Coin(denom, amount)) == Panic
            && DoWithdraw(s, now, x, v) == Panic && Slash(s, now, v, percentage) == Panic
  {
    LargeStakesState(st, d, e, v, denom);
    AllAbort(Run(st, LargeStakes(d, e, v, denom)), now, v, denom, x, amount, percentage);
  }

  ghost predicate BothStaked(st: State, v: Addr, denom: bytes) {
    Sound(st, 0) && st.info.bondedDenom == denom && v in st.infos && st.infos[v].last == 0
        && st.infos[v].stake == 2 * LARGE
  }

  lemma LargeStakesState(st: State, d: Addr, e: Addr, v: Addr, denom: bytes)
    requires Genesis(st) && st.info.bondedDenom == denom && d != e && d != MODULE && e != MODULE
    requires Held(st.bank, d, denom) >= LARGE && Held(st.bank, e, denom) >= LARGE && Vault(st) == 0
    ensures BothStaked(Run(st, LargeStakes(d, e, v, denom)), v, denom)
  {
    RunThree(st, Event(0, AddValidator(Validator(v, 0))), Event(0, Delegate(d, v, Coin(denom, LARGE))),
             Event(0, Delegate(e, v, Coin(denom, LARGE))));
    ReachableSound(st, [], 0);
    FirstValidator(st, v);
    BothStake(Step(st, Event(0, AddValidator(Validator(v, 0)))), d, e, v, denom);
  }

  lemma FirstValidator(st: State, v: Addr)
    requires Genesis(st) && Sound(st, 0)
    ensures var s := Step(st, Event(0, AddValidator(Validator(v, 0))));
            && Sound(s, 0) && s.info == st.info && s.bank == st.bank && s.stakes == map[]
            && v in s.infos && s.infos[v].stake == 0
  {
    AddValidatorSound(st, 0, Validator(v, 0));
  }

  lemma BothStake(st: State, d: Addr, e: Addr, v: Addr, denom: bytes)
    requires Sound(st, 0) && st.info.bondedDenom == denom && d != e && d != MODULE && e != MODULE
    requires v in st.infos && st.infos[v].stake == 0 && Vault(st) == 0
    requires StakeAt(st, (d, v)) == 0 && StakeAt(st, (e, v)) == 0
    requires Held(st.bank, d, denom) >= LARGE && Held(st.bank, e, denom) >= LARGE
    ensures BothStaked(Step(Step(st, Event(0, Delegate(d, v, Coin(denom, LARGE)))),
            Event(0, Delegate(e, v, Coin(denom, LARGE)))), v, denom)
  {
    StakesLarge(st, d, v, denom, 0);
    DelegateSound(st, 0, d, v, Coin(denom, LARGE));
    var st1 := DoDelegate(st, 0, d, v, Coin(denom, LARGE)).value;
    StakesLarge(st1, e, v, denom, LARGE);
    DelegateSound(st1, 0, e, v, Coin(denom, LARGE));
  }

  lemma RunThree(st: State, a: Event, b: Event, c: Event)
    ensures Run(st, [a, b, c]) == Step(Step(Step(st, a), b), c) && Run(st, [a]) == Step(st, a)
  {
    assert Run(st, []) == st;
    assert [a][..0] == [] && [a, b][..1] == [a] && [a, b, c][..2] == [a, b];
    assert Run(st, [a, b]) == Step(Step(st, a), b);
  }

  /** A large stake on top of `before` in the block of the validator's last calculation. */
  lemma StakesLarge(st: State, d: Addr, v: Addr, denom: bytes, before: nat)
    requires Sound(st, 0) && st.info.bondedDenom == denom && d != MODULE && v in st.infos
    requires st.infos[v].stake == before <= LARGE && Vault(st) == before && StakeAt(st, (d, v)) == 0
    requires Held(st.bank, d, denom) >= LARGE
    ensures var r := DoDelegate(st, 0, d, v, Coin(denom, LARGE));
            && r.Ok? && r.value == st.(stakes := r.value.stakes, infos := r.value.infos, bank := r.value.bank)
            && v in r.value.infos && r.value.infos[v].last == 0 && r.value.infos[v].stake == before + LARGE
            && Vault(r.value) == before + LARGE
            && (forall e: Addr | e != d :: StakeAt(r.value, (e, v)) == StakeAt(st, (e, v)))
            && (forall e: Addr | e != d && e != MODULE :: Held(r.value.bank, e, denom) == Held(st.bank, e, denom))
  {
    var c := Coin(denom, LARGE);
    assert st.infos[v].last <= 0;
    ChangeStakeOutcome(st, 0, d, v, c, false);
    UpdateStakeEffect(st, 0, d, v, LARGE, false);
    SendOneExact(st.bank, d, MODULE, c);
  }

  lemma AllAbort(st: State, now: nat, v: Addr, denom: bytes, x: Addr, amount: u128, percentage: Decimal)
    requires Sound(st, 0) && st.info.bondedDenom == denom && v in st.infos && st.infos[v].last == 0 < now
    requires FromInt(st.infos[v].stake) > MAX_UINT128 && percentage <= ONE
    ensures DoDelegate(st, now, x, v, Coin(denom, amount)) == Panic
    ensures DoUndelegate(st, now, x, v, Coin(denom, amount)) == Panic
    ensures DoWithdraw(st, now, x, v) == Panic && Slash(st, now, v, percentage) == Panic
  {
    SoundLater(st, 0, now);
    assert v in st.validatorMap;
    assert RewardsOverflow(st, now, v);
    DelegatePanics(st, now, x, v, Coin(denom, amount));
    UndelegatePanics(st, now, x, v, Coin(denom, amount));
    WithdrawPanics(st, now, x, v);
    SlashPanics(st, now, v, percentage);
  }

  /** One delegation of 10^21 aborts at once. */
  lemma LargeStakeAborts(st: State, now: nat, d: Addr, v: Addr)
    requires Sound(st, now) && v in st.infos
    ensures DoDelegate(st, now, d, v, Coin(st.info.bondedDenom, 5 * LARGE)) == Panic
  {
    DelegatePanics(st, now, d, v, Coin(st.info.bondedDenom, 5 * LARGE));
  }

  // ---------------------------------------------------------------------------
  // After a slash the query can divide by zero
  // ---------------------------------------------------------------------------

  /** Two coins staked, a quarter slashed, one coin taken back: half a share is left against
      a whole stake of zero. The query divides by it; a withdrawal fails, having nothing to mint. */
  lemma QueryPanicsAfterSlash(st: State, d: Addr, v: Addr, denom: bytes)
    requires Genesis(st) && st.info.bondedDenom == denom && d != MODULE && Held(st.bank, d, denom) == 2
    requires Vault(st) <= MAX_UINT128 - 2 && PayoutAt(st.info, 0) <= MAX_UINT64
    ensures var run := QuarterSlashed(d, v, denom);
            && TimeOrdered(run) && QueryRewards(Run(st, run), 0, d, v) == Panic
                  && DoWithdraw(Run(st, run), 0, d, v) == Error
  {
    RunQuarterSlashed(st, d, v, denom);
    QuarterSlashedState(st, d, v, denom);
    ReachableSound(st, QuarterSlashed(d, v, denom), 0);
    StakelessQuery(Run(st, QuarterSlashed(d, v, denom)), d, v);
  }

  ghost predicate StakelessEntry(st: State, d: Addr, v: Addr) {
    && v in st.infos && v in st.validatorMap && st.infos[v].stake == 0 && st.infos[v].last == 0
    && (d, v) in st.stakes && st.stakes[(d, v)].rewards == 0
  }

  lemma StakelessQuery(st: State, d: Addr, v: Addr)
    requires Sound(st, 0) && StakelessEntry(st, d, v)
    ensures QueryRewards(st, 0, d, v) == Panic && DoWithdraw(st, 0, d, v) == Error
  {
    QueryAgreesWithWithdrawal(st, 0, d, v);
  }

  function QuarterSlashed(d: Addr, v: Addr, denom: bytes): seq<Event> {
    [Event(0, AddValidator(Validator(v, 0))), Event(0, Delegate(d, v, Coin(denom, 2))),
     Event(0, SlashValidator(v, ONE / 4)), Event(0, Undelegate(d, v, Coin(denom, 1)))]
  }

  function StakedState(st: State, d: Addr, v: Addr, denom: bytes): State {
    Step(Step(st, Event(0, AddValidator(Validator(v, 0)))), Event(0, Delegate(d, v, Coin(denom, 2))))
  }

  function SlashedState(st: State, d: Addr, v: Addr, denom: bytes): State {
    Step(StakedState(st, d, v, denom), Event(0, SlashValidator(v, ONE / 4)))
  }

  lemma RunQuarterSlashed(st: State, d: Addr, v: Addr, denom: bytes)
    ensures TimeOrdered(QuarterSlashed(d, v, denom))
    ensures Run(st, QuarterSlashed(d, v, denom))
            == Step(SlashedState(st, d, v, denom), Event(0, Undelegate(d, v, Coin(denom, 1))))
  {
    RunFour(st, Event(0, AddValidator(Validator(v, 0))), Event(0, Delegate(d, v, Coin(denom, 2))),
            Event(0, SlashValidator(v, ONE / 4)), Event(0, Undelegate(d, v, Coin(denom, 1))));
  }

  lemma QuarterSlashedState(st: State, d: Addr, v: Addr, denom: bytes)
    requires Genesis(st) && st.info.bondedDenom == denom && d != MODULE && Held(st.bank, d, denom) == 2
    requires Vault(st) <= MAX_UINT128 - 2 && PayoutAt(st.info, 0) <= MAX_UINT64
    ensures StakelessEntry(Step(SlashedState(st, d, v, denom), Event(0, Undelegate(d, v, Coin(denom, 1)))), d, v)
  {
    SlashedStateShape(st, d, v, denom);
    UndelegateOne(SlashedState(st, d, v, denom), d, v, denom);
  }

  lemma SlashedStateShape(st: State, d: Addr, v: Addr, denom: bytes)
    requires Genesis(st) && st.info.bondedDenom == denom && d != MODULE && Held(st.bank, d, denom) == 2
    requires Vault(st) <= MAX_UINT128 - 2
    ensures var s := SlashedState(st, d, v, denom);
            && v in s.infos && s.infos[v] == ValidatorInfo({d}, 1, 0) && SharesAt(s, (d, v)) == Shares(3 * (ONE / 2), 0)
            && v in s.validatorMap && s.info == st.info
  {
    StakedStateShape(st, d, v, denom);
    SlashQuarter(StakedState(st, d, v, denom), d, v);
  }

  lemma StakedStateShape(st: State, d: Addr, v: Addr, denom: bytes)
    requires Genesis(st) && st.info.bondedDenom == denom && d != MODULE && Held(st.bank, d, denom) == 2
    requires Vault(st) <= MAX_UINT128 - 2
    ensures var s := StakedState(st, d, v, denom);
            && s.stakes == map[(d, v) := Shares(2 * ONE, 0)] && s.infos == map[v := ValidatorInfo({d}, 2, 0)]
            && v in s.validatorMap && s.info == st.info
  {
    assert st.infos[v := ValidatorInfo({}, 0, 0)] == map[v := ValidatorInfo({}, 0, 0)];
    DelegateTwo(Step(st, Event(0, AddValidator(Validator(v, 0)))), d, v, denom);
  }

  lemma RunFour(st: State, a: Event, b: Event, c: Event, d: Event)
    ensures Run(st, [a, b, c, d]) == Step(Step(Step(Step(st, a), b), c), d)
  {
    assert Run(st, []) == st;
    assert [a][..0] == [] && [a, b][..1] == [a] && [a, b, c][..2] == [a, b] && [a, b, c, d][..3] == [a, b, c];
    assert Run(st, [a]) == Step(st, a);
    assert Run(st, [a, b]) == Step(Step(st, a), b);
    assert Run(st, [a, b, c]) == Step(Step(Step(st, a), b), c);
  }

  lemma SlashQuarter(st: State, d: Addr, v: Addr)
    requires st.stakes == map[(d, v) := Shares(2 * ONE, 0)] && st.infos == map[v := ValidatorInfo({d}, 2, 0)]
    requires v in st.validatorMap
    ensures var s := Step(st, Event(0, SlashValidator(v, ONE / 4)));
            && s == st.(stakes := s.stakes, infos := s.infos)
            && v in s.infos && s.infos[v] == ValidatorInfo({d}, 1, 0)
            && SharesAt(s, (d, v)) == Shares(3 * (ONE / 2), 0)
  {
    assert UpdateRewards(st, 0, v) == Ok(st);
    assert IntMul(2, ONE - ONE / 4) == 1 && Mul(2 * ONE, ONE - ONE / 4) == 3 * (ONE / 2);
  }

  lemma UndelegateOne(st: State, d: Addr, v: Addr, denom: bytes)
    requires v in st.validatorMap && st.info.bondedDenom == denom && PayoutAt(st.info, 0) <= MAX_UINT64
    requires v in st.infos && st.infos[v] == ValidatorInfo({d}, 1, 0)
    requires SharesAt(st, (d, v)) == Shares(3 * (ONE / 2), 0)
    ensures StakelessEntry(Step(st, Event(0, Undelegate(d, v, Coin(denom, 1)))), d, v)
  {
    assert UpdateRewards(st, 0, v) == Ok(st);
    assert FromInt(1) == ONE;
  }

  lemma DelegateTwo(st: State, d: Addr, v: Addr, denom: bytes)
    requires st.stakes == map[] && st.infos == map[v := ValidatorInfo({}, 0, 0)] && v in st.validatorMap
    requires AllNormalized(st.bank) && st.info.bondedDenom == denom && d != MODULE && Held(st.bank, d, denom) == 2
    requires Vault(st) <= MAX_UINT128 - 2
    ensures var r := DoDelegate(st, 0, d, v, Coin(denom, 2));
            && r.Ok? && r.value == st.(stakes := r.value.stakes, infos := r.value.infos, bank := r.value.bank)
            && r.value.stakes == map[(d, v) := Shares(2 * ONE, 0)]
                  && r.value.infos == map[v := ValidatorInfo({d}, 2, 0)]
  {
    StakeTwo(st, d, v, denom);
    SendOneExact(st.bank, d, MODULE, Coin(denom, 2));
  }

  lemma StakeTwo(st: State, d: Addr, v: Addr, denom: bytes)
    requires st.stakes == map[] && st.infos == map[v := ValidatorInfo({}, 0, 0)] && v in st.validatorMap
    requires st.info.bondedDenom == denom
    ensures ChangeStake(st, 0, d, v, Coin(denom, 2), false)
            == Ok(st.(stakes := map[(d, v) := Shares(2 * ONE, 0)], infos := map[v := ValidatorInfo({d}, 2, 0)]))
  {
    assert UpdateRewards(st, 0, v) == Ok(st);
    var none: set<Addr> := {};
    assert none + {d} == {d};
    assert st.stakes[(d, v) := Shares(2 * ONE, 0)] == map[(d, v) := Shares(2 * ONE, 0)];
    assert st.infos[v := ValidatorInfo({d}, 2, 0)] == map[v := ValidatorInfo({d}, 2, 0)];
  }
}
