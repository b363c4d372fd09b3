// Exactly which messages abort, read off the state they arrive in.
module StakingOverflows {
  import opened Ints
  import opened Balances
  import opened Bank
  import opened Decimals
  import opened Outcomes
  import opened Staking
  import opened StakingInvariants
  import opened Interest
  import opened Payouts

  // ---------------------------------------------------------------------------
  // Updating rewards
  // ---------------------------------------------------------------------------

  /** What a part of a whole stake gets of the rewards. */
  function Share(rewards: nat, part: nat, whole: nat): nat
    requires whole > 0
  {
    Mul(rewards, part) / whole
  }

  /** Sharing out `rewards` overflows for one staker: in the product, or in the sum with
      what it holds already. Without a whole stake it would divide by zero. */
  predicate CreditOverflows(shares: Shares, stake: u128, rewards: nat) {
    || stake == 0 || Mul(rewards, shares.stake) > MAX_UINT128
    || shares.rewards + Share(rewards, shares.stake, stake) > MAX_UINT128
  }

  lemma CreditExact(shares: Shares, stake: u128, rewards: Decimal)
    ensures var r := Credit(shares, stake, rewards);
            && !r.Error? && (r.Panic? <==> CreditOverflows(shares, stake, rewards))
            && (r.Ok? ==> r.value == shares.(rewards := shares.rewards + Share(rewards, shares.stake, stake)))
  {
  }

  /** What a validator has earned since its last calculation. */
  function NewRewards(st: State, now: nat, v: Addr): int
    requires v in st.infos && v in st.validatorMap && st.infos[v].last <= now
  {
    Net(now, st.infos[v].last, st.info.apr, st.validatorMap[v].commission, st.infos[v].stake)
  }

  predicate NewRewardsOverflow(st: State, now: nat, v: Addr)
    requires v in st.infos && v in st.validatorMap && st.infos[v].last <= now
  {
    InterestOverflows(now, st.infos[v].last, st.info.apr, st.validatorMap[v].commission, st.infos[v].stake)
  }

  /** Some staker's entry cannot be credited with the new rewards. */
  ghost predicate SharesOverflow(st: State, v: Addr, rewards: nat)
    requires v in st.infos
  {
    exists k :: k in st.stakes && k.1 == v && CreditOverflows(st.stakes[k], st.infos[v].stake, rewards)
  }

  /** Bringing a validator's rewards up to date overflows. */
  ghost predicate RewardsOverflow(st: State, now: nat, v: Addr) {
    && v in st.infos && v in st.validatorMap && st.infos[v].last < now
    && (NewRewardsOverflow(st, now, v) || (NewRewards(st, now, v) > 0 && SharesOverflow(st, v, NewRewards(st, now, v))))
  }

  lemma AllCreditIff(st: State, v: Addr, rewards: Decimal)
    requires StakersExact(st) && v in st.infos
    ensures AllCredit(st.stakes, st.infos[v].stakers, v, st.infos[v].stake, rewards)
            <==> !SharesOverflow(st, v, rewards)
  {
    var stakers, stake := st.infos[v].stakers, st.infos[v].stake;
    if SharesOverflow(st, v, rewards) {
      var k :| k in st.stakes && k.1 == v && CreditOverflows(st.stakes[k], stake, rewards);
      assert k.0 in stakers <==> (k.0, v) in st.stakes;
      assert k == (k.0, v);
      CreditExact(st.stakes[k], stake, rewards);
    } else {
      forall s | s in stakers ensures (s, v) in st.stakes && Credit(st.stakes[(s, v)], stake, rewards).Ok? {
        CreditExact(st.stakes[(s, v)], stake, rewards);
      }
    }
  }

  /** Neither the `expect` on a staker's entry nor the division by the stake can fail: an
      update panics iff an overflow stops it. */
  lemma UpdateRewardsPanics(st: State, now: nat, v: Addr)
    requires Sound(st, now)
    ensures UpdateRewards(st, now, v) == Error <==> v !in st.infos
    ensures UpdateRewards(st, now, v).Panic? <==> RewardsOverflow(st, now, v)
  {
    if v in st.infos && st.infos[v].last < now {
      var vi := st.infos[v];
      assert v in st.validatorMap;
      InterestExact(now, vi.last, st.info.apr, st.validatorMap[v].commission, vi.stake);
      if !NewRewardsOverflow(st, now, v) && NewRewards(st, now, v) > 0 {
        AllCreditIff(st, v, NewRewards(st, now, v));
      }
    }
  }

  // ---------------------------------------------------------------------------
  // Changing a stake
  // ---------------------------------------------------------------------------

  /** Too large for a fixed-point number, by itself or on top of what is staked already. */
  predicate StakeOverflows(st: State, d: Addr, v: Addr, amount: u128, sub: bool) {
    FromInt(amount) > MAX_UINT128 || (!sub && StakeAt(st, (d, v)) + FromInt(amount) > MAX_UINT128)
  }

  ghost predicate ChangeOverflows(st: State, now: nat, d: Addr, v: Addr, amount: Coin, sub: bool) {
    && amount.denom == st.info.bondedDenom && v in st.infos
    && (RewardsOverflow(st, now, v) || StakeOverflows(st, d, v, amount.amount, sub))
  }

  /** The stake is there to take, or the whole stake has room for more. */
  ghost predicate ChangeAccepted(st: State, now: nat, d: Addr, v: Addr, amount: Coin, sub: bool) {
    && amount.denom == st.info.bondedDenom && v in st.infos && !ChangeOverflows(st, now, d, v, amount, sub)
    && if sub then FromInt(amount.amount) <= StakeAt(st, (d, v)) && amount.amount <= st.infos[v].stake
       else st.infos[v].stake + amount.amount <= MAX_UINT128
  }

  lemma ChangeStakeOutcome(st: State, now: nat, d: Addr, v: Addr, amount: Coin, sub: bool)
    requires Sound(st, now)
    ensures ChangeStake(st, now, d, v, amount, sub).Panic? <==> ChangeOverflows(st, now, d, v, amount, sub)
    ensures ChangeStake(st, now, d, v, amount, sub).Ok? <==> ChangeAccepted(st, now, d, v, amount, sub)
  {
    UpdateRewardsPanics(st, now, v);
    UpdateRewardsFrame(st, now, v);
  }

  // ---------------------------------------------------------------------------
  // Redelegating
  // ---------------------------------------------------------------------------

  ghost predicate SameEntry(st: State, st': State, k: StakeKey) {
    (k in st'.stakes <==> k in st.stakes) && (k in st.stakes ==> st'.stakes[k] == st.stakes[k])
  }

  ghost predicate SameInfo(st: State, st': State, v: Addr) {
    (v in st'.infos <==> v in st.infos) && (v in st.infos ==> st'.infos[v] == st.infos[v])
  }

  /** Changing a stake leaves everything about the other validators as it was. */
  lemma OthersUntouched(st: State, now: nat, d: Addr, v: Addr, amount: Coin, sub: bool)
    requires Sound(st, now) && ChangeStake(st, now, d, v, amount, sub).Ok?
    ensures var st1 := ChangeStake(st, now, d, v, amount, sub).value;
            && st1 == st.(stakes := st1.stakes, infos := st1.infos)
            && (forall k: StakeKey | k.1 != v :: SameEntry(st, st1, k))
            && (forall w | w != v :: SameInfo(st, st1, w))
  {
    UpdateRewardsOnly(st, now, v);
    var st1 := ChangeStake(st, now, d, v, amount, sub).value;
    UpdateStakeShape(st, now, d, v, amount.amount, sub);
    PutElsewhere(Settled(st, now, v), st1, d, v);
    forall k: StakeKey | k.1 != v ensures SameEntry(st, st1, k) {
      assert SameEntry(st, Settled(st, now, v), k) && SameEntry(Settled(st, now, v), st1, k);
    }
    forall w | w != v ensures SameInfo(st, st1, w) {
      assert SameInfo(Settled(st, now, v), st1, w);
    }
  }

  lemma PutElsewhere(st: State, st': State, d: Addr, v: Addr)
    requires exists shares, vi :: st' == PutShares(st, d, v, shares, vi)
    ensures forall k: StakeKey | k.1 != v :: SameEntry(st, st', k)
    ensures forall w | w != v :: SameInfo(st, st', w)
  {
  }

  lemma UpdateRewardsOnly(st: State, now: nat, v: Addr)
    requires Sound(st, now) && UpdateRewards(st, now, v).Ok?
    ensures forall k: StakeKey | k.1 != v :: SameEntry(st, Settled(st, now, v), k)
  {
  }

  lemma SameElsewhere(st: State, st1: State, now: nat, d: Addr, w: Addr, amount: Coin)
    requires st1 == st.(stakes := st1.stakes, infos := st1.infos)
    requires SameInfo(st, st1, w) && forall k: StakeKey | k.1 == w :: SameEntry(st, st1, k)
    ensures ChangeOverflows(st1, now, d, w, amount, false) <==> ChangeOverflows(st, now, d, w, amount, false)
  {
    assert SameEntry(st, st1, (d, w));
    if w in st.infos && w in st.validatorMap && st.infos[w].last < now && NewRewards(st, now, w) > 0 {
      var r, stake := NewRewards(st, now, w), st.infos[w].stake;
      if SharesOverflow(st, w, r) {
        var k :| k in st.stakes && k.1 == w && CreditOverflows(st.stakes[k], stake, r);
        assert SameEntry(st, st1, k) && CreditOverflows(st1.stakes[k], stake, r);
      }
      if SharesOverflow(st1, w, r) {
        var k :| k in st1.stakes && k.1 == w && CreditOverflows(st1.stakes[k], stake, r);
        assert SameEntry(st, st1, k) && CreditOverflows(st.stakes[k], stake, r);
      }
    }
  }

  /** What was just taken from a validator goes back to it without overflow. */
  lemma BackToTheSource(st: State, now: nat, d: Addr, v: Addr, amount: Coin)
    requires Sound(st, now) && ChangeStake(st, now, d, v, amount, true).Ok?
    ensures !ChangeOverflows(ChangeStake(st, now, d, v, amount, true).value, now, d, v, amount, false)
  {
    var st1 := ChangeStake(st, now, d, v, amount, true).value;
    ChangeStakeOutcome(st, now, d, v, amount, true);
    UpdateStakeEffect(st, now, d, v, amount.amount, true);
    var vi, vi1 := st.infos[v], st1.infos[v];
    if vi1.last < now {
      LastUnlessRewards(st, now, d, v, amount);
      LessStake(now, vi.last, st.info.apr, st.validatorMap[v].commission, vi.stake, vi1.stake);
    }
  }

  /** The last calculation only stays behind if there was nothing to calculate. */
  lemma LastUnlessRewards(st: State, now: nat, d: Addr, v: Addr, amount: Coin)
    requires Sound(st, now) && ChangeStake(st, now, d, v, amount, true).Ok?
    requires var st1 := ChangeStake(st, now, d, v, amount, true).value; v in st1.infos && st1.infos[v].last < now
    ensures v in st.infos && v in st.validatorMap && st.infos[v].last < now
    ensures ChangeStake(st, now, d, v, amount, true).value.infos[v].last == st.infos[v].last
    ensures !NewRewardsOverflow(st, now, v) && NewRewards(st, now, v) == 0
  {
    UpdateStakeShape(st, now, d, v, amount.amount, true);
    UpdateRewardsPanics(st, now, v);
    var vi := st.infos[v];
    InterestExact(now, vi.last, st.info.apr, st.validatorMap[v].commission, vi.stake);
  }

  ghost predicate RedelegateOverflows(st: State, now: nat, d: Addr, v: Addr, w: Addr, amount: Coin) {
    || ChangeOverflows(st, now, d, v, amount, true)
    || (v != w && ChangeAccepted(st, now, d, v, amount, true) && ChangeOverflows(st, now, d, w, amount, false))
  }

  lemma RedelegatePanics(st: State, now: nat, d: Addr, v: Addr, w: Addr, amount: Coin)
    requires Sound(st, now)
    ensures DoRedelegate(st, now, d, v, w, amount).Panic? <==> RedelegateOverflows(st, now, d, v, w, amount)
  {
    ChangeStakeOutcome(st, now, d, v, amount, true);
    if ChangeStake(st, now, d, v, amount, true).Ok? {
      var st1 := ChangeStake(st, now, d, v, amount, true).value;
      StakeMessageSound(st, now, d, v, amount, true);
      ChangeStakeOutcome(st1, now, d, w, amount, false);
      if v == w {
        BackToTheSource(st, now, d, v, amount);
      } else {
        OthersUntouched(st, now, d, v, amount, true);
        SameElsewhere(st, st1, now, d, w, amount);
      }
    }
  }

  // ---------------------------------------------------------------------------
  // The other messages
  // ---------------------------------------------------------------------------

  ghost predicate DelegateOverflows(st: State, now: nat, d: Addr, v: Addr, amount: Coin) {
    || ChangeOverflows(st, now, d, v, amount, false)
    || (ChangeAccepted(st, now, d, v, amount, false) && amount.amount > 0 && d != MODULE
        && amount.amount <= Held(st.bank, d, amount.denom) && Vault(st) + amount.amount > MAX_UINT128)
  }

  lemma DelegatePanics(st: State, now: nat, d: Addr, v: Addr, amount: Coin)
    requires Sound(st, now)
    ensures DoDelegate(st, now, d, v, amount).Panic? <==> DelegateOverflows(st, now, d, v, amount)
  {
    ChangeStakeOutcome(st, now, d, v, amount, false);
    if ChangeStake(st, now, d, v, amount, false).Ok? {
      UpdateStakeEffect(st, now, d, v, amount.amount, false);
      if amount.amount > 0 { SendOneExact(st.bank, d, MODULE, amount); }
    }
  }

  ghost predicate UndelegateOverflows(st: State, now: nat, d: Addr, v: Addr, amount: Coin) {
    || ChangeOverflows(st, now, d, v, amount, true)
    || (ChangeAccepted(st, now, d, v, amount, true) && PayoutAt(st.info, now) > MAX_UINT64)
  }

  lemma UndelegatePanics(st: State, now: nat, d: Addr, v: Addr, amount: Coin)
    requires Sound(st, now)
    ensures DoUndelegate(st, now, d, v, amount).Panic? <==> UndelegateOverflows(st, now, d, v, amount)
  {
    ChangeStakeOutcome(st, now, d, v, amount, true);
    if ChangeStake(st, now, d, v, amount, true).Ok? {
      UpdateStakeEffect(st, now, d, v, amount.amount, true);
    }
  }

  /** What a delegator has to its credit now, new rewards included. */
  function DueRewards(st: State, now: nat, k: StakeKey): nat
    requires k in st.stakes && k.1 in st.infos && k.1 in st.validatorMap && st.infos[k.1].last <= now
  {
    var r, stake := NewRewards(st, now, k.1), st.infos[k.1].stake;
    st.stakes[k].rewards + if r > 0 && stake > 0 then Share(r, st.stakes[k].stake, stake) else 0
  }

  /** The same in whole coins. */
  function WholeDue(st: State, now: nat, k: StakeKey): nat
    requires k in st.stakes && k.1 in st.infos && k.1 in st.validatorMap && st.infos[k.1].last <= now
  {
    DueRewards(st, now, k) / ONE
  }

  /** Removing rewards goes through iff there is an entry and no overflow, and yields what is due. */
  lemma RemoveRewardsExact(st: State, now: nat, d: Addr, v: Addr)
    requires Sound(st, now)
    ensures var r := RemoveRewards(st, now, d, v);
            && (r.Panic? <==> RewardsOverflow(st, now, v))
            && (r.Ok? <==> (d, v) in st.stakes && !RewardsOverflow(st, now, v))
            && (r.Ok? ==> v in st.infos && v in st.validatorMap && r.value.1 == WholeDue(st, now, (d, v)))
  {
    UpdateRewardsPanics(st, now, v);
    UpdateRewardsFrame(st, now, v);
    if (d, v) in st.stakes {
      assert (d, v).1 in st.infos;
      if !RewardsOverflow(st, now, v) { SettledRewards(st, now, d, v); }
    }
  }

  lemma SettledRewards(st: State, now: nat, d: Addr, v: Addr)
    requires Sound(st, now) && (d, v) in st.stakes && v in st.infos && v in st.validatorMap
    requires UpdateRewards(st, now, v).Ok?
    ensures (d, v) in Settled(st, now, v).stakes
    ensures Settled(st, now, v).stakes[(d, v)].rewards == DueRewards(st, now, (d, v))
  {
    var vi := st.infos[v];
    var commission := st.validatorMap[v].commission;
    assert d in vi.stakers;
    if vi.last == now {
      NoInterest(now, now, st.info.apr, commission, vi.stake);
    } else {
      InterestExact(now, vi.last, st.info.apr, commission, vi.stake);
      var r := NewRewards(st, now, v);
      if r > 0 { CreditExact(st.stakes[(d, v)], vi.stake, r); }
    }
  }

  ghost predicate WithdrawOverflows(st: State, now: nat, d: Addr, v: Addr) {
    || RewardsOverflow(st, now, v)
    || ((d, v) in st.stakes && v in st.infos && v in st.validatorMap && st.infos[v].last <= now
        && WholeDue(st, now, (d, v)) > 0
        && Held(st.bank, d, st.info.bondedDenom) + WholeDue(st, now, (d, v)) > MAX_UINT128)
  }

  lemma WithdrawPanics(st: State, now: nat, d: Addr, v: Addr)
    requires Sound(st, now)
    ensures DoWithdraw(st, now, d, v).Panic? <==> WithdrawOverflows(st, now, d, v)
  {
    RemoveRewardsExact(st, now, d, v);
    if RemoveRewards(st, now, d, v).Ok? {
      UpdateRewardsFrame(st, now, v);
      var c := Coin(st.info.bondedDenom, RemoveRewards(st, now, d, v).value.1);
      MintOneExact(st.bank, d, c);
    }
  }

  lemma SlashPanics(st: State, now: nat, v: Addr, percentage: Decimal)
    requires Sound(st, now)
    ensures Slash(st, now, v, percentage).Panic? <==> percentage <= ONE && RewardsOverflow(st, now, v)
    ensures Slash(st, now, v, percentage) == Error <==> percentage > ONE || v !in st.infos
  {
    UpdateRewardsPanics(st, now, v);
    if percentage <= ONE && UpdateRewards(st, now, v).Ok? {
      SettledSound(st, now, v);
      var st1 := Settled(st, now, v);
      assert AllStaked(st1.stakes, st1.infos[v].stakers, v);
    }
  }

  // ---------------------------------------------------------------------------
  // Every message
  // ---------------------------------------------------------------------------

  /** The messages that abort, and nothing but the state they arrive in. */
  ghost predicate Overflows(st: State, now: nat, msg: Msg) {
    match msg
    case Delegate(d, v, amount) => DelegateOverflows(st, now, d, v, amount)
    case Undelegate(d, v, amount) => UndelegateOverflows(st, now, d, v, amount)
    case Redelegate(d, v, w, amount) => RedelegateOverflows(st, now, d, v, w, amount)
    case WithdrawRewards(d, v) => WithdrawOverflows(st, now, d, v)
    case SlashValidator(v, percentage) => percentage <= ONE && RewardsOverflow(st, now, v)
    case ProcessQueue => PayoutOverflows(st, now)
    case AddValidator(_) => false
    case BankSend(from, to, coins) =>
      Moves(coins) && Covers(BalanceOf(st.bank, from), coins) && from != to && !HasRoom(BalanceOf(st.bank, to), coins)
    case BankBurn(_, _) => false
    case BankMint(to, coins) => Moves(coins) && !HasRoom(BalanceOf(st.bank, to), coins)
  }

  lemma ApplyPanics(st: State, now: nat, msg: Msg)
    requires Sound(st, now)
    ensures Apply(st, now, msg).Panic? <==> Overflows(st, now, msg)
  {
    match msg
    case Delegate(d, v, amount) => DelegatePanics(st, now, d, v, amount);
    case Undelegate(d, v, amount) => UndelegatePanics(st, now, d, v, amount);
    case Redelegate(d, v, w, amount) => RedelegatePanics(st, now, d, v, w, amount);
    case WithdrawRewards(d, v) => WithdrawPanics(st, now, d, v);
    case SlashValidator(v, percentage) => SlashPanics(st, now, v, percentage);
    case ProcessQueue => ProcessQueueOutcome(st, now);
    case AddValidator(_) =>
    case BankSend(from, to, coins) => SendExact(st.bank, from, to, coins);
    case BankBurn(from, coins) => BurnExact(st.bank, from, coins);
    case BankMint(to, coins) => MintExact(st.bank, to, coins);
  }

  /** Over every run, whichever message comes next: it panics if and only if it overflows. No
      `expect` fails, and nothing is divided by zero. */
  lemma OnlyOverflowsPanic(st: State, run: seq<Event>, e: Event)
    requires Genesis(st) && TimeOrdered(run + [e])
    ensures Apply(Run(st, run), e.now, e.msg).Panic? <==> Overflows(Run(st, run), e.now, e.msg)
  {
    assert (run + [e])[|run|] == e;
    forall i | 0 <= i < |run| ensures (run + [e])[i] == run[i] {}
    ReachableSound(st, run, e.now);
    ApplyPanics(Run(st, run), e.now, e.msg);
  }
}
