// What each message changes, and what it leaves alone: stakes, accrued rewards, the queue
// and the coins.
module StakingEffects {
  import opened Bytes
  import opened Ints
  import opened Balances
  import opened Bank
  import opened Decimals
  import opened Outcomes
  import opened Staking
  import opened StakingInvariants
  import opened Interest
  import opened Payouts
  import opened StakingOverflows
  import opened Rewards

  // ---------------------------------------------------------------------------
  // Bringing rewards up to date
  // ---------------------------------------------------------------------------

  /** The rewards held under `k` afterwards are those that were due before. */
  ghost predicate Accrued(st: State, st': State, now: nat, k: StakeKey) {
    && k in st.stakes && k.1 in st.infos && k.1 in st.validatorMap && st.infos[k.1].last <= now
    && k in st'.stakes && st'.stakes[k].rewards == DueRewards(st, now, k)
  }

  /** The last calculation only moves on if there was something to share out. */
  function LastAfter(st: State, now: nat, v: Addr): nat
    requires v in st.infos && v in st.validatorMap && st.infos[v].last <= now
  {
    if NewRewards(st, now, v) > 0 then now else st.infos[v].last
  }

  /** Every entry of `v` holds its rewards, `v`'s record its last calculation; the rest is as it was. */
  ghost predicate BroughtUpToDate(st: State, st1: State, now: nat, v: Addr) {
    && v in st.infos && v in st.validatorMap && st.infos[v].last <= now
    && st1 == st.(stakes := st1.stakes, infos := st.infos[v := st.infos[v].(last := LastAfter(st, now, v))])
    && st1.stakes.Keys == st.stakes.Keys
    && (forall k: StakeKey | k.1 != v :: SameEntry(st, st1, k))
    && (forall k: StakeKey | k.1 == v && k in st.stakes ::
          Accrued(st, st1, now, k) && st1.stakes[k].stake == st.stakes[k].stake)
  }

  lemma SettledExact(st: State, now: nat, v: Addr)
    requires Sound(st, now) && UpdateRewards(st, now, v).Ok?
    ensures BroughtUpToDate(st, Settled(st, now, v), now, v)
  {
    UpdateRewardsFrame(st, now, v);
    SettledLast(st, now, v);
    UpdateRewardsOnly(st, now, v);
    forall k: StakeKey | k.1 == v && k in st.stakes ensures Accrued(st, Settled(st, now, v), now, k) {
      SettledRewards(st, now, k.0, v);
      assert k == (k.0, v);
    }
  }

  lemma SettledLast(st: State, now: nat, v: Addr)
    requires Sound(st, now) && UpdateRewards(st, now, v).Ok?
    ensures v in st.infos && v in st.validatorMap
    ensures Settled(st, now, v).infos == st.infos[v := st.infos[v].(last := LastAfter(st, now, v))]
  {
    UpdateRewardsFrame(st, now, v);
    var vi := st.infos[v];
    if vi.last == now {
      NoInterest(now, now, st.info.apr, st.validatorMap[v].commission, vi.stake);
      assert st.infos == st.infos[v := vi];
    } else {
      InterestExact(now, vi.last, st.info.apr, st.validatorMap[v].commission, vi.stake);
      if NewRewards(st, now, v) == 0 { assert st.infos == st.infos[v := vi]; }
    }
  }

  /** Once rewards are up to date nothing is left to share out in the same block. */
  lemma NothingNew(st: State, now: nat, v: Addr)
    requires Sound(st, now) && UpdateRewards(st, now, v).Ok?
    ensures var st1 := Settled(st, now, v);
            && v in st1.infos && v in st1.validatorMap && st1.infos[v].last <= now
            && NewRewards(st1, now, v) == 0 && !RewardsOverflow(st1, now, v)
  {
    SettledLast(st, now, v);
    UpdateRewardsFrame(st, now, v);
    var vi, commission := st.infos[v], st.validatorMap[v].commission;
    if LastAfter(st, now, v) == now {
      NoInterest(now, now, st.info.apr, commission, vi.stake);
    } else {
      InterestExact(now, vi.last, st.info.apr, commission, vi.stake);
    }
  }

  // ---------------------------------------------------------------------------
  // Changing a stake
  // ---------------------------------------------------------------------------

  /** One delegator's stake with one validator changes by `delta`, and the validator's whole
      stake with it. Every entry of the validator keeps its accrued rewards, and a new one
      starts with none. */
  ghost predicate ChangedAt(st: State, st': State, now: nat, d: Addr, v: Addr, delta: int) {
    && v in st.infos && v in st.validatorMap && st.infos[v].last <= now && v in st'.infos
    && st'.infos[v].stake == st.infos[v].stake + delta && st'.infos[v].last == LastAfter(st, now, v)
    && st'.infos[v].stakers == (if (d, v) in st'.stakes then st.infos[v].stakers + {d} else st.infos[v].stakers - {d})
    && StakeAt(st', (d, v)) == StakeAt(st, (d, v)) + delta * ONE
    && ((d, v) in st'.stakes <==> StakeAt(st', (d, v)) > 0)
    && ((d, v) in st'.stakes && (d, v) !in st.stakes ==> st'.stakes[(d, v)].rewards == 0)
    && (forall k | k in st.stakes && k in st'.stakes && k.1 == v :: Accrued(st, st', now, k))
    && (forall k: StakeKey | k.1 == v && k.0 != d :: SameStake(st, st', k))
  }

  /** Other validators' entries and records stay as they were. */
  ghost predicate OnlyAt(st: State, st': State, v: Addr) {
    && st'.info == st.info && st'.validatorMap == st.validatorMap && st'.validators == st.validators
    && v in st'.infos && st'.infos == st.infos[v := st'.infos[v]]
    && forall k: StakeKey | k.1 != v :: SameEntry(st, st', k)
  }

  ghost predicate StakeChanged(st: State, st': State, now: nat, d: Addr, v: Addr, delta: int) {
    ChangedAt(st, st', now, d, v, delta) && OnlyAt(st, st', v)
  }

  ghost predicate SameStake(st: State, st': State, k: StakeKey) {
    (k in st'.stakes <==> k in st.stakes) && StakeAt(st', k) == StakeAt(st, k)
  }

  lemma ChangeStakeExact(st: State, now: nat, d: Addr, v: Addr, amount: Coin, sub: bool)
    requires Sound(st, now) && ChangeStake(st, now, d, v, amount, sub).Ok?
    ensures var st' := ChangeStake(st, now, d, v, amount, sub).value;
            && amount.denom == st.info.bondedDenom && st' == st.(stakes := st'.stakes, infos := st'.infos)
            && StakeChanged(st, st', now, d, v, Signed(amount.amount, sub))
  {
    var st', delta := ChangeStake(st, now, d, v, amount, sub).value, Signed(amount.amount, sub);
    UpdateStakeEffect(st, now, d, v, amount.amount, sub);
    OthersUntouched(st, now, d, v, amount, sub);
    SettledExact(st, now, v);
    ChangeKeepsRewards(st, now, d, v, amount, sub);
    ChangeComposes(st, Settled(st, now, v), st', now, d, v, delta);
  }

  lemma ChangeComposes(st: State, st1: State, st': State, now: nat, d: Addr, v: Addr, delta: int)
    requires BroughtUpToDate(st, st1, now, v) && RewardsKept(st1, st', d, v) && Restaked(st, st', d, v, delta, now)
    requires forall k: StakeKey | k.1 != v :: SameEntry(st, st', k)
    ensures StakeChanged(st, st', now, d, v, delta)
  {
    forall k: StakeKey | k in st.stakes && k in st'.stakes && k.1 == v ensures Accrued(st, st', now, k) {
      assert Accrued(st, st1, now, k);
    }
  }

  lemma ChangeKeepsRewards(st: State, now: nat, d: Addr, v: Addr, amount: Coin, sub: bool)
    requires ChangeStake(st, now, d, v, amount, sub).Ok?
    ensures RewardsKept(Settled(st, now, v), ChangeStake(st, now, d, v, amount, sub).value, d, v)
  {
    UpdateStakeShape(st, now, d, v, amount.amount, sub);
    var st', delta := ChangeStake(st, now, d, v, amount, sub).value, Signed(amount.amount, sub);
    PutKeepsRewards(Settled(st, now, v), st', d, v, delta);
  }

  ghost predicate RewardsKept(st: State, st': State, d: Addr, v: Addr) {
    && v in st.infos && v in st'.infos && st'.infos[v].last == st.infos[v].last
    && (forall k | k in st.stakes && k in st'.stakes :: st'.stakes[k].rewards == st.stakes[k].rewards)
    && ((d, v) in st'.stakes && (d, v) !in st.stakes ==> st'.stakes[(d, v)].rewards == 0)
  }

  lemma PutKeepsRewards(st: State, st': State, d: Addr, v: Addr, delta: int)
    requires v in st.infos && 0 <= st.infos[v].stake + delta <= MAX_UINT128
    requires 0 <= StakeAt(st, (d, v)) + delta * ONE <= MAX_UINT128
    requires st' == PutShares(st, d, v, SharesAt(st, (d, v)).(stake := StakeAt(st, (d, v)) + delta * ONE),
                              st.infos[v].(stake := st.infos[v].stake + delta))
    ensures RewardsKept(st, st', d, v)
  {
  }

  // ---------------------------------------------------------------------------
  // What is due after a stake has changed
  // ---------------------------------------------------------------------------

  /** Interest on the changed stake for the time since the last calculation, if that stayed behind. */
  function Backdated(st: State, now: nat, k: StakeKey): nat
    requires k in st.stakes && k.1 in st.infos && k.1 in st.validatorMap && st.infos[k.1].last <= now
  {
    var r, stake := NewRewards(st, now, k.1), st.infos[k.1].stake;
    if r > 0 && stake > 0 then Share(r, st.stakes[k].stake, stake) else 0
  }

  /** What is due after a change is what was due before, and back-dated interest on top of it. */
  ghost predicate DueMovesBy(st: State, st': State, now: nat, k: StakeKey) {
    && k in st.stakes && k.1 in st.infos && k.1 in st.validatorMap && st.infos[k.1].last <= now
    && k in st'.stakes && k.1 in st'.infos && k.1 in st'.validatorMap && st'.infos[k.1].last <= now
    && DueRewards(st', now, k) == DueRewards(st, now, k) + Backdated(st', now, k)
  }

  /** Taking stake away leaves what is due as it was. Adding stake adds back-dated interest to
      it, and then only where nothing was earned since the last calculation. */
  lemma DueAfterChange(st: State, now: nat, d: Addr, v: Addr, amount: Coin, sub: bool, k: StakeKey)
    requires Sound(st, now) && ChangeStake(st, now, d, v, amount, sub).Ok? && k.1 == v
    requires k in st.stakes && k in ChangeStake(st, now, d, v, amount, sub).value.stakes
    ensures var st' := ChangeStake(st, now, d, v, amount, sub).value;
            && DueMovesBy(st, st', now, k)
            && (sub || st.infos[v].last == now || NewRewards(st, now, v) > 0 ==> Backdated(st', now, k) == 0)
  {
    var st' := ChangeStake(st, now, d, v, amount, sub).value;
    ChangeStakeExact(st, now, d, v, amount, sub);
    assert Accrued(st, st', now, k);
    var vi, vi', commission := st.infos[v], st'.infos[v], st.validatorMap[v].commission;
    if vi'.last == now {
      NoInterest(now, now, st.info.apr, commission, vi'.stake);
    } else if sub {
      LastUnlessRewards(st, now, d, v, amount);
      LessStake(now, vi.last, st.info.apr, commission, vi.stake, vi'.stake);
    }
  }

  // ---------------------------------------------------------------------------
  // The messages
  // ---------------------------------------------------------------------------

  /** The coins leave one account, if any, and reach another or the same, if any; nothing else moves. */
  ghost predicate CoinsMoved(b: Ledger, b': Ledger, from: Option<Addr>, to: Option<Addr>, coins: seq<Coin>) {
    forall a, x :: Held(b', a, x) == Held(b, a, x) - (if from == Some(a) then AmountOf(coins, x) else 0)
                                     + (if to == Some(a) then AmountOf(coins, x) else 0)
  }

  lemma DelegateEffect(st: State, now: nat, d: Addr, v: Addr, amount: Coin)
    requires Sound(st, now) && Apply(st, now, Delegate(d, v, amount)).Ok?
    ensures var st' := Apply(st, now, Delegate(d, v, amount)).value;
            && amount.denom == st.info.bondedDenom
            && st' == st.(stakes := st'.stakes, infos := st'.infos, bank := st'.bank)
            && StakeChanged(st, st', now, d, v, amount.amount)
            && CoinsMoved(st.bank, st'.bank, Some(d), Some(MODULE), [amount])
  {
    var st1, st' := ChangeStake(st, now, d, v, amount, false).value, Apply(st, now, Delegate(d, v, amount)).value;
    DelegateSplits(st, st', now, d, v, amount);
    ChangeStakeExact(st, now, d, v, amount, false);
    MoneyAside(st, st1, st', now, d, v, amount.amount);
    if amount.amount > 0 { SendMoves(st.bank, d, MODULE, [amount]); } else { NothingMoves(st.bank, d, MODULE, amount); }
  }

  lemma DelegateSplits(st: State, st': State, now: nat, d: Addr, v: Addr, amount: Coin)
    requires DoDelegate(st, now, d, v, amount) == Ok(st')
    ensures ChangeStake(st, now, d, v, amount, false).Ok?
    ensures var st1 := ChangeStake(st, now, d, v, amount, false).value;
            && st' == st1.(bank := st'.bank) && st1.bank == st.bank
            && if amount.amount == 0 then st'.bank == st.bank else Send(st.bank, d, MODULE, [amount]) == Ok(st'.bank)
  {
    UpdateStakeEffect(st, now, d, v, amount.amount, false);
  }

  lemma NothingMoves(b: Ledger, from: Addr, to: Addr, c: Coin)
    requires c.amount == 0
    ensures CoinsMoved(b, b, Some(from), Some(to), [c])
  {
    forall x ensures AmountOf([c], x) == 0 {}
  }

  lemma MoneyAside(st: State, st1: State, st': State, now: nat, d: Addr, v: Addr, delta: int)
    requires StakeChanged(st, st1, now, d, v, delta) && st' == st1.(bank := st'.bank, queue := st'.queue)
    ensures StakeChanged(st, st', now, d, v, delta)
  {
    forall k | k in st.stakes && k in st'.stakes && k.1 == v ensures Accrued(st, st', now, k) {
      assert Accrued(st, st1, now, k);
    }
    forall k: StakeKey | k.1 == v && k.0 != d ensures SameStake(st, st', k) { assert SameStake(st, st1, k); }
    forall k: StakeKey | k.1 != v ensures SameEntry(st, st', k) { assert SameEntry(st, st1, k); }
  }

  lemma SendMoves(b: Ledger, from: Addr, to: Addr, coins: seq<Coin>)
    requires AllNormalized(b) && Send(b, from, to, coins).Ok?
    ensures CoinsMoved(b, Send(b, from, to, coins).value, Some(from), Some(to), coins)
  {
    SendExact(b, from, to, coins);
  }

  lemma UndelegateEffect(st: State, now: nat, d: Addr, v: Addr, amount: Coin)
    requires Sound(st, now) && Apply(st, now, Undelegate(d, v, amount)).Ok?
    ensures var st' := Apply(st, now, Undelegate(d, v, amount)).value;
            && amount.denom == st.info.bondedDenom
            && st' == st.(stakes := st'.stakes, infos := st'.infos, queue := st'.queue)
            && StakeChanged(st, st', now, d, v, -(amount.amount as int))
            && st'.queue == st.queue + [Unbonding(d, now + st.info.unbondingTime * 1_000_000_000, amount.amount)]
  {
    var st1, st' := ChangeStake(st, now, d, v, amount, true).value, Apply(st, now, Undelegate(d, v, amount)).value;
    UndelegateSplits(st, st', now, d, v, amount);
    ChangeStakeExact(st, now, d, v, amount, true);
    MoneyAside(st, st1, st', now, d, v, -(amount.amount as int));
  }

  lemma UndelegateSplits(st: State, st': State, now: nat, d: Addr, v: Addr, amount: Coin)
    requires DoUndelegate(st, now, d, v, amount) == Ok(st')
    ensures ChangeStake(st, now, d, v, amount, true).Ok?
    ensures var st1, due := ChangeStake(st, now, d, v, amount, true).value, now + st.info.unbondingTime * 1_000_000_000;
            st' == st1.(queue := st.queue + [Unbonding(d, due, amount.amount)])
  {
    UpdateStakeEffect(st, now, d, v, amount.amount, true);
  }

  /** Undelegating the whole stake forfeits what had accrued: the entry goes, nothing is paid for
      it, and there is nothing left to withdraw. */
  lemma UndelegatingAllForfeits(st: State, now: nat, d: Addr, v: Addr, amount: Coin)
    requires Sound(st, now) && Apply(st, now, Undelegate(d, v, amount)).Ok?
    ensures var st' := Apply(st, now, Undelegate(d, v, amount)).value;
            && ((d, v) !in st'.stakes <==> StakeAt(st, (d, v)) == amount.amount * ONE)
            && ((d, v) !in st'.stakes ==> st'.bank == st.bank && !DoWithdraw(st', now, d, v).Ok?)
  {
    var st' := Apply(st, now, Undelegate(d, v, amount)).value;
    UndelegateEffect(st, now, d, v, amount);
    UndelegateSound(st, now, d, v, amount);
    RemoveRewardsExact(st', now, d, v);
  }

  /** Between two validators: the stake leaves the one and joins the other, and all accrued
      rewards stay where they are. */
  lemma RedelegateEffect(st: State, now: nat, d: Addr, v: Addr, w: Addr, amount: Coin)
    requires Sound(st, now) && v != w && Apply(st, now, Redelegate(d, v, w, amount)).Ok?
    ensures var st' := Apply(st, now, Redelegate(d, v, w, amount)).value;
            && amount.denom == st.info.bondedDenom && st' == st.(stakes := st'.stakes, infos := st'.infos)
            && Redelegated(st, st', now, d, v, w, amount.amount)
  {
    var st1, st' := ChangeStake(st, now, d, v, amount, true).value, Apply(st, now, Redelegate(d, v, w, amount)).value;
    RedelegateHalves(st, st1, st', now, d, v, w, amount);
    RedelegateComposes(st, st1, st', now, d, v, w, amount.amount);
  }

  ghost predicate Redelegated(st: State, st': State, now: nat, d: Addr, v: Addr, w: Addr, amount: nat) {
    && ChangedAt(st, st', now, d, v, -(amount as int)) && ChangedAt(st, st', now, d, w, amount)
    && st'.infos == st.infos[v := st'.infos[v]][w := st'.infos[w]]
    && forall k: StakeKey | k.1 != v && k.1 != w :: SameEntry(st, st', k)
  }

  lemma RedelegateHalves(st: State, st1: State, st': State, now: nat, d: Addr, v: Addr, w: Addr, amount: Coin)
    requires Sound(st, now) && ChangeStake(st, now, d, v, amount, true) == Ok(st1)
    requires ChangeStake(st1, now, d, w, amount, false) == Ok(st')
    ensures amount.denom == st.info.bondedDenom && st' == st.(stakes := st'.stakes, infos := st'.infos)
    ensures StakeChanged(st, st1, now, d, v, -(amount.amount as int))
    ensures StakeChanged(st1, st', now, d, w, amount.amount)
  {
    StakeMessageSound(st, now, d, v, amount, true);
    ChangeStakeExact(st, now, d, v, amount, true);
    ChangeStakeExact(st1, now, d, w, amount, false);
  }

  lemma RedelegateComposes(st: State, st1: State, st': State, now: nat, d: Addr, v: Addr, w: Addr, a: nat)
    requires v != w && StakeChanged(st, st1, now, d, v, -(a as int)) && StakeChanged(st1, st', now, d, w, a)
    ensures Redelegated(st, st', now, d, v, w, a)
  {
    ThenElsewhere(st, st1, st', now, d, v, -(a as int), w);
    AfterElsewhere(st, st1, st', now, d, w, a, v);
    forall k: StakeKey | k.1 != v && k.1 != w ensures SameEntry(st, st', k) {
      assert SameEntry(st, st1, k) && SameEntry(st1, st', k);
    }
  }

  lemma ThenElsewhere(st: State, st1: State, st': State, now: nat, d: Addr, v: Addr, delta: int, w: Addr)
    requires v != w && ChangedAt(st, st1, now, d, v, delta) && OnlyAt(st1, st', w)
    ensures ChangedAt(st, st', now, d, v, delta)
  {
    assert SameEntry(st1, st', (d, v));
    forall k | k in st.stakes && k in st'.stakes && k.1 == v ensures Accrued(st, st', now, k) {
      assert SameEntry(st1, st', k) && Accrued(st, st1, now, k);
    }
    forall k: StakeKey | k.1 == v && k.0 != d ensures SameStake(st, st', k) {
      assert SameEntry(st1, st', k) && SameStake(st, st1, k);
    }
  }

  lemma AfterElsewhere(st: State, st1: State, st': State, now: nat, d: Addr, w: Addr, delta: int, v: Addr)
    requires v != w && OnlyAt(st, st1, v) && ChangedAt(st1, st', now, d, w, delta)
    ensures ChangedAt(st, st', now, d, w, delta)
  {
    assert SameEntry(st, st1, (d, w)) && st1.infos[w] == st.infos[w];
    forall k | k in st.stakes && k in st'.stakes && k.1 == w ensures Accrued(st, st', now, k) {
      assert SameEntry(st, st1, k) && Accrued(st1, st', now, k);
    }
    forall k: StakeKey | k.1 == w && k.0 != d ensures SameStake(st, st', k) {
      assert SameEntry(st, st1, k) && SameStake(st1, st', k);
    }
  }

  /** Redelegated to where it was: stakes stay as they were and rewards are kept, except that a
      delegator who redelegates its whole stake loses its accrued rewards on the way. */
  ghost predicate RoundTripped(st: State, st': State, now: nat, key: StakeKey, amount: nat) {
    && key.1 in st.infos && OnlyAt(st, st', key.1)
    && st'.infos[key.1].stake == st.infos[key.1].stake && StakeAt(st', key) == StakeAt(st, key)
    && (key in st'.stakes <==> StakeAt(st, key) > 0)
    && (forall k: StakeKey | k.1 == key.1 && k != key && k in st.stakes ::
          Accrued(st, st', now, k) && SameStake(st, st', k))
    && (key in st'.stakes && StakeAt(st, key) > FromInt(amount) ==> Accrued(st, st', now, key))
    && (key in st'.stakes && StakeAt(st, key) <= FromInt(amount) ==> st'.stakes[key].rewards == 0)
  }

  lemma RedelegateToSourceEffect(st: State, now: nat, d: Addr, v: Addr, amount: Coin)
    requires Sound(st, now) && Apply(st, now, Redelegate(d, v, v, amount)).Ok?
    ensures var st' := Apply(st, now, Redelegate(d, v, v, amount)).value;
            && st' == st.(stakes := st'.stakes, infos := st'.infos)
            && RoundTripped(st, st', now, (d, v), amount.amount)
  {
    var st1, st' := ChangeStake(st, now, d, v, amount, true).value, Apply(st, now, Redelegate(d, v, v, amount)).value;
    RedelegateHalves(st, st1, st', now, d, v, v, amount);
    TakingKeepsDue(st, st1, now, d, v, amount);
    ThereAndBack(st, st1, st', now, (d, v), amount.amount);
  }

  lemma TakingKeepsDue(st: State, st1: State, now: nat, d: Addr, v: Addr, amount: Coin)
    requires Sound(st, now) && ChangeStake(st, now, d, v, amount, true) == Ok(st1)
    ensures forall k: StakeKey | k.1 == v && k in st.stakes && k in st1.stakes :: StillDue(st, st1, now, k)
  {
    forall k: StakeKey | k.1 == v && k in st.stakes && k in st1.stakes ensures StillDue(st, st1, now, k) {
      DueAfterChange(st, now, d, v, amount, true, k);
    }
  }

  ghost predicate StillDue(st: State, st': State, now: nat, k: StakeKey) {
    && k in st.stakes && k.1 in st.infos && k.1 in st.validatorMap && st.infos[k.1].last <= now
    && k in st'.stakes && k.1 in st'.infos && k.1 in st'.validatorMap && st'.infos[k.1].last <= now
    && DueRewards(st', now, k) == DueRewards(st, now, k)
  }

  lemma ThereAndBack(st: State, st1: State, st': State, now: nat, key: StakeKey, a: nat)
    requires StakeChanged(st, st1, now, key.0, key.1, -(a as int)) && StakeChanged(st1, st', now, key.0, key.1, a)
    requires forall k: StakeKey | k.1 == key.1 && k in st.stakes && k in st1.stakes :: StillDue(st, st1, now, k)
    ensures RoundTripped(st, st', now, key, a)
  {
    var (d, v) := key;
    forall k: StakeKey | k.1 == v && k in st.stakes && k in st1.stakes
        && k in st'.stakes ensures Accrued(st, st', now, k) {
      assert StillDue(st, st1, now, k) && Accrued(st1, st', now, k);
    }
    forall k: StakeKey | k.1 == v && k != key ensures SameStake(st, st', k) {
      assert SameStake(st, st1, k) && SameStake(st1, st', k);
    }
    forall k: StakeKey | k.1 != v ensures SameEntry(st, st', k) {
      assert SameEntry(st, st1, k) && SameEntry(st1, st', k);
    }
  }

  /** One delegator's rewards are gone, its stake is not, and whatever is due to others is kept. */
  ghost predicate Withdrawn(st: State, st': State, now: nat, key: StakeKey) {
    && key in st.stakes && key.1 in st.infos && key.1 in st.validatorMap && st.infos[key.1].last <= now
    && st'.infos == st.infos[key.1 := st.infos[key.1].(last := LastAfter(st, now, key.1))]
    && st'.stakes.Keys == st.stakes.Keys && st'.stakes[key] == Shares(st.stakes[key].stake, 0)
    && (forall k: StakeKey | k.1 == key.1 && k != key && k in st.stakes ::
          Accrued(st, st', now, k) && SameStake(st, st', k))
    && OnlyAt(st, st', key.1)
  }

  /** A withdrawal pays out in whole coins all that is due to the delegator. */
  lemma WithdrawEffect(st: State, now: nat, d: Addr, v: Addr)
    requires Sound(st, now) && Apply(st, now, WithdrawRewards(d, v)).Ok?
    ensures var st', key := Apply(st, now, WithdrawRewards(d, v)).value, (d, v);
            && st' == st.(stakes := st'.stakes, infos := st'.infos, bank := st'.bank)
            && Withdrawn(st, st', now, key) && PaidWhatIsDue(st, st', now, key)
  {
    var st' := Apply(st, now, WithdrawRewards(d, v)).value;
    assert DoWithdraw(st, now, d, v) == Ok(st');
    WithdrawalSplits(st, st', now, d, v);
    var (st1, r) := RemoveRewards(st, now, d, v).value;
    RemovedExact(st, st1, r, now, d, v);
    EmptiedThenPaid(st, st1, st', now, (d, v));
    MintOneExact(st.bank, d, Coin(st.info.bondedDenom, r));
  }

  ghost predicate PaidWhatIsDue(st: State, st': State, now: nat, key: StakeKey) {
    && key in st.stakes && key.1 in st.infos && key.1 in st.validatorMap && st.infos[key.1].last <= now
    && forall a, x :: Held(st'.bank, a, x) == Held(st.bank, a, x)
         + if a == key.0 && x == st.info.bondedDenom then WholeDue(st, now, key) else 0
  }

  lemma WithdrawalSplits(st: State, st': State, now: nat, d: Addr, v: Addr)
    requires DoWithdraw(st, now, d, v) == Ok(st')
    ensures RemoveRewards(st, now, d, v).Ok?
    ensures var (st1, r) := RemoveRewards(st, now, d, v).value;
            && st' == st1.(bank := st'.bank) && Mint(st1.bank, d, [Coin(st1.info.bondedDenom, r)]) == Ok(st'.bank)
  {
  }

  lemma RemovedExact(st: State, st1: State, r: u128, now: nat, d: Addr, v: Addr)
    requires Sound(st, now) && RemoveRewards(st, now, d, v) == Ok((st1, r))
    ensures st1 == st.(stakes := st1.stakes, infos := st1.infos) && Withdrawn(st, st1, now, (d, v))
    ensures r == WholeDue(st, now, (d, v))
  {
    RemoveRewardsExact(st, now, d, v);
    SettledExact(st, now, v);
    UpToDateThenEmptied(st, Settled(st, now, v), st1, now, (d, v));
  }

  lemma EmptiedThenPaid(st: State, st1: State, st': State, now: nat, key: StakeKey)
    requires Withdrawn(st, st1, now, key) && st' == st1.(bank := st'.bank)
    ensures Withdrawn(st, st', now, key)
  {
    forall k: StakeKey | k.1 == key.1 && k != key && k in st.stakes
      ensures Accrued(st, st', now, k) && SameStake(st, st', k) {
      assert Accrued(st, st1, now, k) && SameStake(st, st1, k);
    }
    forall k: StakeKey | k.1 != key.1 ensures SameEntry(st, st', k) { assert SameEntry(st, st1, k); }
  }

  lemma UpToDateThenEmptied(st: State, st1: State, st': State, now: nat, key: StakeKey)
    requires BroughtUpToDate(st, st1, now, key.1) && key in st1.stakes
    requires st' == st1.(stakes := st1.stakes[key := st1.stakes[key].(rewards := 0)])
    ensures Withdrawn(st, st', now, key)
  {
    forall k: StakeKey | k.1 == key.1 && k != key && k in st.stakes
      ensures Accrued(st, st', now, k) && SameStake(st, st', k) {
      assert Accrued(st, st1, now, k);
    }
    forall k: StakeKey | k.1 != key.1 ensures SameEntry(st, st', k) { assert SameEntry(st, st1, k); }
  }

  lemma MintMoves(b: Ledger, to: Addr, coins: seq<Coin>)
    requires AllNormalized(b) && Mint(b, to, coins).Ok?
    ensures CoinsMoved(b, Mint(b, to, coins).value, None, Some(to), coins)
  {
    MintExact(b, to, coins);
  }

  lemma BurnMoves(b: Ledger, from: Addr, coins: seq<Coin>)
    requires AllNormalized(b) && Burn(b, from, coins).Ok?
    ensures CoinsMoved(b, Burn(b, from, coins).value, Some(from), None, coins)
  {
    BurnExact(b, from, coins);
  }

  /** Nothing is paid twice: after a withdrawal nothing is due to the delegator, so that another
      one in the same block fails, and every other delegator still has due what it had before. */
  lemma WithdrawsOnce(st: State, now: nat, d: Addr, v: Addr)
    requires Sound(st, now) && Apply(st, now, WithdrawRewards(d, v)).Ok?
    ensures var st' := Apply(st, now, WithdrawRewards(d, v)).value;
            && NothingLeft(st, st', now, (d, v)) && Apply(st', now, WithdrawRewards(d, v)) == Error
  {
    var st' := Apply(st, now, WithdrawRewards(d, v)).value;
    WithdrawEffect(st, now, d, v);
    WithdrawSound(st, now, d, v);
    WithdrawalSplits(st, st', now, d, v);
    WithdrawsNothingMore(st, st', now, d, v);
  }

  lemma WithdrawsNothingMore(st: State, st': State, now: nat, d: Addr, v: Addr)
    requires Sound(st, now) && Sound(st', now) && RemoveRewards(st, now, d, v).Ok? && Withdrawn(st, st', now, (d, v))
    ensures NothingLeft(st, st', now, (d, v)) && DoWithdraw(st', now, d, v) == Error
  {
    assert UpdateRewards(st, now, v).Ok?;
    NothingNewAfterWithdrawal(st, st', now, d, v);
    NothingDue(st, st', now, (d, v));
    FailsIfNothingIsDue(st', now, d, v);
  }

  lemma FailsIfNothingIsDue(st: State, now: nat, d: Addr, v: Addr)
    requires Sound(st, now) && (d, v) in st.stakes && !RewardsOverflow(st, now, v)
    requires v in st.infos && v in st.validatorMap && DueRewards(st, now, (d, v)) == 0
    ensures DoWithdraw(st, now, d, v) == Error
  {
    WithdrawMints(st, now, d, v);
  }

  ghost predicate NothingLeft(st: State, st': State, now: nat, key: StakeKey) {
    && key in st'.stakes && key.1 in st'.infos && key.1 in st'.validatorMap && st'.infos[key.1].last <= now
    && DueRewards(st', now, key) == 0
    && forall k: StakeKey | k.1 == key.1 && k != key && k in st.stakes :: StillDue(st, st', now, k)
  }

  lemma NothingDue(st: State, st': State, now: nat, key: StakeKey)
    requires Withdrawn(st, st', now, key) && NewRewards(st', now, key.1) == 0
    ensures NothingLeft(st, st', now, key)
  {
    forall k: StakeKey | k.1 == key.1 && k != key && k in st.stakes ensures StillDue(st, st', now, k) {
      assert Accrued(st, st', now, k);
    }
  }

  lemma NothingNewAfterWithdrawal(st: State, st': State, now: nat, d: Addr, v: Addr)
    requires Sound(st, now) && UpdateRewards(st, now, v).Ok? && Withdrawn(st, st', now, (d, v))
    ensures v in st'.infos && v in st'.validatorMap && st'.infos[v].last <= now
    ensures NewRewards(st', now, v) == 0 && !RewardsOverflow(st', now, v)
  {
    NothingNew(st, now, v);
    SettledLast(st, now, v);
    UpdateRewardsFrame(st, now, v);
  }

  /** A slash cuts every stake by the percentage, rounding down, and keeps all accrued rewards;
      if no whole coin is left, it removes all entries, rewards included. */
  lemma SlashEffect(st: State, now: nat, v: Addr, percentage: Decimal)
    requires Sound(st, now) && Apply(st, now, SlashValidator(v, percentage)).Ok?
    ensures percentage <= ONE
    ensures var st' := Apply(st, now, SlashValidator(v, percentage)).value;
            st' == st.(stakes := st'.stakes, infos := st'.infos) && SlashedBy(st, st', now, v, ONE - percentage)
  {
    UpdateRewardsFrame(st, now, v);
    SettledExact(st, now, v);
    SlashShape(st, now, v, percentage);
    var st1, st' := Settled(st, now, v), Slash(st, now, v, percentage).value;
    SlashComposes(st, st1, st', now, v, ONE - percentage);
  }

  ghost predicate SlashedBy(st: State, st': State, now: nat, v: Addr, remaining: Decimal) {
    && v in st.infos && v in st.validatorMap && st.infos[v].last <= now && OnlyAt(st, st', v)
    && var left := st.infos[v].stake * remaining / ONE;
       && st'.infos[v].stake == left && st'.infos[v].last == LastAfter(st, now, v)
       && st'.infos[v].stakers == (if left == 0 then {} else st.infos[v].stakers)
       && (left == 0 ==> forall k: StakeKey | k.1 == v :: k !in st'.stakes)
       && (left > 0 ==> forall k: StakeKey | k.1 == v :: k in st'.stakes <==> k in st.stakes)
       && forall k: StakeKey | k.1 == v && k in st.stakes && left > 0 ::
            Accrued(st, st', now, k) && st'.stakes[k].stake == st.stakes[k].stake * remaining / ONE
  }

  lemma SlashComposes(st: State, st1: State, st': State, now: nat, v: Addr, remaining: Decimal)
    requires StakersExact(st) && remaining <= ONE && BroughtUpToDate(st, st1, now, v) && v in st'.infos
    requires st' == st1.(stakes := st'.stakes, infos := st1.infos[v := st'.infos[v]])
    requires st'.infos[v].last == st1.infos[v].last && st'.infos[v].stake == IntMul(st1.infos[v].stake, remaining)
    requires st'.infos[v].stakers == if st'.infos[v].stake == 0 then {} else st1.infos[v].stakers
    requires st'.stakes == if st'.infos[v].stake == 0 then st1.stakes - Keys(st1.infos[v].stakers, v)
                           else Scaled(st1.stakes, st1.infos[v].stakers, v, remaining)
    ensures SlashedBy(st, st', now, v, remaining)
  {
    forall k: StakeKey | k.1 != v ensures SameEntry(st, st', k) {
      assert SameEntry(st, st1, k);
    }
    forall k: StakeKey | k.1 == v && k in st.stakes
      ensures if st'.infos[v].stake == 0 then k !in st'.stakes
              else Accrued(st, st', now, k) && st'.stakes[k].stake == st.stakes[k].stake * remaining / ONE {
      assert Accrued(st, st1, now, k);
      assert k == (k.0, v) && (k.0 in st.infos[v].stakers <==> (k.0, v) in st.stakes);
    }
  }

  lemma AddValidatorEffect(st: State, now: nat, added: Validator)
    ensures var r := Apply(st, now, AddValidator(added));
            && !r.Panic? && (r.Error? <==> added.address in st.validatorMap)
            && (r.Ok? ==>
                  && r.value == st.(validatorMap := r.value.validatorMap, validators := st.validators + [added],
                                    infos := r.value.infos)
                  && r.value.validatorMap == st.validatorMap[added.address := added]
                  && r.value.infos == st.infos[added.address := ValidatorInfo({}, 0, now)])
  {
  }

  lemma ProcessQueueEffect(st: State, now: nat)
    requires Sound(st, now) && Apply(st, now, ProcessQueue).Ok?
    ensures Paid(st, now, Apply(st, now, ProcessQueue).value)
  {
    ProcessQueuePays(st, now);
  }

  /** Coins that accounts send, burn or are given leave the staking records alone. */
  lemma BankEffect(st: State, now: nat, from: Addr, to: Addr, coins: seq<Coin>)
    requires Sound(st, now)
    ensures BankOnly(st, Apply(st, now, BankSend(from, to, coins)), Some(from), Some(to), coins)
    ensures BankOnly(st, Apply(st, now, BankBurn(from, coins)), Some(from), None, coins)
    ensures BankOnly(st, Apply(st, now, BankMint(to, coins)), None, Some(to), coins)
  {
    SendOnly(st, from, to, coins);
    BurnOnly(st, from, coins);
    MintOnly(st, to, coins);
  }

  ghost predicate BankOnly(st: State, r: Outcome<State>, from: Option<Addr>, to: Option<Addr>, coins: seq<Coin>) {
    r.Ok? ==> r.value == st.(bank := r.value.bank) && CoinsMoved(st.bank, r.value.bank, from, to, coins)
  }

  lemma SendOnly(st: State, from: Addr, to: Addr, coins: seq<Coin>)
    requires AllNormalized(st.bank)
    ensures BankOnly(st, Banked(st, Send(st.bank, from, to, coins)), Some(from), Some(to), coins)
  {
    if Send(st.bank, from, to, coins).Ok? { SendMoves(st.bank, from, to, coins); }
  }

  lemma BurnOnly(st: State, from: Addr, coins: seq<Coin>)
    requires AllNormalized(st.bank)
    ensures BankOnly(st, Banked(st, Burn(st.bank, from, coins)), Some(from), None, coins)
  {
    if Burn(st.bank, from, coins).Ok? { BurnMoves(st.bank, from, coins); }
  }

  lemma MintOnly(st: State, to: Addr, coins: seq<Coin>)
    requires AllNormalized(st.bank)
    ensures BankOnly(st, Banked(st, Mint(st.bank, to, coins)), None, Some(to), coins)
  {
    if Mint(st.bank, to, coins).Ok? { MintMoves(st.bank, to, coins); }
  }

  // ---------------------------------------------------------------------------
  // Which messages go through
  // ---------------------------------------------------------------------------

  /** Unless it overflows. A condition on the state a message arrives in. */
  ghost predicate Accepted(st: State, now: nat, msg: Msg) {
    match msg
    case Delegate(d, v, amount) =>
      && amount.denom == st.info.bondedDenom && v in st.infos
      && st.infos[v].stake + amount.amount <= MAX_UINT128 && amount.amount <= Held(st.bank, d, amount.denom)
    case Undelegate(d, v, amount) => CanTake(st, d, v, amount)
    case Redelegate(d, v, w, amount) =>
      && CanTake(st, d, v, amount) && w in st.infos
      && (w != v ==> st.infos[w].stake + amount.amount <= MAX_UINT128)
    case WithdrawRewards(d, v) =>
      (d, v) in st.stakes && (!RewardsOverflow(st, now, v) ==> IsDue(st, now, (d, v)))
    case SlashValidator(v, percentage) => percentage <= ONE && v in st.infos
    case ProcessQueue => AllGoThrough(st, now)
    case AddValidator(v) => v.address !in st.validatorMap
    case BankSend(from, _, coins) => Moves(coins) && Covers(BalanceOf(st.bank, from), coins)
    case BankBurn(from, coins) => Moves(coins) && Covers(BalanceOf(st.bank, from), coins)
    case BankMint(_, coins) => Moves(coins)
  }

  predicate CanTake(st: State, d: Addr, v: Addr, amount: Coin) {
    && amount.denom == st.info.bondedDenom && v in st.infos
    && FromInt(amount.amount) <= StakeAt(st, (d, v)) && amount.amount <= st.infos[v].stake
  }

  /** At least one whole coin is due. */
  predicate IsDue(st: State, now: nat, k: StakeKey) {
    && k in st.stakes && k.1 in st.infos && k.1 in st.validatorMap && st.infos[k.1].last <= now
    && WholeDue(st, now, k) > 0
  }

  lemma ApplySucceeds(st: State, now: nat, msg: Msg)
    requires Sound(st, now)
    ensures Apply(st, now, msg).Ok? <==> Accepted(st, now, msg) && !Overflows(st, now, msg)
  {
    ApplyPanics(st, now, msg);
    match msg
    case Delegate(d, v, amount) => DelegateSucceeds(st, now, d, v, amount);
    case Undelegate(d, v, amount) => ChangeStakeOutcome(st, now, d, v, amount, true);
    case Redelegate(d, v, w, amount) => RedelegateSucceeds(st, now, d, v, w, amount);
    case WithdrawRewards(d, v) => WithdrawSucceeds(st, now, d, v);
    case SlashValidator(v, percentage) => SlashPanics(st, now, v, percentage);
    case ProcessQueue => ProcessQueueOutcome(st, now);
    case AddValidator(_) =>
    case BankSend(from, to, coins) => SendExact(st.bank, from, to, coins);
    case BankBurn(from, coins) => BurnExact(st.bank, from, coins);
    case BankMint(to, coins) => MintExact(st.bank, to, coins);
  }

  lemma DelegateSucceeds(st: State, now: nat, d: Addr, v: Addr, amount: Coin)
    requires Sound(st, now)
    ensures DoDelegate(st, now, d, v, amount).Ok?
            <==> Accepted(st, now, Delegate(d, v, amount)) && !DelegateOverflows(st, now, d, v, amount)
  {
    ChangeStakeOutcome(st, now, d, v, amount, false);
    DelegatePanics(st, now, d, v, amount);
    if ChangeStake(st, now, d, v, amount, false).Ok? {
      UpdateStakeEffect(st, now, d, v, amount.amount, false);
      if amount.amount > 0 { SendOneExact(st.bank, d, MODULE, amount); }
    }
  }

  lemma RedelegateSucceeds(st: State, now: nat, d: Addr, v: Addr, w: Addr, amount: Coin)
    requires Sound(st, now)
    ensures DoRedelegate(st, now, d, v, w, amount).Ok?
            <==> Accepted(st, now, Redelegate(d, v, w, amount)) && !RedelegateOverflows(st, now, d, v, w, amount)
  {
    ChangeStakeOutcome(st, now, d, v, amount, true);
    RedelegatePanics(st, now, d, v, w, amount);
    if ChangeStake(st, now, d, v, amount, true).Ok? {
      var st1 := ChangeStake(st, now, d, v, amount, true).value;
      StakeMessageSound(st, now, d, v, amount, true);
      ChangeStakeExact(st, now, d, v, amount, true);
      ChangeStakeOutcome(st1, now, d, w, amount, false);
    }
  }

  lemma WithdrawSucceeds(st: State, now: nat, d: Addr, v: Addr)
    requires Sound(st, now)
    ensures DoWithdraw(st, now, d, v).Ok?
            <==> Accepted(st, now, WithdrawRewards(d, v)) && !WithdrawOverflows(st, now, d, v)
  {
    WithdrawPanics(st, now, d, v);
    if (d, v) in st.stakes { WithdrawFails(st, now, d, v); } else { RemoveRewardsExact(st, now, d, v); }
  }

  lemma WithdrawFails(st: State, now: nat, d: Addr, v: Addr)
    requires Sound(st, now) && (d, v) in st.stakes
    ensures DoWithdraw(st, now, d, v) == Error <==> !RewardsOverflow(st, now, v) && !IsDue(st, now, (d, v))
  {
    WithdrawMints(st, now, d, v);
  }

  // ---------------------------------------------------------------------------
  // Back-dated interest
  // ---------------------------------------------------------------------------

  /** What is due to a delegator, with or without an entry. */
  function DueTo(st: State, now: nat, k: StakeKey): nat {
    if k in st.stakes && k.1 in st.infos && k.1 in st.validatorMap && st.infos[k.1].last <= now
    then DueRewards(st, now, k) else 0
  }

  /** Nothing was earned since the last calculation, which therefore stays where it is, although
      the enlarged stake would have earned something for its delegator in that time. */
  predicate EarnsBackwards(st: State, now: nat, d: Addr, v: Addr, amount: u128) {
    && v in st.infos && v in st.validatorMap && st.infos[v].last < now && NewRewards(st, now, v) == 0
    && var stake := st.infos[v].stake + amount;
       && 0 < stake <= MAX_UINT128
       && var r := Net(now, st.infos[v].last, st.info.apr, st.validatorMap[v].commission, stake);
          r > 0 && Share(r, StakeAt(st, (d, v)) + amount * ONE, stake) > 0
  }

  /** Delegating changes what is due to the delegator, at once, if and only if the new stake earns
      interest for the time before it was there. (No entry is left, with whatever had accrued, if
      nothing is delegated on top of a stake that was slashed away.) */
  lemma DelegationEarnsBackwardsIff(st: State, now: nat, d: Addr, v: Addr, amount: Coin)
    requires Sound(st, now) && Apply(st, now, Delegate(d, v, amount)).Ok?
    ensures var st' := Apply(st, now, Delegate(d, v, amount)).value;
            && ((d, v) !in st'.stakes <==> StakeAt(st, (d, v)) == 0 && amount.amount == 0)
            && ((d, v) in st'.stakes ==>
                  && DueTo(st', now, (d, v)) >= DueTo(st, now, (d, v))
                  && (DueTo(st', now, (d, v)) > DueTo(st, now, (d, v))
                      <==> EarnsBackwards(st, now, d, v, amount.amount)))
  {
    var st' := Apply(st, now, Delegate(d, v, amount)).value;
    DelegateEffect(st, now, d, v, amount);
    DelegateSplits(st, st', now, d, v, amount);
    NewRewardsFit(st, now, d, v, amount);
    if (d, v) in st'.stakes { BackwardsExact(st, st', now, d, v, amount.amount); }
  }

  lemma NewRewardsFit(st: State, now: nat, d: Addr, v: Addr, amount: Coin)
    requires Sound(st, now) && ChangeStake(st, now, d, v, amount, false).Ok?
    ensures v in st.infos && v in st.validatorMap && NewRewards(st, now, v) >= 0
  {
    ChangeStakeOutcome(st, now, d, v, amount, false);
    assert v in st.validatorMap;
    if st.infos[v].last == now {
      NoInterest(now, now, st.info.apr, st.validatorMap[v].commission, st.infos[v].stake);
    }
  }

  lemma BackwardsExact(st: State, st': State, now: nat, d: Addr, v: Addr, amount: u128)
    requires StakeChanged(st, st', now, d, v, amount) && NewRewards(st, now, v) >= 0 && (d, v) in st'.stakes
    ensures DueTo(st', now, (d, v)) >= DueTo(st, now, (d, v))
    ensures DueTo(st', now, (d, v)) > DueTo(st, now, (d, v)) <==> EarnsBackwards(st, now, d, v, amount)
  {
    var vi', commission := st'.infos[v], st.validatorMap[v].commission;
    if vi'.last == now { NoInterest(now, now, st.info.apr, commission, vi'.stake); }
    if (d, v) in st.stakes { assert Accrued(st, st', now, (d, v)); }
  }

  /** The first delegation to a validator earns interest from the day the validator was added:
      a hundred coins, delegated a year later at 10%, have ten coins due at once. */
  lemma FirstDelegationIsBackdated(st: State, d: Addr, v: Addr)
    requires var now := YEAR * NANOS;
             && Sound(st, now) && v in st.infos && v in st.validatorMap && st.infos[v] == ValidatorInfo({}, 0, 0)
             && st.info.apr == ONE / 10 && st.validatorMap[v].commission == 0
             && Apply(st, now, Delegate(d, v, Coin(st.info.bondedDenom, 100))).Ok?
    ensures var now, key := YEAR * NANOS, (d, v);
            var st' := Apply(st, now, Delegate(d, v, Coin(st.info.bondedDenom, 100))).value;
            && key !in st.stakes && key in st'.stakes && v in st'.infos && v in st'.validatorMap
            && st'.infos[v].last <= now && st'.stakes[key].rewards == 0 && WholeDue(st', now, key) == 10
  {
    var now, key, c := YEAR * NANOS, (d, v), Coin(st.info.bondedDenom, 100);
    var st' := Apply(st, now, Delegate(d, v, c)).value;
    assert d in st.infos[v].stakers <==> key in st.stakes;
    DelegateEffect(st, now, d, v, c);
    NoInterest(now, 0, st.info.apr, 0, 0);
    assert st'.infos[v] == ValidatorInfo({d}, 100, 0) && st'.stakes[key] == Shares(100 * ONE, 0);
    TenPercent();
  }

  lemma TenPercent()
    ensures Net(YEAR * NANOS, 0, ONE / 10, 0, 100) == 10 * ONE && Share(10 * ONE, 100 * ONE, 100) == 10 * ONE
  {
    assert Seconds(YEAR * NANOS, 0) == YEAR;
  }
}
