// What every reachable staking state keeps.
module StakingInvariants {
  import opened Ints
  import opened Balances
  import opened Bank
  import opened Decimals
  import opened Staking

  /** A validator's recorded stakers are exactly the delegators with an entry for it. */
  ghost predicate StakersExact(st: State) {
    && (forall v, d | v in st.infos :: d in st.infos[v].stakers <==> (d, v) in st.stakes)
    && (forall k | k in st.stakes :: k.1 in st.infos)
  }

  /** Map, info and list name the same validators, each once, under its own address. */
  ghost predicate ValidatorsAgree(st: State) {
    && st.validatorMap.Keys == st.infos.Keys
    && (forall v | v in st.validatorMap :: st.validatorMap[v].address == v && st.validatorMap[v] in st.validators)
    && (forall i | 0 <= i < |st.validators| ::
          st.validators[i].address in st.validatorMap && st.validatorMap[st.validators[i].address] == st.validators[i])
    && (forall i, j | 0 <= i < j < |st.validators| :: st.validators[i].address != st.validators[j].address)
  }

  ghost predicate UpdatedBefore(st: State, now: nat) {
    forall v | v in st.infos :: st.infos[v].last <= now
  }

  ghost predicate Sound(st: State, now: nat) {
    StakersExact(st) && ValidatorsAgree(st) && UpdatedBefore(st, now) && AllNormalized(st.bank)
  }

  // ---------------------------------------------------------------------------
  // Updating rewards
  // ---------------------------------------------------------------------------

  /** Only reward amounts and the validator's last calculation differ. */
  ghost predicate OnlyRewards(st: State, st': State, validator: Addr, now: nat) {
    && st' == st.(stakes := st'.stakes, infos := st'.infos)
    && st'.infos.Keys == st.infos.Keys && st'.stakes.Keys == st.stakes.Keys
    && (forall k | k in st.stakes :: st'.stakes[k].stake == st.stakes[k].stake)
    && (forall v | v in st.infos :: st'.infos[v]
          == st.infos[v] || (v == validator && st'.infos[v] == st.infos[v].(last := now)))
  }

  /** The state with a validator's rewards brought up to date, from which every change of stakes starts. */
  function Settled(st: State, now: nat, v: Addr): State {
    match UpdateRewards(st, now, v) case Ok(st1) => st1 case Error => st case Panic => st
  }

  lemma UpdateRewardsFrame(st: State, now: nat, validator: Addr)
    ensures var r := UpdateRewards(st, now, validator);
            r.Ok? ==> OnlyRewards(st, r.value, validator, now) && validator in st.infos && validator in st.validatorMap
  {
  }

  lemma OnlyRewardsSound(st: State, st': State, validator: Addr, now: nat)
    requires Sound(st, now) && OnlyRewards(st, st', validator, now)
    ensures Sound(st', now)
  {
    forall v, d | v in st'.infos ensures d in st'.infos[v].stakers <==> (d, v) in st'.stakes {
      assert d in st.infos[v].stakers <==> (d, v) in st.stakes;
    }
  }

  // ---------------------------------------------------------------------------
  // Changing one stake
  // ---------------------------------------------------------------------------

  function StakeAt(st: State, k: StakeKey): Decimal {
    SharesAt(st, k).stake
  }

  /** One delegator's stake with one validator, and the validator's whole stake, move by
      the same amount; the entry and the staker set follow; nothing else changes but rewards. */
  ghost predicate Restaked(st: State, st': State, d: Addr, v: Addr, delta: int, now: nat) {
    && st' == st.(stakes := st'.stakes, infos := st'.infos)
    && v in st.infos && st'.infos.Keys == st.infos.Keys
    && st'.infos[v].stake == st.infos[v].stake + delta
    && st'.infos[v].stakers == (if StakeAt(st', (d, v)) == 0 then st.infos[v].stakers - {d}
          else st.infos[v].stakers + {d})
    && (st'.infos[v].last == st.infos[v].last || st'.infos[v].last == now)
    && (forall w | w in st.infos && w != v :: st'.infos[w] == st.infos[w])
    && StakeAt(st', (d, v)) == StakeAt(st, (d, v)) + delta * ONE
    && ((d, v) in st'.stakes <==> StakeAt(st', (d, v)) > 0)
    && (forall k | k != (d, v) :: (k in st'.stakes <==> k in st.stakes)
          && (k in st.stakes ==> st'.stakes[k].stake == st.stakes[k].stake))
  }

  function Signed(amount: u128, sub: bool): int {
    if sub then -(amount as int) else amount
  }

  lemma PutSharesEffect(st: State, d: Addr, v: Addr, stake: Decimal, delta: int, now: nat)
    requires v in st.infos && 0 <= st.infos[v].stake + delta <= MAX_UINT128
    requires stake == StakeAt(st, (d, v)) + delta * ONE
    ensures Restaked(st, PutShares(st, d, v, SharesAt(st, (d, v)).(stake := stake),
                                   st.infos[v].(stake := st.infos[v].stake + delta)), d, v, delta, now)
  {
  }

  lemma RestakedAfterRewards(st: State, st1: State, st': State, d: Addr, v: Addr, delta: int, now: nat)
    requires OnlyRewards(st, st1, v, now) && Restaked(st1, st', d, v, delta, now)
    ensures Restaked(st, st', d, v, delta, now)
  {
  }

  lemma UpdateStakeShape(st: State, now: nat, d: Addr, v: Addr, amount: u128, sub: bool)
    requires UpdateStake(st, now, d, v, amount, sub).Ok?
    ensures var st1, k, delta := Settled(st, now, v), (d, v), Signed(amount, sub);
            && OnlyRewards(st, st1, v, now) && v in st1.infos
            && 0 <= st1.infos[v].stake + delta <= MAX_UINT128 && 0 <= StakeAt(st1, k) + delta * ONE <= MAX_UINT128
            && UpdateStake(st, now, d, v, amount, sub).value
               == PutShares(st1, d, v, SharesAt(st1, k).(stake := StakeAt(st1, k) + delta * ONE),
                            st1.infos[v].(stake := st1.infos[v].stake + delta))
  {
    UpdateRewardsFrame(st, now, v);
  }

  lemma UpdateStakeEffect(st: State, now: nat, d: Addr, v: Addr, amount: u128, sub: bool)
    ensures var r := UpdateStake(st, now, d, v, amount, sub); r.Ok? ==>
            Restaked(st, r.value, d, v, Signed(amount, sub), now)
  {
    if UpdateStake(st, now, d, v, amount, sub).Ok? {
      UpdateStakeShape(st, now, d, v, amount, sub);
      var st1, delta := Settled(st, now, v), Signed(amount, sub);
      PutSharesEffect(st1, d, v, StakeAt(st1, (d, v)) + delta * ONE, delta, now);
      RestakedAfterRewards(st, st1, UpdateStake(st, now, d, v, amount, sub).value, d, v, delta, now);
    }
  }

  lemma RestakedSound(st: State, st': State, d: Addr, v: Addr, delta: int, now: nat)
    requires Sound(st, now) && Restaked(st, st', d, v, delta, now)
    ensures Sound(st', now)
  {
    RestakedExact(st, st', d, v, delta, now);
  }

  lemma RestakedExact(st: State, st': State, d: Addr, v: Addr, delta: int, now: nat)
    requires StakersExact(st) && Restaked(st, st', d, v, delta, now)
    ensures StakersExact(st')
  {
    forall w, e | w in st'.infos ensures e in st'.infos[w].stakers <==> (e, w) in st'.stakes {
      assert e in st.infos[w].stakers <==> (e, w) in st.stakes;
    }
    forall k | k in st'.stakes ensures k.1 in st'.infos {
      assert k == (d, v) || k in st.stakes;
    }
  }

  // ---------------------------------------------------------------------------
  // Slashing
  // ---------------------------------------------------------------------------

  lemma SettledSound(st: State, now: nat, v: Addr)
    requires Sound(st, now) && UpdateRewards(st, now, v).Ok?
    ensures v in st.infos && OnlyRewards(st, Settled(st, now, v), v, now) && Sound(Settled(st, now, v), now)
  {
    UpdateRewardsFrame(st, now, v);
    OnlyRewardsSound(st, Settled(st, now, v), v, now);
  }

  lemma SlashSound(st: State, now: nat, v: Addr, percentage: Decimal)
    requires Sound(st, now) && Slash(st, now, v, percentage).Ok?
    ensures Sound(Slash(st, now, v, percentage).value, now)
  {
    SettledSound(st, now, v);
    SlashedExact(st, now, v, percentage);
    SlashedRest(st, now, v, percentage);
  }

  /** A slash touches stakes and one validator's info, and never its last calculation. */
  lemma SlashShape(st: State, now: nat, v: Addr, percentage: Decimal)
    requires Slash(st, now, v, percentage).Ok?
    ensures var st1, st' := Settled(st, now, v), Slash(st, now, v, percentage).value;
            && percentage <= ONE && v in st1.infos && v in st'.infos && st'.infos[v].last == st1.infos[v].last
            && st' == st1.(stakes := st'.stakes, infos := st1.infos[v := st'.infos[v]])
            && st'.infos[v].stake == IntMul(st1.infos[v].stake, ONE - percentage)
            && st'.stakes == if st'.infos[v].stake == 0 then st1.stakes - Keys(st1.infos[v].stakers, v)
                             else Scaled(st1.stakes, st1.infos[v].stakers, v, ONE - percentage)
  {
  }

  lemma SlashedRest(st: State, now: nat, v: Addr, percentage: Decimal)
    requires Slash(st, now, v, percentage).Ok? && Sound(Settled(st, now, v), now)
    ensures var st' := Slash(st, now, v, percentage).value;
            ValidatorsAgree(st') && UpdatedBefore(st', now) && AllNormalized(st'.bank)
  {
    SlashShape(st, now, v, percentage);
    var st1, st' := Settled(st, now, v), Slash(st, now, v, percentage).value;
    assert st'.infos.Keys == st1.infos.Keys;
  }

  lemma SlashedExact(st: State, now: nat, v: Addr, percentage: Decimal)
    requires percentage <= ONE && Slash(st, now, v, percentage).Ok? && StakersExact(Settled(st, now, v))
    ensures StakersExact(Slash(st, now, v, percentage).value)
  {
    var st1, st' := Settled(st, now, v), Slash(st, now, v, percentage).value;
    UpdateRewardsFrame(st, now, v);
    forall w, d | w in st'.infos ensures d in st'.infos[w].stakers <==> (d, w) in st'.stakes {
      assert d in st1.infos[w].stakers <==> (d, w) in st1.stakes;
    }
  }

  // ---------------------------------------------------------------------------
  // Every message
  // ---------------------------------------------------------------------------

  lemma ProcessQueueFrame(st: State, now: nat)
    ensures var r := DoProcessQueue(st, now);
            r.Ok? ==> r.value == st.(queue := r.value.queue, bank := r.value.bank)
    decreases |st.queue|
  {
    if st.queue != [] && st.queue[0].payoutAt <= now {
      var u, st1 := st.queue[0], st.(queue := st.queue[1..]);
      if u.amount == 0 {
        ProcessQueueFrame(st1, now);
      } else {
        match Send(st1.bank, MODULE, u.delegator, [Coin(st1.info.bondedDenom, u.amount)])
        case Ok(bank) => ProcessQueueFrame(st1.(bank := bank), now);
        case _ =>
      }
    }
  }

  lemma AddedIsListed(st: State, now: nat, added: Validator)
    requires ValidatorsAgree(st) && added.address !in st.validatorMap
    ensures var st' := DoAddValidator(st, now, added).value;
            forall v | v in st'.validatorMap :: st'.validatorMap[v] in st'.validators
  {
    var st' := DoAddValidator(st, now, added).value;
    forall v | v in st'.validatorMap ensures st'.validatorMap[v] in st'.validators {
      if v == added.address {
        assert st'.validators[|st.validators|] == added;
      } else {
        var i :| 0 <= i < |st.validators| && st.validators[i] == st.validatorMap[v];
        assert st'.validators[i] == st'.validatorMap[v];
      }
    }
  }

  lemma AddedIsDistinct(st: State, now: nat, added: Validator)
    requires ValidatorsAgree(st) && added.address !in st.validatorMap
    ensures var st' := DoAddValidator(st, now, added).value;
            && (forall i | 0 <= i < |st'.validators| ::
                  st'.validators[i].address in st'.validatorMap
                      && st'.validatorMap[st'.validators[i].address] == st'.validators[i])
            && forall i, j | 0 <= i < j < |st'.validators| :: st'.validators[i].address != st'.validators[j].address
  {
    var vs := DoAddValidator(st, now, added).value.validators;
    forall i | 0 <= i < |vs| ensures i < |st.validators| ==>
          vs[i] == st.validators[i]
          && vs[i].address in st.validatorMap {
    }
  }

  lemma AddValidatorAgrees(st: State, now: nat, added: Validator)
    requires ValidatorsAgree(st) && added.address !in st.validatorMap
    ensures ValidatorsAgree(DoAddValidator(st, now, added).value)
  {
    AddedIsListed(st, now, added);
    AddedIsDistinct(st, now, added);
    assert DoAddValidator(st, now, added).value.infos.Keys == st.infos.Keys + {added.address};
  }

  lemma AddValidatorSound(st: State, now: nat, added: Validator)
    requires Sound(st, now) && added.address !in st.validatorMap
    ensures Sound(DoAddValidator(st, now, added).value, now)
  {
    var st' := DoAddValidator(st, now, added).value;
    AddValidatorAgrees(st, now, added);
    forall v, d | v in st'.infos ensures d in st'.infos[v].stakers <==> (d, v) in st'.stakes {
      if v != added.address { assert d in st.infos[v].stakers <==> (d, v) in st.stakes; }
    }
  }

  lemma SoundIgnoresMoney(st: State, st': State, now: nat)
    requires Sound(st, now) && st' == st.(queue := st'.queue, bank := st'.bank) && AllNormalized(st'.bank)
    ensures Sound(st', now)
  {
  }

  lemma StakeMessageSound(st: State, now: nat, d: Addr, v: Addr, amount: Coin, sub: bool)
    requires Sound(st, now) && ChangeStake(st, now, d, v, amount, sub).Ok?
    ensures Sound(ChangeStake(st, now, d, v, amount, sub).value, now)
  {
    UpdateStakeEffect(st, now, d, v, amount.amount, sub);
    RestakedSound(st, ChangeStake(st, now, d, v, amount, sub).value, d, v, Signed(amount.amount, sub), now);
  }

  lemma RemoveRewardsSound(st: State, now: nat, d: Addr, v: Addr)
    requires Sound(st, now) && RemoveRewards(st, now, d, v).Ok?
    ensures OnlyRewards(st, RemoveRewards(st, now, d, v).value.0, v, now)
    ensures Sound(RemoveRewards(st, now, d, v).value.0, now)
  {
    UpdateRewardsFrame(st, now, v);
    OnlyRewardsSound(st, RemoveRewards(st, now, d, v).value.0, v, now);
  }

  lemma BankedSound(st: State, now: nat, b: Ledger)
    requires Sound(st, now) && AllNormalized(b)
    ensures Sound(st.(bank := b), now)
  {
    SoundIgnoresMoney(st, st.(bank := b), now);
  }

  lemma DelegateSound(st: State, now: nat, d: Addr, v: Addr, amount: Coin)
    requires Sound(st, now) && DoDelegate(st, now, d, v, amount).Ok?
    ensures Sound(DoDelegate(st, now, d, v, amount).value, now)
  {
    StakeMessageSound(st, now, d, v, amount, false);
    if amount.amount > 0 {
      var st1 := ChangeStake(st, now, d, v, amount, false).value;
      SendExact(st1.bank, d, MODULE, [amount]);
      BankedSound(st1, now, Send(st1.bank, d, MODULE, [amount]).value);
    }
  }

  lemma UndelegateSound(st: State, now: nat, d: Addr, v: Addr, amount: Coin)
    requires Sound(st, now) && DoUndelegate(st, now, d, v, amount).Ok?
    ensures Sound(DoUndelegate(st, now, d, v, amount).value, now)
  {
    StakeMessageSound(st, now, d, v, amount, true);
    SoundIgnoresMoney(ChangeStake(st, now, d, v, amount, true).value, DoUndelegate(st, now, d, v, amount).value, now);
  }

  lemma RedelegateSound(st: State, now: nat, d: Addr, source: Addr, destination: Addr, amount: Coin)
    requires Sound(st, now) && DoRedelegate(st, now, d, source, destination, amount).Ok?
    ensures Sound(DoRedelegate(st, now, d, source, destination, amount).value, now)
  {
    StakeMessageSound(st, now, d, source, amount, true);
    StakeMessageSound(ChangeStake(st, now, d, source, amount, true).value, now, d, destination, amount, false);
  }

  lemma WithdrawSound(st: State, now: nat, d: Addr, v: Addr)
    requires Sound(st, now) && DoWithdraw(st, now, d, v).Ok?
    ensures Sound(DoWithdraw(st, now, d, v).value, now)
  {
    RemoveRewardsSound(st, now, d, v);
    var (st1, rewards) := RemoveRewards(st, now, d, v).value;
    var coins := [Coin(st1.info.bondedDenom, rewards)];
    MintExact(st1.bank, d, coins);
    BankedSound(st1, now, Mint(st1.bank, d, coins).value);
  }

  lemma {:induction false} ProcessQueueNormalized(st: State, now: nat)
    requires AllNormalized(st.bank) && DoProcessQueue(st, now).Ok?
    ensures AllNormalized(DoProcessQueue(st, now).value.bank)
    decreases |st.queue|
  {
    if st.queue != [] && st.queue[0].payoutAt <= now {
      var u, st1 := st.queue[0], st.(queue := st.queue[1..]);
      if u.amount > 0 {
        var coins := [Coin(st.info.bondedDenom, u.amount)];
        SendExact(st.bank, MODULE, u.delegator, coins);
        st1 := st1.(bank := Send(st.bank, MODULE, u.delegator, coins).value);
      }
      ProcessQueueNormalized(st1, now);
    }
  }

  lemma ProcessQueueSound(st: State, now: nat)
    requires Sound(st, now) && DoProcessQueue(st, now).Ok?
    ensures Sound(DoProcessQueue(st, now).value, now)
  {
    ProcessQueueFrame(st, now);
    ProcessQueueNormalized(st, now);
    SoundIgnoresMoney(st, DoProcessQueue(st, now).value, now);
  }

  lemma BankMessageSound(st: State, now: nat, msg: Msg)
    requires (msg.BankSend? || msg.BankBurn? || msg.BankMint?) && Sound(st, now) && Apply(st, now, msg).Ok?
    ensures Sound(Apply(st, now, msg).value, now)
  {
    match msg {
      case BankSend(sender, to, coins) => SendExact(st.bank, sender, to, coins);
      case BankBurn(sender, coins) => BurnExact(st.bank, sender, coins);
      case BankMint(to, coins) => MintExact(st.bank, to, coins);
    }
    BankedSound(st, now, Apply(st, now, msg).value.bank);
  }

  /** The state after a message is sound again. */
  lemma ApplySound(st: State, now: nat, msg: Msg)
    requires Sound(st, now) && Apply(st, now, msg).Ok?
    ensures Sound(Apply(st, now, msg).value, now)
  {
    match msg
    case Delegate(sender, v, amount) => DelegateSound(st, now, sender, v, amount);
    case Undelegate(sender, v, amount) => UndelegateSound(st, now, sender, v, amount);
    case Redelegate(sender, source, destination, amount) =>
      RedelegateSound(st, now, sender, source, destination, amount);
    case WithdrawRewards(sender, v) => WithdrawSound(st, now, sender, v);
    case SlashValidator(v, percentage) => SlashSound(st, now, v, percentage);
    case ProcessQueue => ProcessQueueSound(st, now);
    case AddValidator(v) => AddValidatorSound(st, now, v);
    case BankSend(_, _, _) => BankMessageSound(st, now, msg);
    case BankBurn(_, _) => BankMessageSound(st, now, msg);
    case BankMint(_, _) => BankMessageSound(st, now, msg);
  }

  // ---------------------------------------------------------------------------
  // Every run
  // ---------------------------------------------------------------------------

  /** Genesis: nothing staked, no validators, any balances. */
  ghost predicate Genesis(st: State) {
    st.stakes == map[] && st.validatorMap == map[] && st.validators == [] && st.infos == map[] && st.queue == []
    && AllNormalized(st.bank)
  }

  lemma SoundLater(st: State, now: nat, later: nat)
    requires Sound(st, now) && now <= later
    ensures Sound(st, later)
  {
  }

  /** In every reachable state a validator's stakers are exactly the delegators with an entry,
      and map, info and list name the same validators. */
  lemma {:induction false} ReachableSound(st: State, run: seq<Event>, now: nat)
    requires Genesis(st) && TimeOrdered(run) && (run != [] ==> run[|run| - 1].now <= now)
    ensures Sound(Run(st, run), now)
    decreases |run|
  {
    if run != [] {
      var prev, e := run[..|run| - 1], run[|run| - 1];
      ReachableSound(st, prev, e.now);
      if Apply(Run(st, prev), e.now, e.msg).Ok? {
        ApplySound(Run(st, prev), e.now, e.msg);
      }
      SoundLater(Run(st, run), e.now, now);
    }
  }
}
