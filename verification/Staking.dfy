// Delegations, rewards, slashing and unbonding as functions on the module's state.
// `Error` is a message that fails, `Panic` one that aborts; neither leaves a trace.
module Staking {
  import opened Bytes
  import opened Ints
  import opened Balances
  import opened Bank
  import opened Decimals
  import opened Outcomes

  datatype StakingInfo = StakingInfo(bondedDenom: bytes, unbondingTime: nat, apr: Decimal)

  /** What a delegator has with a validator. Fractional once the validator was slashed. */
  datatype Shares = Shares(stake: Decimal, rewards: Decimal)

  /** Times are in nanoseconds. */
  datatype ValidatorInfo = ValidatorInfo(stakers: set<Addr>, stake: u128, last: nat)

  datatype Validator = Validator(address: Addr, commission: Decimal)

  datatype Unbonding = Unbonding(delegator: Addr, payoutAt: nat, amount: u128)

  /** (delegator, validator) */
  type StakeKey = (Addr, Addr)

  type Stakes = map<StakeKey, Shares>

  datatype State = State(
    info: StakingInfo,
    stakes: Stakes,
    validatorMap: map<Addr, Validator>,
    validators: seq<Validator>,
    infos: map<Addr, ValidatorInfo>,
    queue: seq<Unbonding>,
    bank: Ledger)

  /** "staking_module", the account that holds everything staked or unbonding. */
  const MODULE: Addr := [115, 116, 97, 107, 105, 110, 103, 95, 109, 111, 100, 117, 108, 101]

  const NANOS: nat := 1_000_000_000
  const YEAR: nat := 60 * 60 * 24 * 365

  /** Interest on the whole stake for the whole seconds since the last
      calculation, less the validator's commission. */
  function CalculateRewards(now: nat, since: nat, apr: Decimal, commission: Decimal, stake: u128): Outcome<Decimal> {
    if now < since / NANOS * NANOS then Panic
    else
      var seconds := (now - since / NANOS * NANOS) / NANOS;
      var whole :- Fit(FromInt(stake));
      var yearly :- Fit(Mul(whole, apr));
      var time :- Fit(FromInt(seconds));
      var product :- Fit(Mul(yearly, time));
      var reward :- Fit(Div(product, FromInt(YEAR)));
      var fee :- Fit(Mul(reward, commission));
      if fee > reward then Panic else Ok(reward - fee)
  }

  /** The part of a validator's rewards that goes to one staker. */
  function ShareOfRewards(shares: Shares, validatorStake: u128, rewards: Decimal): Outcome<Decimal> {
    var product :- Fit(Mul(rewards, shares.stake));
    if validatorStake == 0 then Panic else Ok(product / validatorStake)
  }

  function Credit(shares: Shares, validatorStake: u128, rewards: Decimal): Outcome<Shares> {
    var share :- ShareOfRewards(shares, validatorStake, rewards);
    var total :- Fit(shares.rewards + share);
    Ok(shares.(rewards := total))
  }

  /** Every staker has an entry, and crediting it does not panic. */
  predicate AllCredit(stakes: Stakes, stakers: set<Addr>, validator: Addr, validatorStake: u128, rewards: Decimal) {
    forall s | s in stakers :: (s, validator) in stakes && Credit(stakes[(s, validator)], validatorStake, rewards).Ok?
  }

  /** Every staker of `validator` gets a share of `rewards`. */
  function Credited(stakes: Stakes, stakers: set<Addr>, validator: Addr, validatorStake: u128, rewards: Decimal): Stakes
    requires AllCredit(stakes, stakers, validator, validatorStake, rewards)
  {
    map k | k in stakes ::
      if k.1 == validator && k.0 in stakers
      then assert k == (k.0, validator); Credit(stakes[k], validatorStake, rewards).value
      else stakes[k]
  }

  predicate AllStaked(stakes: Stakes, stakers: set<Addr>, validator: Addr) {
    forall s | s in stakers :: (s, validator) in stakes
  }

  function UpdateRewards(st: State, now: nat, validator: Addr): Outcome<State> {
    if validator !in st.infos || validator !in st.validatorMap then Error
    else
      var vi, v := st.infos[validator], st.validatorMap[validator];
      if vi.last >= now then Ok(st)
      else
        var rewards :- CalculateRewards(now, vi.last, st.info.apr, v.commission, vi.stake);
        if rewards == 0 then Ok(st)
        else if !AllCredit(st.stakes, vi.stakers, v.address, vi.stake, rewards) then Panic
        else
          Ok(st.(infos := st.infos[validator := vi.(last := now)],
                 stakes := Credited(st.stakes, vi.stakers, v.address, vi.stake, rewards)))
  }

  function SharesAt(st: State, k: StakeKey): Shares {
    if k in st.stakes then st.stakes[k] else Shares(0, 0)
  }

  function InfoAt(st: State, now: nat, validator: Addr): ValidatorInfo {
    if validator in st.infos then st.infos[validator] else ValidatorInfo({}, 0, now)
  }

  /** Writes back a delegator's shares, dropping the entry when no stake is left. */
  function PutShares(st: State, delegator: Addr, validator: Addr, shares: Shares, vi: ValidatorInfo): State {
    if shares.stake == 0 then
      st.(stakes := st.stakes - {(delegator, validator)},
          infos := st.infos[validator := vi.(stakers := vi.stakers - {delegator})])
    else
      st.(stakes := st.stakes[(delegator, validator) := shares],
          infos := st.infos[validator := vi.(stakers := vi.stakers + {delegator})])
  }

  function UpdateStake(st: State, now: nat, delegator: Addr, validator: Addr, amount: u128, sub: bool): Outcome<State> {
    var st1 :- UpdateRewards(st, now, validator);
    ChangeShares(st1, now, delegator, validator, amount, sub)
  }

  /** Both records change, the delegator's shares and the validator's whole stake. */
  function ChangeShares(st1: State, now: nat, delegator: Addr, validator: Addr, amount: u128,
                        sub: bool): Outcome<State> {
    var vi, shares := InfoAt(st1, now, validator), SharesAt(st1, (delegator, validator));
    var staked :- Fit(FromInt(amount));
    if sub then
      if staked > shares.stake || amount > vi.stake then Error
      else
        Ok(PutShares(st1, delegator, validator, shares.(stake := shares.stake - staked),
            vi.(stake := vi.stake - amount)))
    else
      var total :- Fit(shares.stake + staked);
      if vi.stake + amount > MAX_UINT128 then Error
      else
        Ok(PutShares(st1, delegator, validator, shares.(stake := total), vi.(stake := vi.stake + amount)))
  }

  function Keys(stakers: set<Addr>, validator: Addr): set<StakeKey> {
    set s | s in stakers :: (s, validator)
  }

  function Scaled(stakes: Stakes, stakers: set<Addr>, validator: Addr, factor: Decimal): Stakes
    requires factor <= ONE
  {
    map k | k in stakes ::
      if k.1 == validator && k.0 in stakers then stakes[k].(stake := ScaleDown(stakes[k].stake, factor)) else stakes[k]
  }

  function Slash(st: State, now: nat, validator: Addr, percentage: Decimal): Outcome<State> {
    if percentage > ONE then Error
    else
      var st1 :- UpdateRewards(st, now, validator);
      if validator !in st1.infos then Error
      else
        var vi, remaining := st1.infos[validator], ONE - percentage;
        MulAtMost(vi.stake, remaining);
        var stake := IntMul(vi.stake, remaining);
        if stake == 0 then
          Ok(st1.(stakes := st1.stakes - Keys(vi.stakers, validator),
                  infos := st1.infos[validator := ValidatorInfo({}, 0, vi.last)]))
        else if !AllStaked(st1.stakes, vi.stakers, validator) then Panic
        else
          Ok(st1.(stakes := Scaled(st1.stakes, vi.stakers, validator, remaining),
                  infos := st1.infos[validator := vi.(stake := stake)]))
  }

  // ---------------------------------------------------------------------------
  // The transition function
  // ---------------------------------------------------------------------------

  datatype Msg =
    | Delegate(sender: Addr, validator: Addr, amount: Coin)
    | Undelegate(sender: Addr, validator: Addr, amount: Coin)
    | Redelegate(sender: Addr, source: Addr, destination: Addr, amount: Coin)
    | WithdrawRewards(sender: Addr, validator: Addr)
    | SlashValidator(validator: Addr, percentage: Decimal)
    | ProcessQueue
    | AddValidator(added: Validator)
    | BankSend(sender: Addr, to: Addr, coins: seq<Coin>)
    | BankBurn(sender: Addr, coins: seq<Coin>)
    | BankMint(to: Addr, coins: seq<Coin>)

  /** `add_stake` and `remove_stake`: only the bonded denomination can be staked. */
  function ChangeStake(st: State, now: nat, delegator: Addr, validator: Addr, amount: Coin, sub: bool): Outcome<State> {
    if amount.denom != st.info.bondedDenom then Error
    else UpdateStake(st, now, delegator, validator, amount.amount, sub)
  }

  function Banked(st: State, b: Outcome<Ledger>): Outcome<State> {
    var bank :- b;
    Ok(st.(bank := bank))
  }

  function DoDelegate(st: State, now: nat, sender: Addr, validator: Addr, amount: Coin): Outcome<State> {
    var st1 :- ChangeStake(st, now, sender, validator, amount, false);
    if amount.amount == 0 then Ok(st1) else Banked(st1, Send(st1.bank, sender, MODULE, [amount]))
  }

  /** When an unbonding that starts now is paid out. */
  function PayoutAt(info: StakingInfo, now: nat): nat {
    now + info.unbondingTime * NANOS
  }

  function DoUndelegate(st: State, now: nat, sender: Addr, validator: Addr, amount: Coin): Outcome<State> {
    var st1 :- ChangeStake(st, now, sender, validator, amount, true);
    if PayoutAt(st1.info, now) > MAX_UINT64 then Panic
    else Ok(st1.(queue := st1.queue + [Unbonding(sender, PayoutAt(st1.info, now), amount.amount)]))
  }

  function DoRedelegate(st: State, now: nat, sender: Addr, source: Addr, destination: Addr,
                        amount: Coin): Outcome<State> {
    var st1 :- ChangeStake(st, now, sender, source, amount, true);
    ChangeStake(st1, now, sender, destination, amount, false)
  }

  /** `remove_rewards`: brings rewards up to date, empties the delegator's, and
      returns them in whole coins. */
  function RemoveRewards(st: State, now: nat, delegator: Addr, validator: Addr): Outcome<(State, u128)> {
    var st1 :- UpdateRewards(st, now, validator);
    var k := (delegator, validator);
    if k !in st1.stakes then Error
    else Ok((st1.(stakes := st1.stakes[k := st1.stakes[k].(rewards := 0)]), IntMul(1, st1.stakes[k].rewards)))
  }

  function DoWithdraw(st: State, now: nat, sender: Addr, validator: Addr): Outcome<State> {
    var removed :- RemoveRewards(st, now, sender, validator);
    var (st1, rewards) := removed;
    Banked(st1, Mint(st1.bank, sender, [Coin(st1.info.bondedDenom, rewards)]))
  }

  /** Pays out from the front of the queue for as long as the front has matured. */
  function DoProcessQueue(st: State, now: nat): Outcome<State>
    decreases |st.queue|
  {
    if st.queue == [] || st.queue[0].payoutAt > now then Ok(st)
    else
      var u, st1 := st.queue[0], st.(queue := st.queue[1..]);
      if u.amount == 0 then DoProcessQueue(st1, now)
      else
        var bank :- Send(st1.bank, MODULE, u.delegator, [Coin(st1.info.bondedDenom, u.amount)]);
        DoProcessQueue(st1.(bank := bank), now)
  }

  function DoAddValidator(st: State, now: nat, v: Validator): Outcome<State> {
    if v.address in st.validatorMap then Error
    else Ok(st.(validatorMap := st.validatorMap[v.address := v],
                validators := st.validators + [v],
                infos := st.infos[v.address := ValidatorInfo({}, 0, now)]))
  }

  function Apply(st: State, now: nat, msg: Msg): Outcome<State> {
    match msg
    case Delegate(sender, validator, amount) => DoDelegate(st, now, sender, validator, amount)
    case Undelegate(sender, validator, amount) => DoUndelegate(st, now, sender, validator, amount)
    case Redelegate(sender, source, destination, amount) => DoRedelegate(st, now, sender, source, destination, amount)
    case WithdrawRewards(sender, validator) => DoWithdraw(st, now, sender, validator)
    case SlashValidator(validator, percentage) => Slash(st, now, validator, percentage)
    case ProcessQueue => DoProcessQueue(st, now)
    case AddValidator(v) => DoAddValidator(st, now, v)
    case BankSend(sender, to, coins) => Banked(st, Send(st.bank, sender, to, coins))
    case BankBurn(sender, coins) => Banked(st, Burn(st.bank, sender, coins))
    case BankMint(to, coins) => Banked(st, Mint(st.bank, to, coins))
  }

  /** A message with the time of the block it runs in. */
  datatype Event = Event(now: nat, msg: Msg)

  function Step(st: State, e: Event): State {
    match Apply(st, e.now, e.msg) case Ok(st') => st' case Error => st case Panic => st
  }

  function Run(st: State, run: seq<Event>): State {
    if run == [] then st else Step(Run(st, run[..|run| - 1]), run[|run| - 1])
  }

  /** Block times never go back. */
  ghost predicate TimeOrdered(run: seq<Event>) {
    forall i, j | 0 <= i < j < |run| :: run[i].now <= run[j].now
  }

  /** `get_rewards`, which changes nothing. */
  function QueryRewards(st: State, now: nat, delegator: Addr, validator: Addr): Outcome<Option<u128>> {
    if validator !in st.validatorMap then Error
    else if (delegator, validator) !in st.stakes then Ok(None)
    else if validator !in st.infos then Error
    else
      var vi := st.infos[validator];
      var rewards :- CalculateRewards(now, vi.last, st.info.apr, st.validatorMap[validator].commission, vi.stake);
      var credited :- Credit(st.stakes[(delegator, validator)], vi.stake, rewards);
      Ok(Some(IntMul(1, credited.rewards)))
  }
}
