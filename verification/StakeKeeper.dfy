// The staking and distribution keepers, updating their stored maps in place.
module StakeKeeper {
  import opened Ints
  import opened Balances
  import opened Bank
  import opened Decimals
  import opened Outcomes
  import Staking
  import opened StakingTypes = Staking

  class StakeKeeper {
    const info: StakingInfo
    const bank: BankKeeper
    var stakes: Stakes
    var validatorMap: map<Addr, Validator>
    var validators: seq<Validator>
    var infos: map<Addr, ValidatorInfo>
    var queue: seq<Unbonding>

    ghost function Abs(): State
      reads this, bank
    {
      State(info, stakes, validatorMap, validators, infos, queue, bank.balances)
    }

    constructor (info: StakingInfo, bank: BankKeeper)
      ensures this.bank == bank && Abs() == State(info, map[], map[], [], map[], [], bank.balances)
    {
      this.info, this.bank := info, bank;
      stakes, validatorMap, validators, infos, queue := map[], map[], [], map[], [];
    }

    method AddValidator(now: nat, v: Validator) returns (r: Verdict)
      modifies this
      ensures Agrees(r, Abs(), Staking.DoAddValidator(old(Abs()), now, v))
    {
      if v.address in validatorMap {
        return Failed;
      }
      validatorMap := validatorMap[v.address := v];
      validators := validators + [v];
      infos := infos[v.address := ValidatorInfo({}, 0, now)];
      r := Done;
    }

    method UpdateRewards(now: nat, validator: Addr) returns (r: Verdict)
      modifies this
      ensures Agrees(r, Abs(), Staking.UpdateRewards(old(Abs()), now, validator))
    {
      if validator !in infos || validator !in validatorMap {
        return Failed;
      }
      var vi, v := infos[validator], validatorMap[validator];
      if vi.last >= now {
        return Done;
      }
      var rewards := CalculateRewards(now, vi.last, info.apr, v.commission, vi.stake);
      match rewards
      case Error => return Failed;
      case Panic => return Panicked;
      case Ok(newRewards) =>
        if newRewards == 0 {
          return Done;
        }
        infos := infos[validator := vi.(last := now)];
        r := CreditStakers(vi.stakers, v.address, vi.stake, newRewards);
    }

    /** Updates all stakers, in no particular order. */
    method CreditStakers(stakers: set<Addr>, validator: Addr, validatorStake: u128,
                         rewards: Decimal) returns (r: Verdict)
      modifies `stakes
      ensures r != Failed
      ensures r == Done <==> AllCredit(old(stakes), stakers, validator, validatorStake, rewards)
      ensures r == Done ==> stakes == Credited(old(stakes), stakers, validator, validatorStake, rewards)
    {
      var todo := stakers;
      while todo != {}
        invariant todo <= stakers
        invariant AllCredit(old(stakes), stakers - todo, validator, validatorStake, rewards)
        invariant stakes == Credited(old(stakes), stakers - todo, validator, validatorStake, rewards)
        decreases todo
      {
        var staker :| staker in todo;
        var k := (staker, validator);
        if k !in stakes {
          return Panicked;
        }
        var credited := Credit(stakes[k], validatorStake, rewards);
        if !credited.Ok? {
          return Panicked;
        }
        stakes := stakes[k := credited.value];
        todo := todo - {staker};
      }
      assert stakers - todo == stakers;
      r := Done;
    }

    method UpdateStake(now: nat, delegator: Addr, validator: Addr, amount: u128, sub: bool) returns (r: Verdict)
      modifies this
      ensures Agrees(r, Abs(), Staking.UpdateStake(old(Abs()), now, delegator, validator, amount, sub))
    {
      // earlier rewards accrue on the earlier stake
      r := UpdateRewards(now, validator);
      if r != Done {
        return;
      }
      r := ChangeShares(now, delegator, validator, amount, sub);
    }

    method ChangeShares(now: nat, delegator: Addr, validator: Addr, amount: u128, sub: bool) returns (r: Verdict)
      modifies `stakes, `infos
      ensures Agrees(r, Abs(), Staking.ChangeShares(old(Abs()), now, delegator, validator, amount, sub))
    {
      var k := (delegator, validator);
      var newcomer := ValidatorInfo({}, 0, now);
      var vi := if validator in infos then infos[validator] else newcomer;
      var shares := if k in stakes then stakes[k] else Shares(0, 0);
      if FromInt(amount) > MAX_UINT128 {
        return Panicked;
      }
      if sub {
        if FromInt(amount) > shares.stake || amount > vi.stake {
          return Failed;
        }
        shares, vi := shares.(stake := shares.stake - FromInt(amount)), vi.(stake := vi.stake - amount);
      } else {
        if shares.stake + FromInt(amount) > MAX_UINT128 {
          return Panicked;
        }
        if vi.stake + amount > MAX_UINT128 {
          return Failed;
        }
        shares, vi := shares.(stake := shares.stake + FromInt(amount)), vi.(stake := vi.stake + amount);
      }
      SaveShares(delegator, validator, shares, vi);
      r := Done;
    }

    method SaveShares(delegator: Addr, validator: Addr, shares: Shares, vi: ValidatorInfo)
      modifies `stakes, `infos
      ensures Abs() == PutShares(old(Abs()), delegator, validator, shares, vi)
    {
      // an entry with no stake is dropped, rewards included
      var k := (delegator, validator);
      if shares.stake == 0 {
        stakes := stakes - {k};
        infos := infos[validator := vi.(stakers := vi.stakers - {delegator})];
      } else {
        stakes := stakes[k := shares];
        infos := infos[validator := vi.(stakers := vi.stakers + {delegator})];
      }
    }

    method ChangeStake(now: nat, delegator: Addr, validator: Addr, amount: Coin, sub: bool) returns (r: Verdict)
      modifies this
      ensures Agrees(r, Abs(), Staking.ChangeStake(old(Abs()), now, delegator, validator, amount, sub))
    {
      if amount.denom != info.bondedDenom {
        return Failed;
      }
      r := UpdateStake(now, delegator, validator, amount.amount, sub);
    }

    method Slash(now: nat, validator: Addr, percentage: Decimal) returns (r: Verdict)
      modifies this
      ensures Agrees(r, Abs(), Staking.Slash(old(Abs()), now, validator, percentage))
    {
      if percentage > ONE {
        return Failed;
      }
      // earlier rewards accrue on the stake before the slash
      r := UpdateRewards(now, validator);
      if r != Done {
        return;
      }
      if validator !in infos {
        return Failed;
      }
      var vi := infos[validator];
      var remaining := ONE - percentage;
      MulAtMost(vi.stake, remaining);
      var stake := IntMul(vi.stake, remaining);
      if stake == 0 {
        RemoveStakes(vi.stakers, validator);
        infos := infos[validator := ValidatorInfo({}, 0, vi.last)];
      } else {
        r := ScaleStakes(vi.stakers, validator, remaining);
        if r == Done {
          infos := infos[validator := vi.(stake := stake)];
        }
      }
    }

    method RemoveStakes(stakers: set<Addr>, validator: Addr)
      modifies `stakes
      ensures stakes == old(stakes) - Keys(stakers, validator)
    {
      var todo := stakers;
      while todo != {}
        invariant todo <= stakers && stakes == old(stakes) - Keys(stakers - todo, validator)
        decreases todo
      {
        var delegator :| delegator in todo;
        stakes := stakes - {(delegator, validator)};
        todo := todo - {delegator};
      }
      assert stakers - todo == stakers;
    }

    method ScaleStakes(stakers: set<Addr>, validator: Addr, factor: Decimal) returns (r: Verdict)
      requires factor <= ONE
      modifies `stakes
      ensures r != Failed && (r == Done <==> AllStaked(old(stakes), stakers, validator))
      ensures r == Done ==> stakes == Scaled(old(stakes), stakers, validator, factor)
    {
      var todo := stakers;
      while todo != {}
        invariant todo <= stakers && AllStaked(old(stakes), stakers - todo, validator)
        invariant stakes == Scaled(old(stakes), stakers - todo, validator, factor)
        decreases todo
      {
        var delegator :| delegator in todo;
        var k := (delegator, validator);
        if k !in stakes {
          return Panicked;
        }
        stakes := stakes[k := stakes[k].(stake := ScaleDown(stakes[k].stake, factor))];
        todo := todo - {delegator};
      }
      assert stakers - todo == stakers;
      r := Done;
    }

    method Delegate(now: nat, sender: Addr, validator: Addr, amount: Coin) returns (r: Verdict)
      modifies this, bank
      ensures Agrees(r, Abs(), Staking.DoDelegate(old(Abs()), now, sender, validator, amount))
    {
      r := ChangeStake(now, sender, validator, amount, false);
      // the stake is recorded before the coins move
      if r == Done && amount.amount != 0 {
        r := bank.DoSend(sender, MODULE, [amount]);
      }
    }

    method Undelegate(now: nat, sender: Addr, validator: Addr, amount: Coin) returns (r: Verdict)
      modifies this
      ensures Agrees(r, Abs(), Staking.DoUndelegate(old(Abs()), now, sender, validator, amount))
    {
      r := ChangeStake(now, sender, validator, amount, true);
      if r == Done {
        // the coins stay with the module until they mature
        var payoutAt := PayoutAt(info, now);
        if payoutAt > MAX_UINT64 {
          return Panicked;
        }
        queue := queue + [Unbonding(sender, payoutAt, amount.amount)];
      }
    }

    method Redelegate(now: nat, sender: Addr, source: Addr, destination: Addr, amount: Coin) returns (r: Verdict)
      modifies this
      ensures Agrees(r, Abs(), Staking.DoRedelegate(old(Abs()), now, sender, source, destination, amount))
    {
      r := ChangeStake(now, sender, source, amount, true);
      if r == Done {
        r := ChangeStake(now, sender, destination, amount, false);
      }
    }

    method ProcessQueue(now: nat) returns (r: Verdict)
      modifies this, bank
      ensures Agrees(r, Abs(), Staking.DoProcessQueue(old(Abs()), now))
    {
      while queue != [] && queue[0].payoutAt <= now
        invariant Staking.DoProcessQueue(Abs(), now) == Staking.DoProcessQueue(old(Abs()), now)
        decreases |queue|
      {
        var u := queue[0];
        queue := queue[1..];
        if u.amount > 0 {
          r := bank.DoSend(MODULE, u.delegator, [Coin(info.bondedDenom, u.amount)]);
          if r != Done {
            return;
          }
        }
      }
      r := Done;
    }

    /** `WithdrawDelegatorReward`: mints the delegator's rewards to it. */
    method Withdraw(now: nat, sender: Addr, validator: Addr) returns (r: Verdict)
      modifies this, bank
      ensures Agrees(r, Abs(), Staking.DoWithdraw(old(Abs()), now, sender, validator))
    {
      r := UpdateRewards(now, validator);
      if r != Done {
        return;
      }
      var k := (sender, validator);
      if k !in stakes {
        return Failed;
      }
      var rewards := IntMul(1, stakes[k].rewards);
      stakes := stakes[k := stakes[k].(rewards := 0)];
      r := bank.DoMint(sender, [Coin(info.bondedDenom, rewards)]);
    }

    method Execute(now: nat, msg: Msg) returns (r: Verdict)
      modifies this, bank
      ensures Agrees(r, Abs(), Staking.Apply(old(Abs()), now, msg))
    {
      match msg
      case Delegate(sender, validator, amount) => r := Delegate(now, sender, validator, amount);
      case Undelegate(sender, validator, amount) => r := Undelegate(now, sender, validator, amount);
      case Redelegate(sender, source, destination, amount) => r := Redelegate(now, sender, source, destination, amount);
      case WithdrawRewards(sender, validator) => r := Withdraw(now, sender, validator);
      case SlashValidator(validator, percentage) => r := Slash(now, validator, percentage);
      case ProcessQueue => r := ProcessQueue(now);
      case AddValidator(v) => r := AddValidator(now, v);
      case BankSend(_, _, _) => r := ExecuteBank(now, msg);
      case BankBurn(_, _) => r := ExecuteBank(now, msg);
      case BankMint(_, _) => r := ExecuteBank(now, msg);
    }

    /** What accounts do with their coins without the staking module. */
    method ExecuteBank(now: nat, msg: Msg) returns (r: Verdict)
      requires msg.BankSend? || msg.BankBurn? || msg.BankMint?
      modifies bank
      ensures Agrees(r, Abs(), Staking.Apply(old(Abs()), now, msg))
    {
      match msg
      case BankSend(sender, to, coins) => r := SendCoins(sender, to, coins);
      case BankBurn(sender, coins) => r := BurnCoins(sender, coins);
      case BankMint(to, coins) => r := MintCoins(to, coins);
    }

    method SendCoins(sender: Addr, to: Addr, coins: seq<Coin>) returns (r: Verdict)
      modifies bank
      ensures Agrees(r, Abs(), Banked(old(Abs()), Send(old(bank.balances), sender, to, coins)))
    {
      r := bank.DoSend(sender, to, coins);
    }

    method BurnCoins(sender: Addr, coins: seq<Coin>) returns (r: Verdict)
      modifies bank
      ensures Agrees(r, Abs(), Banked(old(Abs()), Burn(old(bank.balances), sender, coins)))
    {
      r := bank.DoBurn(sender, coins);
    }

    method MintCoins(to: Addr, coins: seq<Coin>) returns (r: Verdict)
      modifies bank
      ensures Agrees(r, Abs(), Banked(old(Abs()), Mint(old(bank.balances), to, coins)))
    {
      r := bank.DoMint(to, coins);
    }
  }
}
