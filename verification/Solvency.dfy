// The staking module can always pay what it owes, and the unbonding queue is
// paid in order, each entry once.
module Solvency {
  import opened Ints
  import opened Sums
  import opened Balances
  import opened Bank
  import opened Decimals
  import opened Staking
  import opened StakingInvariants
  import opened Payouts

  ghost function InfoStakes(st: State): map<Addr, int> {
    map v | v in st.infos :: st.infos[v].stake
  }

  /** Everything recorded as staked, over all validators. */
  ghost function Staked(st: State): int {
    Total(InfoStakes(st))
  }

  lemma {:induction false} QueuedPush(q: seq<Unbonding>, u: Unbonding)
    ensures Queued(q + [u]) == Queued(q) + u.amount
  {
    if q != [] {
      assert (q + [u])[1..] == q[1..] + [u];
      QueuedPush(q[1..], u);
    }
  }

  /** The module account holds at least everything staked and everything unbonding. */
  ghost predicate Solvent(st: State) {
    AllNormalized(st.bank) && Vault(st) >= Staked(st) + Queued(st.queue)
  }

  // ---------------------------------------------------------------------------
  // Single steps
  // ---------------------------------------------------------------------------

  lemma RestakedStaked(st: State, st': State, d: Addr, v: Addr, delta: int, now: nat)
    requires Restaked(st, st', d, v, delta, now)
    ensures Staked(st') == Staked(st) + delta
  {
    TotalDiffersAt(InfoStakes(st), InfoStakes(st'), v);
    assert InfoStakes(st) - {v} == InfoStakes(st') - {v};
  }

  lemma OnlyRewardsStaked(st: State, st': State, v: Addr, now: nat)
    requires OnlyRewards(st, st', v, now)
    ensures Staked(st') == Staked(st)
  {
    assert InfoStakes(st') == InfoStakes(st);
  }

  lemma SameInfosStaked(st: State, st': State)
    requires st'.infos == st.infos
    ensures Staked(st') == Staked(st)
  {
    assert InfoStakes(st') == InfoStakes(st);
  }

  lemma ChangeStakeStaked(st: State, now: nat, d: Addr, v: Addr, amount: Coin, sub: bool)
    requires ChangeStake(st, now, d, v, amount, sub).Ok?
    ensures var st' := ChangeStake(st, now, d, v, amount, sub).value;
            && Staked(st') == Staked(st) + Signed(amount.amount, sub)
            && st' == st.(stakes := st'.stakes, infos := st'.infos) && amount.denom == st.info.bondedDenom
  {
    UpdateStakeEffect(st, now, d, v, amount.amount, sub);
    RestakedStaked(st, ChangeStake(st, now, d, v, amount, sub).value, d, v, Signed(amount.amount, sub), now);
  }

  lemma DelegateSolvent(st: State, now: nat, d: Addr, v: Addr, amount: Coin)
    requires Solvent(st) && d != MODULE && DoDelegate(st, now, d, v, amount).Ok?
    ensures Solvent(DoDelegate(st, now, d, v, amount).value)
  {
    ChangeStakeStaked(st, now, d, v, amount, false);
    var st1, st' := ChangeStake(st, now, d, v, amount, false).value, DoDelegate(st, now, d, v, amount).value;
    if amount.amount > 0 {
      SendExact(st1.bank, d, MODULE, [amount]);
      OneCoin(amount);
      assert Held(st'.bank, MODULE, st.info.bondedDenom) == Vault(st) + amount.amount;
      assert Staked(st') == Staked(st1);
    }
  }

  lemma UndelegateSolvent(st: State, now: nat, d: Addr, v: Addr, amount: Coin)
    requires Solvent(st) && DoUndelegate(st, now, d, v, amount).Ok?
    ensures Solvent(DoUndelegate(st, now, d, v, amount).value)
  {
    ChangeStakeStaked(st, now, d, v, amount, true);
    var st1, st' := ChangeStake(st, now, d, v, amount, true).value, DoUndelegate(st, now, d, v, amount).value;
    QueuedPush(st.queue, st'.queue[|st.queue|]);
    assert Staked(st') == Staked(st1);
  }

  lemma RedelegateSolvent(st: State, now: nat, d: Addr, source: Addr, destination: Addr, amount: Coin)
    requires Solvent(st) && DoRedelegate(st, now, d, source, destination, amount).Ok?
    ensures Solvent(DoRedelegate(st, now, d, source, destination, amount).value)
  {
    ChangeStakeStaked(st, now, d, source, amount, true);
    ChangeStakeStaked(ChangeStake(st, now, d, source, amount, true).value, now, d, destination, amount, false);
  }

  lemma MintSolvent(st: State, st': State, to: Addr, coins: seq<Coin>)
    requires Solvent(st) && Mint(st.bank, to, coins).Ok? && st'.bank == Mint(st.bank, to, coins).value
    requires Staked(st') == Staked(st) && st'.queue == st.queue && st'.info == st.info
    ensures Solvent(st')
  {
    MintExact(st.bank, to, coins);
    assert Held(st'.bank, MODULE, st.info.bondedDenom) >= Vault(st);
  }

  lemma WithdrawSolvent(st: State, now: nat, d: Addr, v: Addr)
    requires Sound(st, now) && Solvent(st) && DoWithdraw(st, now, d, v).Ok?
    ensures Solvent(DoWithdraw(st, now, d, v).value)
  {
    RemoveRewardsSound(st, now, d, v);
    var (st1, rewards) := RemoveRewards(st, now, d, v).value;
    var st' := DoWithdraw(st, now, d, v).value;
    OnlyRewardsStaked(st, st1, v, now);
    SameInfosStaked(st1, st');
    MintSolvent(st, st', d, [Coin(st.info.bondedDenom, rewards)]);
  }

  lemma SlashSolvent(st: State, now: nat, v: Addr, percentage: Decimal)
    requires Solvent(st) && Slash(st, now, v, percentage).Ok?
    ensures Solvent(Slash(st, now, v, percentage).value)
  {
    UpdateRewardsFrame(st, now, v);
    var st1, st' := Settled(st, now, v), Slash(st, now, v, percentage).value;
    OnlyRewardsStaked(st, st1, v, now);
    MulAtMost(st1.infos[v].stake, ONE - percentage);
    SlashShape(st, now, v, percentage);
    InfoStaked(st1, st', v, st'.infos[v]);
  }

  /** One validator's record changes, or is new. */
  lemma InfoStaked(st: State, st': State, v: Addr, vi: ValidatorInfo)
    requires st'.infos == st.infos[v := vi]
    ensures Staked(st') == Staked(st) - (if v in st.infos then st.infos[v].stake else 0) + vi.stake
  {
    TotalUpdate(InfoStakes(st), v, vi.stake);
    assert InfoStakes(st)[v := vi.stake] == InfoStakes(st');
  }

  lemma SendSolvent(st: State, from: Addr, to: Addr, coins: seq<Coin>)
    requires Solvent(st) && from != MODULE
    ensures var b := Send(st.bank, from, to, coins); b.Ok? ==> Solvent(st.(bank := b.value))
    ensures var b := Burn(st.bank, from, coins); b.Ok? ==> Solvent(st.(bank := b.value))
  {
    SendExact(st.bank, from, to, coins);
    BurnExact(st.bank, from, coins);
    var d := st.info.bondedDenom;
    if Send(st.bank, from, to, coins).Ok? {
      var st' := st.(bank := Send(st.bank, from, to, coins).value);
      assert Held(st'.bank, MODULE, d) >= Vault(st) && InfoStakes(st') == InfoStakes(st);
    }
    if Burn(st.bank, from, coins).Ok? {
      var st' := st.(bank := Burn(st.bank, from, coins).value);
      assert Held(st'.bank, MODULE, d) == Vault(st) && InfoStakes(st') == InfoStakes(st);
    }
  }

  // ---------------------------------------------------------------------------
  // The queue
  // ---------------------------------------------------------------------------

  lemma {:induction false} QueuedSplit(q: seq<Unbonding>, n: nat)
    requires n <= |q|
    ensures Queued(q) == Queued(q[..n]) + Queued(q[n..])
  {
    if n == 0 {
      assert q[..0] == [] && q[0..] == q;
    } else {
      QueuedSplit(q[1..], n - 1);
      assert q[..n][1..] == q[1..][..n - 1] && q[1..][n - 1..] == q[n..];
    }
  }

  lemma {:induction false} PaidToAtMostQueued(q: seq<Unbonding>, a: Addr)
    ensures PaidTo(q, a) <= Queued(q)
  {
    if q != [] { PaidToAtMostQueued(q[1..], a); }
  }

  /** With enough in the vault for the whole queue, every entry is covered when its turn comes. */
  lemma AllAffordable(st: State, j: nat)
    requires Vault(st) >= Queued(st.queue) && j < |st.queue|
    ensures Affordable(st, j)
  {
    QueuedSplit(st.queue, j);
    assert st.queue[j..][0] == st.queue[j];
  }

  /** With enough in the vault for the whole queue, no payout lacks the funds: processing can
      only be stopped by a payout that overflows its recipient. */
  lemma CoveredQueue(st: State, now: nat)
    requires AllNormalized(st.bank) && Vault(st) >= Queued(st.queue)
    ensures var r, n := DoProcessQueue(st, now), Matured(st.queue, now);
            && !r.Error? && (r.Panic? <==> exists j: nat :: j < n && Overfull(st, j))
            && (r.Ok? ==> Paid(st, now, r.value))
  {
    ProcessQueueOutcome(st, now);
    forall j: nat | j < |st.queue| ensures Affordable(st, j) { AllAffordable(st, j); }
    if DoProcessQueue(st, now).Ok? {
      ProcessQueuePays(st, now);
    } else {
      assert !AllGoThrough(st, now);
      var j: nat :| j < Matured(st.queue, now) && Overfull(st, j);
      assert OverflowsAt(st, j);
    }
  }

  /** While the supply of the bonded denomination fits 128 bits, no payout overflows. */
  lemma NothingOverfull(st: State, j: nat)
    requires AllNormalized(st.bank) && Vault(st) >= Queued(st.queue) && j < |st.queue|
    requires Supply(st.bank, st.info.bondedDenom) <= MAX_UINT128
    ensures !Overfull(st, j)
  {
    var a := st.queue[j].delegator;
    if a != MODULE {
      PaidToAtMostQueued(st.queue[..j + 1], a);
      QueuedSplit(st.queue, j + 1);
      HeldAtMostSupply(st.bank, a, MODULE, st.info.bondedDenom);
    }
  }

  lemma ProcessQueueSolvent(st: State, now: nat)
    requires Solvent(st) && DoProcessQueue(st, now).Ok?
    ensures Solvent(DoProcessQueue(st, now).value)
  {
    StakedNonNegative(st);
    ProcessQueuePays(st, now);
    var st', n := DoProcessQueue(st, now).value, Matured(st.queue, now);
    assert InfoStakes(st') == InfoStakes(st);
    QueuedSplit(st.queue, n);
    assert Held(st'.bank, MODULE, st.info.bondedDenom)
           == Vault(st) + PaidTo(st.queue[..n], MODULE) - Queued(st.queue[..n]);
  }

  lemma StakedNonNegative(st: State)
    ensures Staked(st) >= 0
  {
    TotalNonNegative(InfoStakes(st));
  }

  /** Sorted by payout time, and nothing further away than a full unbonding from `now`. */
  ghost predicate QueueOrdered(st: State, now: nat) {
    && (forall i, j | 0 <= i < j < |st.queue| :: st.queue[i].payoutAt <= st.queue[j].payoutAt)
    && (forall i | 0 <= i < |st.queue| :: st.queue[i].payoutAt <= PayoutAt(st.info, now))
  }

  // ---------------------------------------------------------------------------
  // Every run
  // ---------------------------------------------------------------------------

  /** Nothing is delegated, sent or burned in the name of the module account itself. */
  ghost predicate NotFromModule(msg: Msg) {
    && (msg.Delegate? ==> msg.sender != MODULE)
    && (msg.BankSend? ==> msg.sender != MODULE)
    && (msg.BankBurn? ==> msg.sender != MODULE)
  }

  lemma StepSolvent(st: State, e: Event)
    requires Sound(st, e.now) && Solvent(st) && NotFromModule(e.msg)
    ensures Solvent(Step(st, e))
  {
    if Apply(st, e.now, e.msg).Ok? {
      match e.msg {
        case Delegate(sender, v, amount) => DelegateSolvent(st, e.now, sender, v, amount);
        case Undelegate(sender, v, amount) => UndelegateSolvent(st, e.now, sender, v, amount);
        case Redelegate(sender, v, w, amount) => RedelegateSolvent(st, e.now, sender, v, w, amount);
        case WithdrawRewards(sender, v) => WithdrawSolvent(st, e.now, sender, v);
        case SlashValidator(v, percentage) => SlashSolvent(st, e.now, v, percentage);
        case ProcessQueue => ProcessQueueSolvent(st, e.now);
        case AddValidator(added) => AddValidatorSolvent(st, e.now, added);
        case BankSend(_, _, _) => BankMessageSolvent(st, e);
        case BankBurn(_, _) => BankMessageSolvent(st, e);
        case BankMint(_, _) => BankMessageSolvent(st, e);
      }
    }
  }

  lemma BankMessageSolvent(st: State, e: Event)
    requires e.msg.BankSend? || e.msg.BankBurn? || e.msg.BankMint?
    requires Solvent(st) && NotFromModule(e.msg) && Apply(st, e.now, e.msg).Ok?
    ensures Solvent(Apply(st, e.now, e.msg).value)
  {
    match e.msg
    case BankSend(sender, to, coins) => SendSolvent(st, sender, to, coins);
    case BankBurn(sender, coins) => SendSolvent(st, sender, sender, coins);
    case BankMint(to, coins) =>
      var st' := Apply(st, e.now, e.msg).value;
      assert InfoStakes(st') == InfoStakes(st);
      MintSolvent(st, st', to, coins);
  }

  lemma AddValidatorSolvent(st: State, now: nat, added: Validator)
    requires Sound(st, now) && Solvent(st) && DoAddValidator(st, now, added).Ok?
    ensures Solvent(DoAddValidator(st, now, added).value)
  {
    InfoStaked(st, DoAddValidator(st, now, added).value, added.address, ValidatorInfo({}, 0, now));
  }

  lemma StakingKeepsQueue(st: State, now: nat, d: Addr, v: Addr, amount: Coin, sub: bool)
    ensures var r := ChangeStake(st, now, d, v, amount, sub); r.Ok? ==>
            r.value.queue == st.queue
            && r.value.info == st.info
  {
    UpdateStakeEffect(st, now, d, v, amount.amount, sub);
  }

  lemma OthersKeepQueue(st: State, e: Event)
    requires !e.msg.Undelegate? && !e.msg.ProcessQueue?
    ensures Step(st, e).queue == st.queue && Step(st, e).info == st.info
  {
    match e.msg {
      case Delegate(sender, v, amount) => StakingKeepsQueue(st, e.now, sender, v, amount, false);
      case Redelegate(sender, v, w, amount) =>
        StakingKeepsQueue(st, e.now, sender, v, amount, true);
        if ChangeStake(st, e.now, sender, v, amount, true).Ok? {
          StakingKeepsQueue(ChangeStake(st, e.now, sender, v, amount, true).value, e.now, sender, w, amount, false);
        }
      case WithdrawRewards(_, v) => UpdateRewardsFrame(st, e.now, v);
      case SlashValidator(v, _) => UpdateRewardsFrame(st, e.now, v);
      case AddValidator(_) =>
      case BankSend(_, _, _) =>
      case BankBurn(_, _) =>
      case BankMint(_, _) =>
    }
  }

  lemma UndelegateQueueOrdered(st: State, now: nat, d: Addr, v: Addr, amount: Coin)
    requires QueueOrdered(st, now)
    ensures var r := DoUndelegate(st, now, d, v, amount); r.Ok? ==> QueueOrdered(r.value, now)
  {
    StakingKeepsQueue(st, now, d, v, amount, true);
  }

  lemma ProcessQueueOrdered(st: State, now: nat)
    requires QueueOrdered(st, now)
    ensures var r := DoProcessQueue(st, now); r.Ok? ==> QueueOrdered(r.value, now)
  {
    if DoProcessQueue(st, now).Ok? { ProcessQueueLeavesSuffix(st, now); }
  }

  lemma StepQueueOrdered(st: State, e: Event)
    requires QueueOrdered(st, e.now)
    ensures QueueOrdered(Step(st, e), e.now)
  {
    if e.msg.Undelegate? {
      UndelegateQueueOrdered(st, e.now, e.msg.sender, e.msg.validator, e.msg.amount);
    } else if e.msg.ProcessQueue? {
      ProcessQueueOrdered(st, e.now);
    } else {
      OthersKeepQueue(st, e);
    }
  }

  lemma {:induction false} ProcessQueueLeavesSuffix(st: State, now: nat)
    requires DoProcessQueue(st, now).Ok?
    ensures var st' := DoProcessQueue(st, now).value;
            st'.queue == st.queue[Matured(st.queue, now)..] && st'.info == st.info
    decreases |st.queue|
  {
    if st.queue != [] && st.queue[0].payoutAt <= now {
      var u, st1 := st.queue[0], st.(queue := st.queue[1..]);
      if u.amount > 0 {
        st1 := st1.(bank := Send(st.bank, MODULE, u.delegator, [Coin(st.info.bondedDenom, u.amount)]).value);
      }
      ProcessQueueLeavesSuffix(st1, now);
    }
  }

  ghost predicate SafeRun(run: seq<Event>) {
    TimeOrdered(run) && forall i | 0 <= i < |run| :: NotFromModule(run[i].msg)
  }

  /** A new unbonding joins behind all others, and is due exactly when the unbonding time has
      passed: no earlier processing reaches it, and none after that leaves it waiting. */
  lemma UnbondingWaits(st: State, now: nat, d: Addr, v: Addr, amount: Coin, later: nat)
    requires QueueOrdered(st, now) && DoUndelegate(st, now, d, v, amount).Ok?
    ensures var queue := DoUndelegate(st, now, d, v, amount).value.queue;
            && queue == st.queue + [queue[|st.queue|]]
            && queue[|st.queue|].delegator == d && queue[|st.queue|].amount == amount.amount
            && (Matured(queue, later) == |queue| <==> later >= PayoutAt(st.info, now))
  {
    StakingKeepsQueue(st, now, d, v, amount, true);
    var queue := DoUndelegate(st, now, d, v, amount).value.queue;
    assert forall i | 0 <= i < |queue| :: queue[i].payoutAt <= PayoutAt(st.info, now);
    if Matured(queue, later) == |queue| {
      assert queue[|st.queue|].payoutAt <= later;
    }
  }

  lemma {:induction false} ReachableSolvent(st: State, run: seq<Event>)
    requires Genesis(st) && SafeRun(run)
    ensures Solvent(Run(st, run))
    decreases |run|
  {
    if run == [] {
      assert Staked(st) == 0;
    } else {
      var prev, e := run[..|run| - 1], run[|run| - 1];
      ReachableSolvent(st, prev);
      ReachableSound(st, prev, e.now);
      StepSolvent(Run(st, prev), e);
    }
  }

  lemma {:induction false} ReachableQueueOrdered(st: State, run: seq<Event>, now: nat)
    requires Genesis(st) && TimeOrdered(run) && (run != [] ==> run[|run| - 1].now <= now)
    ensures QueueOrdered(Run(st, run), now)
    decreases |run|
  {
    if run != [] {
      var prev, e := run[..|run| - 1], run[|run| - 1];
      ReachableQueueOrdered(st, prev, e.now);
      StepQueueOrdered(Run(st, prev), e);
    }
  }

  /** On an ordered queue the matured prefix is exactly the matured entries. */
  lemma MaturedIsPrefix(st: State, now: nat)
    requires QueueOrdered(st, now)
    ensures forall i | 0 <= i < |st.queue| :: i < Matured(st.queue, now) <==> st.queue[i].payoutAt <= now
  {
  }

  /** In every reachable state no payout lacks the funds. Processing the queue pays every matured
      entry exactly once, in order, and leaves exactly the entries that mature after this block,
      unless some payout overflows its recipient; that takes a supply beyond 128 bits. */
  lemma PayoutsNeverFail(st: State, run: seq<Event>, now: nat)
    requires Genesis(st) && SafeRun(run) && (run != [] ==> run[|run| - 1].now <= now)
    ensures var s := Run(st, run);
            var r, n := DoProcessQueue(s, now), Matured(s.queue, now);
            && !r.Error? && (r.Panic? <==> exists j: nat :: j < n && Overfull(s, j))
            && (r.Ok? ==> Paid(s, now, r.value))
            && (Supply(s.bank, s.info.bondedDenom) <= MAX_UINT128 ==> r.Ok?)
            && forall i | 0 <= i < |s.queue| :: i < n <==> s.queue[i].payoutAt <= now
  {
    var s := Run(st, run);
    ReachableSolvent(st, run);
    StakedNonNegative(s);
    ReachableQueueOrdered(st, run, now);
    MaturedIsPrefix(s, now);
    CoveredQueue(s, now);
    if Supply(s.bank, s.info.bondedDenom) <= MAX_UINT128 {
      forall j: nat | j < |s.queue| ensures !Overfull(s, j) { NothingOverfull(s, j); }
    }
  }
}
