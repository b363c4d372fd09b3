// Sharing a validator's rewards among its stakers, and the query that predicts
// a withdrawal without performing it.
module Rewards {
  import opened Bytes
  import opened Ints
  import opened Sums
  import opened Balances
  import opened Bank
  import opened Decimals
  import opened Outcomes
  import opened Staking
  import opened StakingInvariants
  import opened Interest
  import opened StakingOverflows
  import opened Slashing

  ghost function RewardsOf(stakes: Stakes, v: Addr): map<StakeKey, int> {
    map k | k in stakes && k.1 == v :: stakes[k].rewards
  }

  /** What each staker of `v` is credited out of `rewards`. */
  ghost function CreditsOf(st: State, v: Addr, rewards: Decimal): map<StakeKey, int>
    requires WholeStake(st, v) > 0
  {
    map k | k in st.stakes && k.1 == v :: Share(rewards, st.stakes[k].stake, WholeStake(st, v))
  }

  lemma {:induction false} TotalOfSum<K>(a: map<K, int>, b: map<K, int>, c: map<K, int>)
    requires a.Keys == b.Keys == c.Keys && forall k | k in c :: c[k] == a[k] + b[k]
    ensures Total(c) == Total(a) + Total(b)
    decreases |c|
  {
    if c.Keys != {} {
      var k := Pick(c.Keys);
      TotalOfSum(a - {k}, b - {k}, c - {k});
      assert (a - {k}).Keys == a.Keys - {k} == (b - {k}).Keys == (c - {k}).Keys;
    }
  }

  lemma CreditsAreFloors(st: State, v: Addr, rewards: Decimal)
    requires WholeStake(st, v) > 0
    ensures FloorsOf(CreditsOf(st, v, rewards), StakeOf(st.stakes, v), rewards, ONE * WholeStake(st, v))
  {
    var floors, parts, s := CreditsOf(st, v, rewards), StakeOf(st.stakes, v), WholeStake(st, v);
    forall k | k in parts ensures ONE * s * floors[k] <= rewards * parts[k] < ONE * s * floors[k] + ONE * s {
      NestedFloors(rewards * st.stakes[k].stake, s);
    }
  }

  lemma SharedBounds(total: int, rewards: nat, stake: nat, n: nat)
    requires stake > 0
    requires ONE * stake * total <= rewards * (stake * ONE) <= ONE * stake * total + ONE * stake * n
    ensures total <= rewards <= total + n
    ensures rewards * (stake * ONE) < ONE * stake * total + ONE * stake * n ==> rewards < total + n
  {
    var u := ONE * stake;
    assert rewards * (stake * ONE) == u * rewards;
    assert u * total + u * n == u * (total + n);
    if total > rewards { Grows(u, rewards, total); }
    if rewards > total + n { Grows(u, total + n, rewards); }
  }

  lemma Grows(u: nat, a: int, b: int)
    requires u > 0 && a < b
    ensures u * a < u * b
  {
  }

  /** Floored shares of a whole fall short of it by less than one unit each. */
  lemma FloorsShareOut<K>(floors: map<K, int>, parts: map<K, int>, rewards: nat, stake: nat)
    requires stake > 0 && FloorsOf(floors, parts, rewards, ONE * stake) && Total(parts) == stake * ONE
    ensures var total, n := Total(floors), |parts|; total <= rewards <= total + n && (n >= 1 ==> rewards < total + n)
  {
    FloorsOfSum(floors, parts, rewards, ONE * stake);
    SharedBounds(Total(floors), rewards, stake, |parts|);
    assert |parts| >= 1 ==> parts.Keys != {};
  }

  lemma CreditBounds(st: State, v: Addr, r: Decimal)
    requires StakersExact(st) && v in st.infos && st.infos[v].stake > 0 && Gap(st, v) == 0
    ensures var total, n := Total(CreditsOf(st, v, r)), |st.infos[v].stakers|;
            0 <= total <= r <= total + n && (n >= 1 ==> r < total + n)
  {
    StakersAreKeys(st, v);
    CreditsAreFloors(st, v, r);
    FloorsShareOut(CreditsOf(st, v, r), StakeOf(st.stakes, v), r, st.infos[v].stake);
    CreditsNonNegative(st, v, r);
  }

  lemma CreditsNonNegative(st: State, v: Addr, r: Decimal)
    requires WholeStake(st, v) > 0
    ensures Total(CreditsOf(st, v, r)) >= 0
  {
    TotalNonNegative(CreditsOf(st, v, r));
  }

  /** A reward update hands out at most the new rewards, and falls short of them by less
      than one smallest unit per staker. */
  ghost predicate SharesOut(st: State, now: nat, v: Addr)
    requires v in st.infos && v in st.validatorMap && st.infos[v].last < now
  {
    && UpdateRewards(st, now, v).Ok?
    && var r, n := NewRewards(st, now, v), |st.infos[v].stakers|;
       var credited := Total(RewardsOf(UpdateRewards(st, now, v).value.stakes, v)) - Total(RewardsOf(st.stakes, v));
       0 <= credited <= r <= credited + n && (n >= 1 ==> r < credited + n)
  }

  /** When shares add up to the whole stake, every reward update shares out what is due, or
      else it overflows and panics. */
  lemma RewardsShared(st: State, now: nat, v: Addr)
    requires Sound(st, now) && v in st.infos && st.infos[v].last < now && Gap(st, v) == 0
    ensures v in st.validatorMap && (UpdateRewards(st, now, v).Panic? <==> RewardsOverflow(st, now, v))
    ensures SharesOut(st, now, v) <==> !RewardsOverflow(st, now, v)
  {
    assert v in st.validatorMap;
    UpdateRewardsPanics(st, now, v);
    if !RewardsOverflow(st, now, v) {
      var vi := st.infos[v];
      InterestExact(now, vi.last, st.info.apr, st.validatorMap[v].commission, vi.stake);
      var r := NewRewards(st, now, v);
      if r == 0 {
        assert UpdateRewards(st, now, v).value == st;
      } else {
        if vi.stake == 0 { NoInterest(now, vi.last, st.info.apr, st.validatorMap[v].commission, 0); }
        CreditedTotal(st, now, v, r);
        CreditBounds(st, v, r);
      }
    }
  }

  lemma CreditedTotal(st: State, now: nat, v: Addr, r: Decimal)
    requires Sound(st, now) && v in st.infos && v in st.validatorMap && st.infos[v].last < now && st.infos[v].stake > 0
    requires !RewardsOverflow(st, now, v) && NewRewards(st, now, v) == r > 0
    ensures UpdateRewards(st, now, v).Ok?
    ensures Total(RewardsOf(UpdateRewards(st, now, v).value.stakes, v))
            == Total(RewardsOf(st.stakes, v)) + Total(CreditsOf(st, v, r))
  {
    UpdateRewardsPanics(st, now, v);
    InterestExact(now, st.infos[v].last, st.info.apr, st.validatorMap[v].commission, st.infos[v].stake);
    var st' := UpdateRewards(st, now, v).value;
    var a, b, c := RewardsOf(st.stakes, v), CreditsOf(st, v, r), RewardsOf(st'.stakes, v);
    forall k | k in c ensures c[k] == a[k] + b[k] {
      assert k.0 in st.infos[v].stakers <==> (k.0, v) in st.stakes;
      CreditExact(st.stakes[k], st.infos[v].stake, r);
    }
    TotalOfSum(a, b, c);
  }

  // ---------------------------------------------------------------------------
  // The query
  // ---------------------------------------------------------------------------

  /** Calculating the new rewards, or adding one delegator's share of them, overflows. */
  predicate QueryOverflows(st: State, now: nat, d: Addr, v: Addr)
    requires v in st.infos && v in st.validatorMap && st.infos[v].last <= now && (d, v) in st.stakes
  {
    NewRewardsOverflow(st, now, v) || CreditOverflows(st.stakes[(d, v)], st.infos[v].stake, NewRewards(st, now, v))
  }

  /** The query answers what is due, or panics: iff the validator has no stake to divide by,
      or an overflow. */
  lemma QueryExact(st: State, now: nat, d: Addr, v: Addr)
    requires Sound(st, now) && (d, v) in st.stakes
    ensures v in st.infos && v in st.validatorMap
    ensures QueryRewards(st, now, d, v).Panic? <==> st.infos[v].stake == 0 || QueryOverflows(st, now, d, v)
    ensures !QueryRewards(st, now, d, v).Panic? ==> QueryRewards(st, now, d, v) == Ok(Some(WholeDue(st, now, (d, v))))
  {
    assert (d, v).1 in st.infos;
    var vi, v' := st.infos[v], st.validatorMap[v];
    InterestExact(now, vi.last, st.info.apr, v'.commission, vi.stake);
    if !NewRewardsOverflow(st, now, v) {
      CreditExact(st.stakes[(d, v)], vi.stake, NewRewards(st, now, v));
      if NewRewards(st, now, v) == 0 { MulZero(st.stakes[(d, v)].stake); }
    }
  }

  /** Withdrawing `r` whole coins: the delegator's balance in the bonded denomination rises by
      exactly `r` and no other does, unless it would overflow; and nothing is minted, and the
      message fails, if `r` is zero. */
  ghost predicate Withdraws(st: State, now: nat, d: Addr, v: Addr, r: nat) {
    var out, denom := DoWithdraw(st, now, d, v), st.info.bondedDenom;
    && (r == 0 ==> out == Error)
    && (r > 0 && Held(st.bank, d, denom) + r > MAX_UINT128 ==> out == Panic)
    && (r > 0 && Held(st.bank, d, denom) + r <= MAX_UINT128 ==> out.Ok? && forall a, x ::
          Held(out.value.bank, a, x) == Held(st.bank, a, x) + if a == d && x == denom then r else 0)
  }

  /** A withdrawal brings what is due, or panics: iff bringing the rewards up to date overflows. */
  lemma WithdrawMints(st: State, now: nat, d: Addr, v: Addr)
    requires Sound(st, now) && (d, v) in st.stakes
    ensures v in st.infos && v in st.validatorMap
    ensures RewardsOverflow(st, now, v) ==> DoWithdraw(st, now, d, v) == Panic
    ensures !RewardsOverflow(st, now, v) ==> Withdraws(st, now, d, v, WholeDue(st, now, (d, v)))
  {
    assert (d, v).1 in st.infos;
    RemoveRewardsExact(st, now, d, v);
    if !RewardsOverflow(st, now, v) {
      UpdateRewardsFrame(st, now, v);
      var (st1, r) := RemoveRewards(st, now, d, v).value;
      MintOneExact(st.bank, d, Coin(st.info.bondedDenom, r));
    }
  }

  /** For a delegator with an entry, the query answers exactly what a withdrawal in the same block
      brings, if and only if the validator has a stake and nothing overflows; if it has none, the
      query divides by zero, while a withdrawal still brings whatever had accrued. A query can
      only overflow where a withdrawal does not if rewards are up to date already. */
  lemma QueryAgreesWithWithdrawal(st: State, now: nat, d: Addr, v: Addr)
    requires Sound(st, now) && (d, v) in st.stakes
    ensures v in st.infos && v in st.validatorMap
    ensures var q, r, stake := QueryRewards(st, now, d, v), WholeDue(st, now, (d, v)), st.infos[v].stake;
            && (!RewardsOverflow(st, now, v) ==> Withdraws(st, now, d, v, r))
            && (q == Ok(Some(r)) <==> stake > 0 && !QueryOverflows(st, now, d, v))
            && (stake == 0 || QueryOverflows(st, now, d, v) ==> q == Panic)
            && (stake == 0 ==> r == st.stakes[(d, v)].rewards / ONE)
            && (stake > 0 && st.infos[v].last < now && !RewardsOverflow(st, now, v) ==> !QueryOverflows(st, now, d, v))
  {
    QueryExact(st, now, d, v);
    WithdrawMints(st, now, d, v);
    var vi := st.infos[v];
    if vi.stake == 0 {
      NoInterest(now, vi.last, st.info.apr, st.validatorMap[v].commission, 0);
    } else if vi.last < now && !RewardsOverflow(st, now, v) {
      UpdatesThenQueries(st, now, d, v);
    }
  }

  lemma UpdatesThenQueries(st: State, now: nat, d: Addr, v: Addr)
    requires Sound(st, now) && (d, v) in st.stakes && v in st.infos && v in st.validatorMap
    requires st.infos[v].stake > 0 && st.infos[v].last < now && !RewardsOverflow(st, now, v)
    ensures !QueryOverflows(st, now, d, v)
  {
    var k, stake, r := (d, v), st.infos[v].stake, NewRewards(st, now, v);
    if r == 0 {
      MulZero(st.stakes[k].stake);
    } else if CreditOverflows(st.stakes[k], stake, r) {
      assert SharesOverflow(st, v, r);
    }
  }

  // ---------------------------------------------------------------------------
  // Runs without slashes
  // ---------------------------------------------------------------------------

  ghost predicate PositiveShares(st: State) {
    forall k | k in st.stakes :: st.stakes[k].stake > 0
  }

  lemma ChangeStakePositive(st: State, now: nat, d: Addr, v: Addr, amount: Coin, sub: bool)
    requires PositiveShares(st) && ChangeStake(st, now, d, v, amount, sub).Ok?
    ensures PositiveShares(ChangeStake(st, now, d, v, amount, sub).value)
  {
    UpdateStakeEffect(st, now, d, v, amount.amount, sub);
    var st' := ChangeStake(st, now, d, v, amount, sub).value;
    forall k | k in st'.stakes ensures st'.stakes[k].stake > 0 {
      assert k != (d, v) ==> k in st.stakes;
    }
  }

  lemma StepPositive(st: State, e: Event)
    requires PositiveShares(st) && !e.msg.SlashValidator?
    ensures PositiveShares(Step(st, e))
  {
    match e.msg {
      case Delegate(d, v, amount) =>
        if ChangeStake(st, e.now, d, v, amount, false).Ok? { ChangeStakePositive(st, e.now, d, v, amount, false); }
      case Undelegate(d, v, amount) =>
        if ChangeStake(st, e.now, d, v, amount, true).Ok? { ChangeStakePositive(st, e.now, d, v, amount, true); }
      case Redelegate(d, v, w, amount) =>
        if ChangeStake(st, e.now, d, v, amount, true).Ok? {
          ChangeStakePositive(st, e.now, d, v, amount, true);
          var st1 := ChangeStake(st, e.now, d, v, amount, true).value;
          if ChangeStake(st1, e.now, d, w, amount, false).Ok? { ChangeStakePositive(st1, e.now, d, w, amount, false); }
        }
      case WithdrawRewards(_, v) => UpdateRewardsFrame(st, e.now, v);
      case ProcessQueue => ProcessQueueFrame(st, e.now);
      case AddValidator(_) =>
      case BankSend(_, _, _) =>
      case BankBurn(_, _) =>
      case BankMint(_, _) =>
    }
  }

  ghost predicate SlashFree(run: seq<Event>) {
    forall i | 0 <= i < |run| :: !run[i].msg.SlashValidator?
  }

  lemma {:induction false} SlashFreePositive(st: State, run: seq<Event>)
    requires Genesis(st) && SlashFree(run)
    ensures PositiveShares(Run(st, run)) && forall v :: SlashCount(st, run, v) == 0
    decreases |run|
  {
    if run != [] {
      var prev := run[..|run| - 1];
      SlashFreePositive(st, prev);
      StepPositive(Run(st, prev), run[|run| - 1]);
    }
  }

  /** Without slashes, whoever has an entry has a positive part of a positive whole stake. */
  lemma EntryHasStake(st: State, d: Addr, v: Addr)
    requires PositiveShares(st) && (d, v) in st.stakes && v in st.infos && Gap(st, v) == 0
    ensures st.infos[v].stake > 0
  {
    EachAtMostTotal(StakeOf(st.stakes, v), (d, v));
  }

  /** In every state reached without slashes: each reward update shares out the new rewards to
      within one smallest unit per staker, and each rewards query answers what a withdrawal in
      the same block brings; except that either panics, exactly when its arithmetic overflows. */
  lemma SlashFreeRewards(st: State, run: seq<Event>, now: nat, d: Addr, v: Addr)
    requires Genesis(st) && TimeOrdered(run) && SlashFree(run) && (run != [] ==> run[|run| - 1].now <= now)
    ensures var s := Run(st, run);
            && Sound(s, now) && Gap(s, v) == 0
            && (v in s.infos && s.infos[v].last < now ==>
                  v in s.validatorMap && (SharesOut(s, now, v) <==> !RewardsOverflow(s, now, v)))
            && ((d, v) in s.stakes ==>
                  && v in s.infos && v in s.validatorMap && s.infos[v].stake > 0
                  && var due := WholeDue(s, now, (d, v));
                     && (QueryRewards(s, now, d, v) == Ok(Some(due)) <==> !QueryOverflows(s, now, d, v))
                     && (!RewardsOverflow(s, now, v) ==> Withdraws(s, now, d, v, due)))
  {
    var s := Run(st, run);
    ReachableSound(st, run, now);
    SlashFreePositive(st, run);
    assert SlashCount(st, run, v) == 0;
    GapBounded(st, run, v);
    if v in s.infos && s.infos[v].last < now { RewardsShared(s, now, v); }
    if (d, v) in s.stakes {
      assert (d, v).1 in s.infos;
      EntryHasStake(s, d, v);
      QueryAgreesWithWithdrawal(s, now, d, v);
    }
  }
}
