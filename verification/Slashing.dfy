// How far delegators' shares can drift from the validator's recorded whole stake.
module Slashing {
  import opened Sums
  import opened Balances
  import opened Bank
  import opened Decimals
  import opened Staking
  import opened StakingInvariants

  /** The stakes of a validator's delegators. */
  ghost function StakeOf(stakes: Stakes, v: Addr): map<StakeKey, int> {
    map k | k in stakes && k.1 == v :: stakes[k].stake
  }

  ghost function ShareTotal(st: State, v: Addr): int {
    Total(StakeOf(st.stakes, v))
  }

  ghost function WholeStake(st: State, v: Addr): nat {
    if v in st.infos then st.infos[v].stake else 0
  }

  /** The sum of the delegators' shares less the recorded whole stake, in units of 10^-18. */
  ghost function Gap(st: State, v: Addr): int {
    ShareTotal(st, v) - FromInt(WholeStake(st, v))
  }

  lemma OnlyRewardsGap(st: State, st': State, validator: Addr, now: nat, v: Addr)
    requires OnlyRewards(st, st', validator, now)
    ensures StakeOf(st'.stakes, v) == StakeOf(st.stakes, v) && WholeStake(st', v) == WholeStake(st, v)
  {
  }

  /** Delegating, undelegating and redelegating never change any validator's gap. */
  lemma RestakedGap(st: State, st': State, d: Addr, v: Addr, delta: int, now: nat, w: Addr)
    requires Restaked(st, st', d, v, delta, now)
    ensures ShareTotal(st', w) == ShareTotal(st, w) + if w == v then delta * ONE else 0
    ensures Gap(st', w) == Gap(st, w)
  {
    var m, m' := StakeOf(st.stakes, w), StakeOf(st'.stakes, w);
    if w == v {
      var k := (d, v);
      assert m - {k} == m' - {k};
      assert At(m, k) == StakeAt(st, k) && At(m', k) == StakeAt(st', k);
      TotalDiffersAt(m, m', k);
    } else {
      assert m == m';
    }
  }

  lemma {:induction false} KeysSize(stakers: set<Addr>, v: Addr)
    ensures |Keys(stakers, v)| == |stakers|
  {
    if stakers != {} {
      var s :| s in stakers;
      KeysSize(stakers - {s}, v);
      assert Keys(stakers, v) == Keys(stakers - {s}, v) + {(s, v)};
    }
  }

  lemma StakersAreKeys(st: State, v: Addr)
    requires StakersExact(st) && v in st.infos
    ensures StakeOf(st.stakes, v).Keys == Keys(st.infos[v].stakers, v)
    ensures |StakeOf(st.stakes, v)| == |st.infos[v].stakers|
  {
    var m, ks := StakeOf(st.stakes, v), Keys(st.infos[v].stakers, v);
    forall k ensures k in m <==> k in ks {
      assert k.0 in st.infos[v].stakers <==> (k.0, v) in st.stakes;
    }
    KeysSize(st.infos[v].stakers, v);
    assert m.Keys == ks;
  }

  /** `g'` is `g` scaled by `p`, up to one whole unit above and `n` smallest units below. */
  predicate ScaledWithin(p: nat, g: int, g': int, n: nat) {
    p * g - ONE * n <= ONE * g' < p * g + ONE * ONE
  }

  /** One slash scales the gap and adds at most a rounding error of one whole unit
      upwards and one smallest unit per staker downwards. */
  lemma SlashArithmetic(p: nat, t: int, t': int, s: nat, s': nat, n: nat)
    requires ONE * t' <= p * t <= ONE * t' + ONE * n
    requires ONE * s' <= s * p < ONE * s' + ONE
    ensures ScaledWithin(p, t - s * ONE, t' - s' * ONE, n)
  {
    assert p * (t - s * ONE) == p * t - ONE * (s * p);
    Monotone(ONE, ONE * s', s * p);
    assert ONE * (s * p) < ONE * (ONE * s' + ONE);
  }

  lemma ScaledBounds(p: nat, g: int, low: int, high: int)
    requires p <= ONE && 0 <= low && 0 <= high && -low <= g <= high
    ensures -(ONE * low) <= p * g <= ONE * high
  {
    if g >= 0 {
      Monotone(g, p, ONE);
      Monotone(ONE, g, high);
    } else {
      Monotone(-g, p, ONE);
      Monotone(ONE, -g, low);
      assert p * g == -(p * -g);
    }
  }

  /** Within k whole units above, and k·n smallest units below, of zero. */
  predicate Within(g: int, k: nat, n: nat) {
    -(k * n) <= g <= k * ONE
  }

  lemma SlashBounds(p: nat, g: int, g': int, n: nat, k: nat, most: nat)
    requires p <= ONE && n <= most && Within(g, k, most)
    requires ScaledWithin(p, g, g', n)
    ensures Within(g', k + 1, most)
  {
    ScaledBounds(p, g, k * most, k * ONE);
    assert ONE * g' >= -(ONE * (k * most)) - ONE * n;
    assert g' >= -(k * most) - n;
    assert (k + 1) * most == k * most + most;
    assert (k + 1) * ONE == k * ONE + ONE;
  }

  lemma ClearedGap(st: State, now: nat, v: Addr, percentage: Decimal)
    requires Sound(st, now) && Slash(st, now, v, percentage).Ok?
    requires IntMul(Settled(st, now, v).infos[v].stake, ONE - percentage) == 0
    ensures Gap(Slash(st, now, v, percentage).value, v) == 0
  {
    UpdateRewardsFrame(st, now, v);
    SettledGap(st, now, v);
    var st1, st' := Settled(st, now, v), Slash(st, now, v, percentage).value;
    StakersAreKeys(st1, v);
    SlashShape(st, now, v, percentage);
    assert StakeOf(st'.stakes, v).Keys <= StakeOf(st1.stakes, v).Keys - Keys(st1.infos[v].stakers, v);
    assert StakeOf(st'.stakes, v) == map[];
  }

  /** The gap once every share is scaled by `p` and the whole stake is floored. */
  ghost function GapWhenScaled(st: State, v: Addr, p: Decimal): int
    requires v in st.infos && p <= ONE
  {
    Total(StakeOf(Scaled(st.stakes, st.infos[v].stakers, v, p), v)) - FromInt(IntMul(st.infos[v].stake, p))
  }

  lemma ScaledTotals(st: State, v: Addr, p: Decimal)
    requires StakersExact(st) && v in st.infos && p <= ONE
    ensures ScaledWithin(p, Gap(st, v), GapWhenScaled(st, v, p), |st.infos[v].stakers|)
  {
    var vi := st.infos[v];
    StakersAreKeys(st, v);
    ScaledAreFloors(st, v, p);
    var parts, floors := StakeOf(st.stakes, v), StakeOf(Scaled(st.stakes, vi.stakers, v, p), v);
    FloorsOfSum(floors, parts, p, ONE);
    DivBounds(vi.stake * p, ONE);
    SlashArithmetic(p, Total(parts), Total(floors), vi.stake, IntMul(vi.stake, p), |parts|);
  }

  lemma SettledGap(st: State, now: nat, v: Addr)
    requires Sound(st, now) && UpdateRewards(st, now, v).Ok?
    ensures var st1 := Settled(st, now, v);
            v in st.infos && v in st1.infos && StakersExact(st1) && st1.infos[v].stakers == st.infos[v].stakers
                && Gap(st1, v) == Gap(st, v)
  {
    SettledSound(st, now, v);
    OnlyRewardsGap(st, Settled(st, now, v), v, now, v);
  }

  lemma SlashScales(st: State, now: nat, v: Addr, percentage: Decimal)
    requires Slash(st, now, v, percentage).Ok? && v in Settled(st, now, v).infos
    requires IntMul(Settled(st, now, v).infos[v].stake, ONE - percentage) != 0
    ensures Gap(Slash(st, now, v, percentage).value, v) == GapWhenScaled(Settled(st, now, v), v, ONE - percentage)
  {
    SlashShape(st, now, v, percentage);
  }

  lemma SlashedGap(st: State, now: nat, v: Addr, percentage: Decimal, k: nat, most: nat)
    requires Sound(st, now) && Slash(st, now, v, percentage).Ok? && v in st.infos
    requires |st.infos[v].stakers| <= most && Within(Gap(st, v), k, most)
    ensures Within(Gap(Slash(st, now, v, percentage).value, v), k + 1, most)
  {
    if IntMul(Settled(st, now, v).infos[v].stake, ONE - percentage) == 0 {
      ClearedGap(st, now, v, percentage);
      ZeroWithin(k + 1, most);
    } else {
      var st1, p := Settled(st, now, v), ONE - percentage;
      SettledGap(st, now, v);
      ScaledWithinBounds(st1, v, p, k, most);
      SlashScales(st, now, v, percentage);
    }
  }

  lemma ScaledWithinBounds(st: State, v: Addr, p: Decimal, k: nat, most: nat)
    requires StakersExact(st) && v in st.infos && p <= ONE
    requires |st.infos[v].stakers| <= most && Within(Gap(st, v), k, most)
    ensures Within(GapWhenScaled(st, v, p), k + 1, most)
  {
    ScaledTotals(st, v, p);
    SlashBounds(p, Gap(st, v), GapWhenScaled(st, v, p), |st.infos[v].stakers|, k, most);
  }

  lemma ZeroWithin(k: nat, most: nat)
    ensures Within(0, k, most)
  {
    Monotone(k, 0, most);
  }

  lemma ScaledAreFloors(st: State, v: Addr, p: Decimal)
    requires StakersExact(st) && v in st.infos && p <= ONE
    ensures FloorsOf(StakeOf(Scaled(st.stakes, st.infos[v].stakers, v, p), v), StakeOf(st.stakes, v), p, ONE)
  {
    var stakers := st.infos[v].stakers;
    var parts, floors := StakeOf(st.stakes, v), StakeOf(Scaled(st.stakes, stakers, v, p), v);
    forall k | k in parts ensures ONE * floors[k] <= p * parts[k] < ONE * floors[k] + ONE {
      assert k.0 in stakers <==> (k.0, v) in st.stakes;
      MulBounds(st.stakes[k].stake, p);
    }
  }

  lemma SlashElsewhere(st: State, now: nat, v: Addr, percentage: Decimal, w: Addr)
    requires Slash(st, now, v, percentage).Ok? && w != v
    ensures Gap(Slash(st, now, v, percentage).value, w) == Gap(st, w)
  {
    UpdateRewardsFrame(st, now, v);
    var st1, st' := Settled(st, now, v), Slash(st, now, v, percentage).value;
    OnlyRewardsGap(st, st1, v, now, w);
    assert StakeOf(st'.stakes, w) == StakeOf(st1.stakes, w);
  }

  // ---------------------------------------------------------------------------
  // Over a run
  // ---------------------------------------------------------------------------

  predicate Slashes(st: State, e: Event, v: Addr) {
    e.msg.SlashValidator? && e.msg.validator == v && Apply(st, e.now, e.msg).Ok?
  }

  /** How often a run slashes `v`. */
  ghost function SlashCount(st: State, run: seq<Event>, v: Addr): nat {
    if run == [] then 0
    else
      var prev := run[..|run| - 1];
      SlashCount(st, prev, v) + if Slashes(Run(st, prev), run[|run| - 1], v) then 1 else 0
  }

  ghost function Max(a: nat, b: nat): nat { if a < b then b else a }

  /** The most stakers at a slash, once `e` has happened in `st`. */
  ghost function MostAfter(st: State, e: Event, v: Addr, most: nat): nat {
    if Slashes(st, e, v) && v in st.infos then Max(most, |st.infos[v].stakers|) else most
  }

  /** The most stakers `v` has at any of those slashes. */
  ghost function MostStakers(st: State, run: seq<Event>, v: Addr): nat {
    if run == [] then 0
    else
      var prev := run[..|run| - 1];
      MostAfter(Run(st, prev), run[|run| - 1], v, MostStakers(st, prev, v))
  }

  lemma ChangeStakeKeepsGap(st: State, now: nat, d: Addr, w: Addr, amount: Coin, sub: bool, v: Addr)
    requires ChangeStake(st, now, d, w, amount, sub).Ok?
    ensures Gap(ChangeStake(st, now, d, w, amount, sub).value, v) == Gap(st, v)
  {
    UpdateStakeEffect(st, now, d, w, amount.amount, sub);
    RestakedGap(st, ChangeStake(st, now, d, w, amount, sub).value, d, w, Signed(amount.amount, sub), now, v);
  }

  lemma RedelegateKeepsGap(st: State, now: nat, d: Addr, w: Addr, x: Addr, amount: Coin, v: Addr)
    requires DoRedelegate(st, now, d, w, x, amount).Ok?
    ensures Gap(DoRedelegate(st, now, d, w, x, amount).value, v) == Gap(st, v)
  {
    ChangeStakeKeepsGap(st, now, d, w, amount, true, v);
    ChangeStakeKeepsGap(ChangeStake(st, now, d, w, amount, true).value, now, d, x, amount, false, v);
  }

  lemma DelegateKeepsGap(st: State, now: nat, d: Addr, w: Addr, amount: Coin, v: Addr)
    requires DoDelegate(st, now, d, w, amount).Ok?
    ensures Gap(DoDelegate(st, now, d, w, amount).value, v) == Gap(st, v)
  {
    ChangeStakeKeepsGap(st, now, d, w, amount, false, v);
  }

  lemma UndelegateKeepsGap(st: State, now: nat, d: Addr, w: Addr, amount: Coin, v: Addr)
    requires DoUndelegate(st, now, d, w, amount).Ok?
    ensures Gap(DoUndelegate(st, now, d, w, amount).value, v) == Gap(st, v)
  {
    ChangeStakeKeepsGap(st, now, d, w, amount, true, v);
  }

  lemma WithdrawKeepsGap(st: State, now: nat, d: Addr, w: Addr, v: Addr)
    requires DoWithdraw(st, now, d, w).Ok? && Sound(st, now)
    ensures Gap(DoWithdraw(st, now, d, w).value, v) == Gap(st, v)
  {
    RemoveRewardsSound(st, now, d, w);
    OnlyRewardsGap(st, RemoveRewards(st, now, d, w).value.0, w, now, v);
  }

  lemma AddValidatorKeepsGap(st: State, now: nat, added: Validator, v: Addr)
    requires Sound(st, now) && DoAddValidator(st, now, added).Ok?
    ensures Gap(DoAddValidator(st, now, added).value, v) == Gap(st, v)
  {
    if added.address == v { assert StakeOf(st.stakes, v) == map[]; }
  }

  lemma MoneyKeepsGap(st: State, st': State, v: Addr)
    requires st' == st.(queue := st'.queue, bank := st'.bank)
    ensures Gap(st', v) == Gap(st, v)
  {
  }

  /** No message but a slash of `v` itself touches the gap of `v`. */
  lemma OtherMessagesKeepGap(st: State, e: Event, v: Addr)
    requires Sound(st, e.now) && !Slashes(st, e, v)
    ensures Gap(Step(st, e), v) == Gap(st, v)
  {
    if Apply(st, e.now, e.msg).Ok? {
      match e.msg {
        case Delegate(sender, w, amount) => DelegateKeepsGap(st, e.now, sender, w, amount, v);
        case Undelegate(sender, w, amount) => UndelegateKeepsGap(st, e.now, sender, w, amount, v);
        case Redelegate(sender, w, x, amount) => RedelegateKeepsGap(st, e.now, sender, w, x, amount, v);
        case WithdrawRewards(sender, w) => WithdrawKeepsGap(st, e.now, sender, w, v);
        case SlashValidator(w, percentage) => SlashElsewhere(st, e.now, w, percentage, v);
        case ProcessQueue =>
          ProcessQueueFrame(st, e.now);
          MoneyKeepsGap(st, Step(st, e), v);
        case AddValidator(added) => AddValidatorKeepsGap(st, e.now, added, v);
        case BankSend(_, _, _) => MoneyKeepsGap(st, Step(st, e), v);
        case BankBurn(_, _) => MoneyKeepsGap(st, Step(st, e), v);
        case BankMint(_, _) => MoneyKeepsGap(st, Step(st, e), v);
      }
    }
  }

  lemma WiderWithin(g: int, k: nat, n: nat, n': nat)
    requires Within(g, k, n) && n <= n'
    ensures Within(g, k, n')
  {
    Monotone(k, n, n');
  }

  lemma StepGap(st: State, e: Event, v: Addr, k: nat, n: nat)
    requires Sound(st, e.now) && Within(Gap(st, v), k, n) && (k == 0 ==> Gap(st, v) == 0)
    ensures var k' := k + if Slashes(st, e, v) then 1 else 0;
            Within(Gap(Step(st, e), v), k', MostAfter(st, e, v, n)) && (k' == 0 ==> Gap(Step(st, e), v) == 0)
  {
    if Slashes(st, e, v) {
      UpdateRewardsFrame(st, e.now, v);
      WiderWithin(Gap(st, v), k, n, MostAfter(st, e, v, n));
      SlashedGap(st, e.now, v, e.msg.percentage, k, MostAfter(st, e, v, n));
    } else {
      OtherMessagesKeepGap(st, e, v);
    }
  }

  /** After k slashes of a validator, with n the most stakers it had at any of them, its
      delegators' shares add up to its whole stake within -k·n·10^-18 and k. Without
      slashes they add up exactly. */
  lemma {:induction false} GapBounded(st: State, run: seq<Event>, v: Addr)
    requires Genesis(st) && TimeOrdered(run)
    ensures Within(Gap(Run(st, run), v), SlashCount(st, run, v), MostStakers(st, run, v))
    ensures SlashCount(st, run, v) == 0 ==> Gap(Run(st, run), v) == 0
    decreases |run|
  {
    if run == [] {
      assert StakeOf(st.stakes, v) == map[];
    } else {
      var prev, e := run[..|run| - 1], run[|run| - 1];
      var before := Run(st, prev);
      GapBounded(st, prev, v);
      ReachableSound(st, prev, e.now);
      StepGap(before, e, v, SlashCount(st, prev, v), MostStakers(st, prev, v));
    }
  }
}
