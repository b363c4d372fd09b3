// What each token message changes, and what it leaves alone.
module Cw20Effects {
  import opened Bytes
  import opened Expirations
  import opened Ints
  import opened Outcomes
  import opened Cw20
  import opened Cw20Runs

  function Holds(st: State, a: Addr): nat {
    BalanceOf(st.balances, a)
  }

  /** `amount` leaves one account, if any, and reaches another or the same, if any. */
  ghost predicate TokensMoved(st: State, st': State, from: Option<Addr>, to: Option<Addr>, amount: nat) {
    forall a :: Holds(st', a)
      == Holds(st, a) - (if from == Some(a) then amount else 0) + (if to == Some(a) then amount else 0)
  }

  /** What `s` may spend of `o`'s tokens, and until when; both maps say so. */
  ghost predicate Allows(st: State, o: Addr, s: Addr, a: Option<Allowance>) {
    Lookup(st.allowances, (o, s)) == a == Lookup(st.mirror, (s, o))
  }

  /** One allowance becomes `a`, in both maps, and no other changes. */
  ghost predicate AllowanceBecomes(st: State, st': State, o: Addr, s: Addr, a: Option<Allowance>) {
    && Allows(st', o, s, a)
    && forall x, y | (x, y) != (o, s) :: Allows(st', x, y, Lookup(st.allowances, (x, y)))
  }

  // ---------------------------------------------------------------------------
  // Moving and burning tokens
  // ---------------------------------------------------------------------------

  lemma TransferEffect(st: State, block: Block, sender: Addr, to: Addr, amount: nat)
    requires Sound(st)
    ensures var r := Apply(st, block, Transfer(sender, to, amount));
            && r == Apply(st, block, Send(sender, to, amount))
            && (r.Ok? <==> 0 < amount <= Holds(st, sender))
            && (r.Ok? ==> r.value == st.(balances := r.value.balances)
                          && TokensMoved(st, r.value, Some(sender), Some(to), amount))
  {
    MoveExact(st, sender, to, amount);
  }

  lemma BurnEffect(st: State, block: Block, sender: Addr, amount: nat)
    requires Sound(st)
    ensures var r := Apply(st, block, Burn(sender, amount));
            && (r.Ok? <==> 0 < amount <= Holds(st, sender))
            && (r.Ok? ==> r.value == st.(balances := r.value.balances, supply := r.value.supply)
                          && r.value.supply == st.supply - amount
                          && TokensMoved(st, r.value, Some(sender), None, amount))
  {
    DestroyExact(st, sender, amount);
  }

  lemma MintEffect(st: State, block: Block, sender: Addr, to: Addr, amount: nat)
    requires Sound(st)
    ensures var r := Apply(st, block, Mint(sender, to, amount));
            && (r.Ok? <==> amount > 0 && st.mint.Some? && st.mint.value.minter == sender
                           && st.supply + amount <= MAX_UINT128
                           && (st.mint.value.cap.Some? ==> st.supply + amount <= st.mint.value.cap.value))
            && (r.Ok? ==> r.value == st.(balances := r.value.balances, supply := r.value.supply)
                          && r.value.supply == st.supply + amount
                          && TokensMoved(st, r.value, None, Some(to), amount))
  {
    MintConserves(st, sender, to, amount);
  }

  // ---------------------------------------------------------------------------
  // Spending for another
  // ---------------------------------------------------------------------------

  /** There is an allowance, it has not expired, and it covers the amount. */
  predicate MaySpend(st: State, block: Block, owner: Addr, spender: Addr, amount: nat) {
    match Lookup(st.allowances, (owner, spender))
    case None => false
    case Some(a) => amount <= a.amount && !a.expires.IsExpired(block)
  }

  /** The allowance less the amount, under the same expiration. */
  function Spent(st: State, owner: Addr, spender: Addr, amount: nat): Option<Allowance> {
    match Lookup(st.allowances, (owner, spender))
    case None => None
    case Some(a) => if amount <= a.amount then Some(Allowance(a.amount - amount, a.expires)) else None
  }

  lemma DeductWrites(st: State, block: Block, owner: Addr, spender: Addr, amount: nat)
    requires Sound(st)
    ensures var r := Deduct(st, block, owner, spender, amount);
            && (r.Ok? <==> MaySpend(st, block, owner, spender, amount))
            && (r.Ok? ==> Sound(r.value) && r.value == st.(allowances := r.value.allowances, mirror := r.value.mirror)
                          && AllowanceBecomes(st, r.value, owner, spender, Spent(st, owner, spender, amount)))
  {
    DeductExact(st, block, owner, spender, amount);
    var r := Deduct(st, block, owner, spender, amount);
    if r.Ok? {
      InStepAllows(st, r.value, owner, spender);
    }
  }

  /** Where only one entry of each map was written, the two maps agree on all the others. */
  lemma InStepAllows(st: State, st': State, o: Addr, s: Addr)
    requires InStep(st) && InStep(st')
    requires forall k | k != (o, s) :: Lookup(st'.allowances, k) == Lookup(st.allowances, k)
    ensures AllowanceBecomes(st, st', o, s, Lookup(st'.allowances, (o, s)))
  {
  }

  lemma TransferFromEffect(st: State, block: Block, sender: Addr, owner: Addr, to: Addr, amount: nat)
    requires Sound(st)
    ensures var r := Apply(st, block, TransferFrom(sender, owner, to, amount));
            && r == Apply(st, block, SendFrom(sender, owner, to, amount))
            && (r.Ok? <==> MaySpend(st, block, owner, sender, amount) && amount <= Holds(st, owner))
            && (r.Ok? ==>
                  && r.value == st.(balances := r.value.balances, allowances := r.value.allowances,
                                    mirror := r.value.mirror)
                  && TokensMoved(st, r.value, Some(owner), Some(to), amount)
                  && AllowanceBecomes(st, r.value, owner, sender, Spent(st, owner, sender, amount)))
  {
    DeductWrites(st, block, owner, sender, amount);
    if MaySpend(st, block, owner, sender, amount) {
      MoveExact(Deduct(st, block, owner, sender, amount).value, owner, to, amount);
    }
  }

  lemma BurnFromEffect(st: State, block: Block, sender: Addr, owner: Addr, amount: nat)
    requires Sound(st)
    ensures var r := Apply(st, block, BurnFrom(sender, owner, amount));
            && (r.Ok? <==> MaySpend(st, block, owner, sender, amount) && amount <= Holds(st, owner))
            && (r.Ok? ==>
                  && r.value == st.(balances := r.value.balances, supply := r.value.supply,
                                    allowances := r.value.allowances, mirror := r.value.mirror)
                  && r.value.supply == st.supply - amount
                  && TokensMoved(st, r.value, Some(owner), None, amount)
                  && AllowanceBecomes(st, r.value, owner, sender, Spent(st, owner, sender, amount)))
  {
    DeductWrites(st, block, owner, sender, amount);
    if MaySpend(st, block, owner, sender, amount) {
      DestroyExact(Deduct(st, block, owner, sender, amount).value, owner, amount);
    }
  }

  // ---------------------------------------------------------------------------
  // Granting
  // ---------------------------------------------------------------------------

  /** The allowance of `amount` that a change leaves, under the given expiration or else the old one. */
  function Granted(st: State, owner: Addr, spender: Addr, amount: nat, expires: Option<Expiration>): Allowance {
    var old' := match Lookup(st.allowances, (owner, spender)) case None => Never case Some(a) => a.expires;
    Allowance(amount, match expires case None => old' case Some(e) => e)
  }

  lemma IncreaseEffect(st: State, block: Block, sender: Addr, spender: Addr, amount: nat, expires: Option<Expiration>)
    requires Sound(st)
    ensures var r, had := Apply(st, block, IncreaseAllowance(sender, spender, amount, expires)),
            Remaining(st, sender, spender);
            && (r.Ok? <==> spender != sender && !(expires.Some? && expires.value.IsExpired(block))
                           && had + amount <= MAX_UINT128)
            && (r.Ok? ==>
                  && r.value == st.(allowances := r.value.allowances, mirror := r.value.mirror)
                  && AllowanceBecomes(st, r.value, sender, spender,
                       Some(Granted(st, sender, spender, had + amount, expires))))
  {
    IncreaseExact(st, block, sender, spender, amount, expires);
    var r := DoIncrease(st, block, sender, spender, amount, expires);
    if r.Ok? { InStepAllows(st, r.value, sender, spender); }
  }

  lemma DecreaseEffect(st: State, block: Block, sender: Addr, spender: Addr, amount: nat, expires: Option<Expiration>)
    requires Sound(st)
    ensures var r, had := Apply(st, block, DecreaseAllowance(sender, spender, amount, expires)),
            Remaining(st, sender, spender);
            && (r.Ok? <==> spender != sender && (sender, spender) in st.allowances
                           && !(amount < had && expires.Some? && expires.value.IsExpired(block)))
            && (r.Ok? ==>
                  && r.value == st.(allowances := r.value.allowances, mirror := r.value.mirror)
                  && AllowanceBecomes(st, r.value, sender, spender,
                       if amount < had then Some(Granted(st, sender, spender, had - amount, expires)) else None))
  {
    DecreaseExact(st, block, sender, spender, amount, expires);
    var r := DoDecrease(st, block, sender, spender, amount, expires);
    if r.Ok? { InStepAllows(st, r.value, sender, spender); }
  }

  // ---------------------------------------------------------------------------
  // The minter, migration and instantiation
  // ---------------------------------------------------------------------------

  /** The minter resigns or names a successor, who is bound by the same cap. */
  lemma UpdateMinterEffect(st: State, block: Block, sender: Addr, minter: Option<Addr>)
    ensures var r := Apply(st, block, UpdateMinter(sender, minter));
            && !r.Panic? && (r.Ok? <==> st.mint.Some? && st.mint.value.minter == sender)
            && (r.Ok? ==> r.value == st.(mint := r.value.mint)
                          && match minter
                             case None => r.value.mint == None
                             case Some(m) => r.value.mint == Some(MinterData(m, st.mint.value.cap)))
  {
  }

  /** Migration from before the mirror writes every allowance into it and keeps whatever else
      was there; where the two maps agree already, it changes nothing. */
  lemma MigrateEffect(st: State, block: Block, beforeMirror: bool)
    ensures var r := Apply(st, block, Migrate(beforeMirror));
            && r.Ok? && r.value == st.(mirror := r.value.mirror)
            && (forall o, s :: Lookup(r.value.mirror, (s, o))
                  == if beforeMirror && (o, s) in st.allowances then Some(st.allowances[(o, s)])
                     else Lookup(st.mirror, (s, o)))
            && (Sound(st) || !beforeMirror ==> r.value == st)
  {
    var m := Mirrored(st.allowances, st.mirror);
    forall o, s ensures Lookup(m, (s, o)) == if (o, s) in st.allowances then Some(st.allowances[(o, s)])
                          else Lookup(st.mirror, (s, o)) {
      assert (o, s) in st.allowances ==> (s, o) in ReversedKeys(st.allowances);
    }
    if Sound(st) {
      forall k ensures Lookup(m, k) == Lookup(st.mirror, k) {
        assert Lookup(st.allowances, (k.1, k.0)) == Lookup(st.mirror, k) && k == (k.0, k.1);
      }
      SameLookups(m, st.mirror);
    }
  }

  lemma SameLookups(m: Allowances, n: Allowances)
    requires forall k :: Lookup(m, k) == Lookup(n, k)
    ensures m == n
  {
    assert forall k :: k in m <==> Lookup(m, k).Some?;
  }

  /** Every account starts with what the list gives it, and everyone else with nothing. */
  lemma InstantiateEffect(accounts: seq<Account>, mint: Option<MinterData>)
    requires Instantiate(accounts, mint).Ok?
    ensures var st := Instantiate(accounts, mint).value;
            && st.mint == mint && st.allowances == map[] && st.mirror == map[]
            && (forall i | 0 <= i < |accounts| :: Holds(st, accounts[i].0) == accounts[i].1)
            && (forall a | (forall i | 0 <= i < |accounts| :: accounts[i].0 != a) :: Holds(st, a) == 0)
            && Held(st.balances) == st.supply
  {
    InitialBalances(accounts);
    EachGetsItsOwn(accounts);
  }

  lemma {:induction false} EachGetsItsOwn(accounts: seq<Account>)
    requires DistinctAddresses(accounts)
    ensures forall i | 0 <= i < |accounts| :: BalanceOf(BalancesOf(accounts), accounts[i].0) == accounts[i].1
  {
    if accounts != [] {
      var prev := accounts[..|accounts| - 1];
      EachGetsItsOwn(prev);
      forall i | 0 <= i < |accounts| - 1 ensures BalanceOf(BalancesOf(accounts), accounts[i].0) == accounts[i].1 {
        assert prev[i] == accounts[i];
      }
    }
  }

  // ---------------------------------------------------------------------------
  // Expired allowances
  // ---------------------------------------------------------------------------

  /** Nothing left to spend: no allowance, or one that has expired. */
  ghost predicate Expired(st: State, block: Block, owner: Addr, spender: Addr) {
    match Lookup(st.allowances, (owner, spender)) case None => true case Some(a) => a.expires.IsExpired(block)
  }

  /** The owner grants something, or gives what is left a new expiration. */
  predicate Renews(msg: Msg, owner: Addr, spender: Addr) {
    match msg
    case IncreaseAllowance(o, s, _, _) => o == owner && s == spender
    case DecreaseAllowance(o, s, _, expires) => o == owner && s == spender && expires.Some?
    case _ => false
  }

  predicate Spends(msg: Msg, owner: Addr, spender: Addr) {
    match msg
    case TransferFrom(s, o, _, _) => o == owner && s == spender
    case SendFrom(s, o, _, _) => o == owner && s == spender
    case BurnFrom(s, o, _) => o == owner && s == spender
    case _ => false
  }

  lemma ExpiredStep(st: State, e: Event, owner: Addr, spender: Addr)
    requires Sound(st) && Expired(st, e.block, owner, spender) && !Renews(e.msg, owner, spender)
    ensures Spends(e.msg, owner, spender) ==> Apply(st, e.block, e.msg).Error?
    ensures Expired(Step(st, e), e.block, owner, spender)
  {
    match e.msg
    case Transfer(_, _, _) =>
    case Send(_, _, _) =>
    case Burn(_, _) =>
    case Mint(_, _, _) =>
    case UpdateMinter(_, _) =>
    case IncreaseAllowance(o, s, amount, expires) => IncreaseEffect(st, e.block, o, s, amount, expires);
    case DecreaseAllowance(o, s, amount, expires) => DecreaseEffect(st, e.block, o, s, amount, expires);
    case TransferFrom(s, o, to, amount) => SpendingFails(st, e.block, s, o, to, amount);
    case SendFrom(s, o, to, amount) => SpendingFails(st, e.block, s, o, to, amount);
    case BurnFrom(s, o, amount) => SpendingFails(st, e.block, s, o, o, amount);
    case Migrate(beforeMirror) => MigrateEffect(st, e.block, beforeMirror);
  }

  lemma SpendingFails(st: State, block: Block, sender: Addr, owner: Addr, to: Addr, amount: nat)
    requires Sound(st)
    ensures Expired(st, block, owner, sender) ==> Apply(st, block, TransferFrom(sender, owner, to, amount)) == Error
                                                  && Apply(st, block, SendFrom(sender, owner, to, amount)) == Error
                                                  && Apply(st, block, BurnFrom(sender, owner, amount)) == Error
    ensures var r := Apply(st, block, TransferFrom(sender, owner, to, amount));
            && r == Apply(st, block, SendFrom(sender, owner, to, amount))
            && (r.Ok? ==> AllowanceBecomes(st, r.value, owner, sender, Spent(st, owner, sender, amount)))
    ensures var r := Apply(st, block, BurnFrom(sender, owner, amount));
            r.Ok? ==> AllowanceBecomes(st, r.value, owner, sender, Spent(st, owner, sender, amount))
  {
    TransferFromEffect(st, block, sender, owner, to, amount);
    BurnFromEffect(st, block, sender, owner, amount);
    SpendSound(st, block, sender, owner, to, amount);
  }

  /** Blocks do not go back. */
  ghost predicate BlocksOrdered(block: Block, run: seq<Event>) {
    && (forall i | 0 <= i < |run| :: run[i].block.NotBefore(block))
    && forall i, j | 0 <= i < j < |run| :: run[j].block.NotBefore(run[i].block)
  }

  /** An allowance that has expired is never spent again, in however long a run, until its
      owner renews it. */
  lemma {:induction false} ExpiredIsNeverSpent(st: State, block: Block, run: seq<Event>, owner: Addr, spender: Addr)
    requires Sound(st) && Expired(st, block, owner, spender) && BlocksOrdered(block, run)
    requires forall i | 0 <= i < |run| :: !Renews(run[i].msg, owner, spender)
    ensures Sound(Run(st, run)) && Expired(Run(st, run), if run == [] then block
            else run[|run| - 1].block, owner, spender)
    ensures forall i | 0 <= i < |run| && Spends(run[i].msg, owner, spender) ::
              Apply(Run(st, run[..i]), run[i].block, run[i].msg).Error?
    decreases |run|
  {
    if run != [] {
      var prev, e := run[..|run| - 1], run[|run| - 1];
      ExpiredIsNeverSpent(st, block, prev, owner, spender);
      var s := Run(st, prev);
      StaysExpired(s, if prev == [] then block else prev[|prev| - 1].block, e.block, owner, spender);
      ExpiredStep(s, e, owner, spender);
      ApplySound(s, e.block, e.msg);
      forall i | 0 <= i < |run| && Spends(run[i].msg, owner, spender)
        ensures Apply(Run(st, run[..i]), run[i].block, run[i].msg).Error? {
        if i < |prev| { assert prev[..i] == run[..i] && prev[i] == run[i]; }
      }
    }
  }

  lemma StaysExpired(st: State, block: Block, later: Block, owner: Addr, spender: Addr)
    requires Expired(st, block, owner, spender) && later.NotBefore(block)
    ensures Expired(st, later, owner, spender)
  {
    match Lookup(st.allowances, (owner, spender))
    case None =>
    case Some(a) => ExpiredForGood(a.expires, block, later);
  }
}
