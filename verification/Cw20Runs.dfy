// What holds of the token over every run from instantiation.
module Cw20Runs {
  import opened Bytes
  import opened Expirations
  import opened Ints
  import opened Cw20

  ghost predicate Sound(st: State) {
    Conserved(st) && InStep(st)
  }

  lemma SpendSound(st: State, block: Block, spender: Addr, owner: Addr, to: Addr, amount: nat)
    requires Sound(st)
    ensures var r := DoTransferFrom(st, block, spender, owner, to, amount); !r.Panic? && (r.Ok? ==> Sound(r.value))
    ensures var r := DoBurnFrom(st, block, spender, owner, amount); !r.Panic? && (r.Ok? ==> Sound(r.value))
  {
    DeductExact(st, block, owner, spender, amount);
    if Deduct(st, block, owner, spender, amount).Ok? {
      var st1 := Deduct(st, block, owner, spender, amount).value;
      MoveExact(st1, owner, to, amount);
      DestroyExact(st1, owner, amount);
    }
  }

  /** The only overflows are a mint beyond what a supply can be and a grant beyond what an allowance can be. */
  ghost predicate Overflows(st: State, block: Block, msg: Msg) {
    || (msg.Mint? && msg.amount > 0 && st.mint.Some? && st.mint.value.minter == msg.sender
        && st.supply + msg.amount > MAX_UINT128)
    || (msg.IncreaseAllowance? && msg.spender != msg.sender
          && !(msg.expires.Some? && msg.expires.value.IsExpired(block))
        && Remaining(st, msg.sender, msg.spender) + msg.amount > MAX_UINT128)
  }

  lemma ApplySound(st: State, block: Block, msg: Msg)
    requires Sound(st)
    ensures Apply(st, block, msg).Panic? <==> Overflows(st, block, msg)
    ensures Apply(st, block, msg).Ok? ==> Sound(Apply(st, block, msg).value)
  {
    match msg
    case Transfer(sender, to, amount) => MoveExact(st, sender, to, amount);
    case Send(sender, to, amount) => MoveExact(st, sender, to, amount);
    case Burn(sender, amount) => DestroyExact(st, sender, amount);
    case Mint(sender, to, amount) => MintConserves(st, sender, to, amount);
    case UpdateMinter(_, _) =>
    case IncreaseAllowance(sender, spender, amount, expires) =>
      IncreaseExact(st, block, sender, spender, amount, expires);
    case DecreaseAllowance(sender, spender, amount, expires) =>
      DecreaseExact(st, block, sender, spender, amount, expires);
    case TransferFrom(sender, owner, to, amount) => SpendSound(st, block, sender, owner, to, amount);
    case SendFrom(sender, owner, to, amount) => SpendSound(st, block, sender, owner, to, amount);
    case BurnFrom(sender, owner, amount) => SpendSound(st, block, sender, owner, owner, amount);
    case Migrate(beforeMirror) =>
      if beforeMirror { MigrateSound(st); }
  }

  lemma MigrateSound(st: State)
    requires Sound(st)
    ensures Sound(st.(mirror := Mirrored(st.allowances, st.mirror)))
  {
    forall k | k in st.mirror ensures (k.1, k.0) in st.allowances {
      assert Lookup(st.allowances, (k.1, k.0)) == Lookup(st.mirror, k);
    }
    MirroredInStep(st);
  }

  lemma InstantiateSound(accounts: seq<Account>, mint: Option<MinterData>)
    ensures Instantiate(accounts, mint).Ok? ==> Sound(Instantiate(accounts, mint).value)
  {
    if Instantiate(accounts, mint).Ok? {
      InitialBalances(accounts);
    }
  }

  /** In every reachable state the balances add up to the supply, the supply respects the
      cap, and the two allowance maps agree and hold no self-allowance. */
  lemma {:induction false} ReachableSound(accounts: seq<Account>, mint: Option<MinterData>, run: seq<Event>)
    requires Instantiate(accounts, mint).Ok?
    ensures Sound(Run(Instantiate(accounts, mint).value, run))
    decreases |run|
  {
    if run == [] {
      InstantiateSound(accounts, mint);
    } else {
      var prev, e := run[..|run| - 1], run[|run| - 1];
      ReachableSound(accounts, mint, prev);
      ApplySound(Run(Instantiate(accounts, mint).value, prev), e.block, e.msg);
    }
  }

  /** In every reachable state: transfers and burns fail exactly when they move nothing or
      the payer is short, and spending for another exactly when the allowance is missing,
      expired or short, or the owner is short. None of them overflows. */
  lemma ReachableFailures(accounts: seq<Account>, mint: Option<MinterData>, run: seq<Event>, block: Block,
                          a: Addr, b: Addr, to: Addr, amount: nat)
    requires Instantiate(accounts, mint).Ok?
    ensures var s := Run(Instantiate(accounts, mint).value, run);
            var affords := amount <= BalanceOf(s.balances, a);
            var allowed := (a, b) in s.allowances && !s.allowances[(a, b)].expires.IsExpired(block)
                && amount <= s.allowances[(a, b)].amount;
            && Apply(s, block, Transfer(a, to, amount)).Ok? == Apply(s, block, Burn(a, amount)).Ok?
                  == (amount != 0 && affords)
            && Apply(s, block, TransferFrom(b, a, to, amount)).Ok? == Apply(s, block, BurnFrom(b, a, amount)).Ok?
                  == (allowed && affords)
            && !Apply(s, block, Transfer(a, to, amount)).Panic?
                  && !Apply(s, block, TransferFrom(b, a, to, amount)).Panic?
            && !Apply(s, block, Burn(a, amount)).Panic? && !Apply(s, block, BurnFrom(b, a, amount)).Panic?
  {
    var s := Run(Instantiate(accounts, mint).value, run);
    ReachableSound(accounts, mint, run);
    MoveExact(s, a, to, amount);
    DestroyExact(s, a, amount);
    SpendFailures(s, block, a, b, to, amount);
  }

  lemma SpendFailures(s: State, block: Block, a: Addr, b: Addr, to: Addr, amount: nat)
    requires Sound(s)
    ensures var affords := amount <= BalanceOf(s.balances, a);
            var allowed := (a, b) in s.allowances && !s.allowances[(a, b)].expires.IsExpired(block)
                && amount <= s.allowances[(a, b)].amount;
            && DoTransferFrom(s, block, b, a, to, amount).Ok? == DoBurnFrom(s, block, b, a, amount).Ok?
                  == (allowed && affords)
            && !DoTransferFrom(s, block, b, a, to, amount).Panic? && !DoBurnFrom(s, block, b, a, amount).Panic?
  {
    DeductExact(s, block, a, b, amount);
    if Deduct(s, block, a, b, amount).Ok? {
      var s1 := Deduct(s, block, a, b, amount).value;
      MoveExact(s1, a, to, amount);
      DestroyExact(s1, a, amount);
    }
  }

  // ---------------------------------------------------------------------------
  // The minting cap
  // ---------------------------------------------------------------------------

  /** Nothing but a mint raises the supply, and nothing but the minter's own hand-over changes the minter. */
  lemma OthersNeverRaise(st: State, e: Event)
    requires Sound(st) && !e.msg.Mint?
    ensures Step(st, e).supply <= st.supply && (!e.msg.UpdateMinter? ==> Step(st, e).mint == st.mint)
  {
    match e.msg {
      case Burn(sender, amount) => DestroyExact(st, sender, amount);
      case IncreaseAllowance(sender, spender, amount, expires) =>
        IncreaseExact(st, e.block, sender, spender, amount, expires);
      case DecreaseAllowance(sender, spender, amount, expires) =>
        DecreaseExact(st, e.block, sender, spender, amount, expires);
      case TransferFrom(sender, owner, to, amount) => SpendCap(st, e.block, sender, owner, to, amount);
      case SendFrom(sender, owner, to, amount) => SpendCap(st, e.block, sender, owner, to, amount);
      case BurnFrom(sender, owner, amount) => SpendCap(st, e.block, sender, owner, owner, amount);
      case _ =>
    }
  }

  /** One step never changes the cap except by giving up minting, and without a minter
      the supply never rises. */
  lemma StepCap(st: State, e: Event)
    requires Sound(st)
    ensures var st' := Step(st, e);
            && (st'.mint.Some? ==> st.mint.Some? && st'.mint.value.cap == st.mint.value.cap)
            && (st.mint == None ==> st'.mint == None && st'.supply <= st.supply)
  {
    if e.msg.Mint? {
      MintConserves(st, e.msg.sender, e.msg.to, e.msg.amount);
    } else {
      OthersNeverRaise(st, e);
    }
  }

  lemma SpendCap(st: State, block: Block, spender: Addr, owner: Addr, to: Addr, amount: nat)
    requires Sound(st)
    ensures var r := DoTransferFrom(st, block, spender, owner, to, amount);
            r.Ok? ==> r.value.mint == st.mint && r.value.supply == st.supply
    ensures var r := DoBurnFrom(st, block, spender, owner, amount);
            r.Ok? ==> r.value.mint == st.mint && r.value.supply <= st.supply
  {
    DeductExact(st, block, owner, spender, amount);
  }

  lemma {:induction false} RunCap(st: State, run: seq<Event>)
    requires Sound(st)
    ensures Sound(Run(st, run))
    ensures var st' := Run(st, run);
            && (st'.mint.Some? ==> st.mint.Some? && st'.mint.value.cap == st.mint.value.cap)
            && (st.mint == None ==> st'.mint == None && st'.supply <= st.supply)
    decreases |run|
  {
    if run != [] {
      var prev, e := run[..|run| - 1], run[|run| - 1];
      RunCap(st, prev);
      StepCap(Run(st, prev), e);
      ApplySound(Run(st, prev), e.block, e.msg);
    }
  }

  /** At the `i`-th event of the run, the minter of that moment named `m` its successor. */
  ghost predicate Appointed(st: State, run: seq<Event>, i: nat, m: Addr) {
    && i < |run| && run[i].msg.UpdateMinter? && run[i].msg.newMinter == Some(m)
    && var before := Run(st, run[..i]); before.mint.Some? && before.mint.value.minter == run[i].msg.sender
  }

  lemma {:induction false} MinterByAppointment(st: State, run: seq<Event>)
    requires Sound(st) && Run(st, run).mint.Some?
    ensures st.mint.Some?
    ensures var m := Run(st, run).mint.value.minter;
            m == st.mint.value.minter || exists i: nat :: Appointed(st, run, i, m)
    decreases |run|
  {
    if run != [] {
      var n := |run| - 1;
      var prev, e := run[..n], run[n];
      var before, m := Run(st, prev), Run(st, run).mint.value.minter;
      RunCap(st, prev);
      StepCap(before, e);
      if Run(st, run).mint == before.mint {
        MinterByAppointment(st, prev);
        if i: nat :| Appointed(st, prev, i, m) {
          assert prev[..i] == run[..i];
          assert Appointed(st, run, i, m);
        }
      } else {
        if e.msg.Mint? {
          MintConserves(before, e.msg.sender, e.msg.to, e.msg.amount);
        } else if e.msg.UpdateMinter? {
          OnlyTheMinter(before, e.msg.sender, e.msg.newMinter, m, m, 0);
        } else {
          OthersNeverRaise(before, e);
        }
        assert Appointed(st, run, n, m);
      }
    }
  }

  /** Over every run, whatever raises the supply is a mint within the cap, by exactly the minted
      amount, and by someone named at instantiation or by the minter of the time. */
  lemma EveryMintIsAuthorized(accounts: seq<Account>, mint: Option<MinterData>, run: seq<Event>, e: Event)
    requires Instantiate(accounts, mint).Ok?
    requires Step(Run(Instantiate(accounts, mint).value, run), e).supply
             > Run(Instantiate(accounts, mint).value, run).supply
    ensures var start := Instantiate(accounts, mint).value;
            var s := Run(start, run);
            && e.msg.Mint? && Step(s, e).supply == s.supply + e.msg.amount && mint.Some?
            && (mint.value.cap.Some? ==> Step(s, e).supply <= mint.value.cap.value)
            && (e.msg.sender == mint.value.minter || exists i: nat :: Appointed(start, run, i, e.msg.sender))
  {
    var start := Instantiate(accounts, mint).value;
    var s := Run(start, run);
    InstantiateSound(accounts, mint);
    RunCap(start, run);
    if e.msg.Mint? {
      MintConserves(s, e.msg.sender, e.msg.to, e.msg.amount);
      MinterByAppointment(start, run);
    } else {
      OthersNeverRaise(s, e);
    }
  }

  lemma {:induction false} RunConcat(st: State, first: seq<Event>, second: seq<Event>)
    ensures Run(st, first + second) == Run(Run(st, first), second)
    decreases |second|
  {
    if second == [] {
      assert first + second == first;
    } else {
      var n := |second| - 1;
      RunConcat(st, first, second[..n]);
      assert (first + second)[..|first + second| - 1] == first + second[..n];
    }
  }

  /** While there is a minter, the cap is the one set at instantiation and the supply stays
      within it; once there is none, the supply never rises again and nobody can mint. */
  lemma CapForEver(accounts: seq<Account>, mint: Option<MinterData>, run: seq<Event>, more: seq<Event>)
    requires Instantiate(accounts, mint).Ok?
    ensures var start := Instantiate(accounts, mint).value;
            var (s, later) := (Run(start, run), Run(start, run + more));
            && (s.mint.Some? ==> mint.Some? && s.mint.value.cap == mint.value.cap)
            && (s.mint.Some? && mint.value.cap.Some? ==> s.supply <= mint.value.cap.value)
            && (s.mint == None ==> later.mint == None && later.supply <= s.supply)
  {
    var start := Instantiate(accounts, mint).value;
    InstantiateSound(accounts, mint);
    RunCap(start, run);
    RunCap(Run(start, run), more);
    RunConcat(start, run, more);
  }

  // ---------------------------------------------------------------------------
  // What a spender can ever spend
  // ---------------------------------------------------------------------------

  /** What an event grants `s` out of `o`'s tokens, if it takes effect. */
  function Grant(st: State, e: Event, o: Addr, s: Addr): nat {
    if e.msg.IncreaseAllowance? && e.msg.sender == o && e.msg.spender == s
        && Apply(st, e.block, e.msg).Ok? then e.msg.amount else 0
  }

  /** What an event moves or burns of `o`'s tokens in the name of `s`, if it takes effect. */
  function Spend(st: State, e: Event, o: Addr, s: Addr): nat {
    if (e.msg.TransferFrom? || e.msg.SendFrom? || e.msg.BurnFrom?) && e.msg.owner == o && e.msg.sender == s
        && Apply(st, e.block, e.msg).Ok?
    then e.msg.amount else 0
  }

  function Granted(st: State, run: seq<Event>, o: Addr, s: Addr): nat {
    if run == [] then 0
    else
      var prev := run[..|run| - 1];
      Granted(st, prev, o, s) + Grant(Run(st, prev), run[|run| - 1], o, s)
  }

  function Spent(st: State, run: seq<Event>, o: Addr, s: Addr): nat {
    if run == [] then 0
    else
      var prev := run[..|run| - 1];
      Spent(st, prev, o, s) + Spend(Run(st, prev), run[|run| - 1], o, s)
  }

  lemma StepSpending(st: State, e: Event, o: Addr, s: Addr)
    requires Sound(st)
    ensures Spend(st, e, o, s) + Remaining(Step(st, e), o, s) <= Remaining(st, o, s) + Grant(st, e, o, s)
  {
    match e.msg {
      case Transfer(sender, to, amount) => MoveExact(st, sender, to, amount);
      case Send(sender, to, amount) => MoveExact(st, sender, to, amount);
      case Burn(sender, amount) => DestroyExact(st, sender, amount);
      case IncreaseAllowance(sender, spender, amount, expires) =>
        IncreaseExact(st, e.block, sender, spender, amount, expires);
        assert (o, s) == (sender, spender) || (o, s) != (sender, spender);
      case DecreaseAllowance(sender, spender, amount, expires) =>
        DecreaseExact(st, e.block, sender, spender, amount, expires);
        assert (o, s) == (sender, spender) || (o, s) != (sender, spender);
      case TransferFrom(sender, owner, to, amount) => SpendSpending(st, e.block, sender, owner, to, amount, o, s);
      case SendFrom(sender, owner, to, amount) => SpendSpending(st, e.block, sender, owner, to, amount, o, s);
      case BurnFrom(sender, owner, amount) => SpendSpending(st, e.block, sender, owner, owner, amount, o, s);
      case _ =>
    }
  }

  lemma SpendSpending(st: State, block: Block, spender: Addr, owner: Addr, to: Addr, amount: nat, o: Addr, s: Addr)
    requires Sound(st)
    ensures var r := DoTransferFrom(st, block, spender, owner, to, amount);
            r.Ok? ==> Remaining(r.value, o, s) == Remaining(st, o, s) - if (o, s) == (owner, spender) then amount else 0
    ensures var r := DoBurnFrom(st, block, spender, owner, amount);
            r.Ok? ==> Remaining(r.value, o, s) == Remaining(st, o, s) - if (o, s) == (owner, spender) then amount else 0
  {
    DeductExact(st, block, owner, spender, amount);
    if Deduct(st, block, owner, spender, amount).Ok? {
      var st1 := Deduct(st, block, owner, spender, amount).value;
      assert (o, s) != (owner, spender) ==> Remaining(st1, o, s) == Remaining(st, o, s);
      MoveExact(st1, owner, to, amount);
      DestroyExact(st1, owner, amount);
    }
  }

  /** Over a whole run, what a spender moves or burns of an owner's tokens, together with
      what it may still spend, never exceeds what the owner granted it. */
  lemma {:induction false} SpendingWithinGrants(accounts: seq<Account>, mint: Option<MinterData>, run: seq<Event>,
                                                o: Addr, s: Addr)
    requires Instantiate(accounts, mint).Ok?
    ensures var start := Instantiate(accounts, mint).value;
            Spent(start, run, o, s) + Remaining(Run(start, run), o, s) <= Granted(start, run, o, s)
    decreases |run|
  {
    if run != [] {
      var start := Instantiate(accounts, mint).value;
      var prev, e := run[..|run| - 1], run[|run| - 1];
      SpendingWithinGrants(accounts, mint, prev, o, s);
      ReachableSound(accounts, mint, prev);
      StepSpending(Run(start, prev), e, o, s);
    }
  }
}
