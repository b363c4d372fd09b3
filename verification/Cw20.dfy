// The CW20 token: balances, supply, minting cap and allowances, as functions on the
// contract's state. `Error` is a failed message, `Panic` an arithmetic overflow;
// neither leaves a trace.
module Cw20 {
  import opened Bytes
  import opened Sums
  import opened Expirations
  import opened Ints
  import opened Outcomes

  type Addr = bytes

  datatype Allowance = Allowance(amount: nat, expires: Expiration)

  datatype MinterData = MinterData(minter: Addr, cap: Option<nat>)

  type Balances = map<Addr, nat>

  type Allowances = map<(Addr, Addr), Allowance>

  /** `allowances` is keyed by (owner, spender) and `mirror` by (spender, owner). */
  datatype State = State(supply: nat, mint: Option<MinterData>, balances: Balances, allowances: Allowances,
      mirror: Allowances)

  function BalanceOf(b: Balances, a: Addr): nat {
    if a in b then b[a] else 0
  }

  function Debit(b: Balances, a: Addr, amount: nat): Outcome<Balances> {
    if amount > BalanceOf(b, a) then Error else Ok(b[a := BalanceOf(b, a) - amount])
  }

  function Credit(b: Balances, a: Addr, amount: nat): Outcome<Balances> {
    if BalanceOf(b, a) + amount > MAX_UINT128 then Panic else Ok(b[a := BalanceOf(b, a) + amount])
  }

  /** Takes from one account, then gives to another or the same. */
  function Move(st: State, from: Addr, to: Addr, amount: nat): Outcome<State> {
    match Debit(st.balances, from, amount)
    case Error => Error
    case Panic => Panic
    case Ok(b) =>
      match Credit(b, to, amount)
      case Error => Error
      case Panic => Panic
      case Ok(b') => Ok(st.(balances := b'))
  }

  /** Takes from an account and from the supply. */
  function Destroy(st: State, from: Addr, amount: nat): Outcome<State> {
    match Debit(st.balances, from, amount)
    case Error => Error
    case Panic => Panic
    case Ok(b) => if amount > st.supply then Error else Ok(st.(balances := b, supply := st.supply - amount))
  }

  function DoTransfer(st: State, sender: Addr, to: Addr, amount: nat): Outcome<State> {
    if amount == 0 then Error else Move(st, sender, to, amount)
  }

  function DoBurn(st: State, sender: Addr, amount: nat): Outcome<State> {
    if amount == 0 then Error else Destroy(st, sender, amount)
  }

  function DoMint(st: State, sender: Addr, to: Addr, amount: nat): Outcome<State> {
    if amount == 0 || st.mint == None || st.mint.value.minter != sender then Error
    else if st.supply + amount > MAX_UINT128 then Panic
    else if st.mint.value.cap.Some? && st.supply + amount > st.mint.value.cap.value then Error
    else
      match Credit(st.balances, to, amount)
      case Error => Error
      case Panic => Panic
      case Ok(b) => Ok(st.(supply := st.supply + amount, balances := b))
  }

  /** The cap is handed on to the new minter. */
  function DoUpdateMinter(st: State, sender: Addr, newMinter: Option<Addr>): Outcome<State> {
    if st.mint == None || st.mint.value.minter != sender then Error
    else Ok(st.(mint := match newMinter case None => None case Some(m) => Some(MinterData(m, st.mint.value.cap))))
  }

  function Increased(a: Option<Allowance>, block: Block, amount: nat, expires: Option<Expiration>): Outcome<Allowance> {
    var current := match a case Some(v) => v case None => Allowance(0, Never);
    if expires.Some? && expires.value.IsExpired(block) then Error
    else if current.amount + amount > MAX_UINT128 then Panic
    else Ok(Allowance(current.amount + amount, if expires.Some? then expires.value else current.expires))
  }

  function Lookup(m: Allowances, k: (Addr, Addr)): Option<Allowance> {
    if k in m then Some(m[k]) else None
  }

  function DoIncrease(st: State, block: Block, sender: Addr, spender: Addr, amount: nat,
                      expires: Option<Expiration>): Outcome<State> {
    if spender == sender then Error
    else
      var (k, r) := ((sender, spender), (spender, sender));
      match Increased(Lookup(st.allowances, k), block, amount, expires)
      case Error => Error
      case Panic => Panic
      case Ok(a) =>
        match Increased(Lookup(st.mirror, r), block, amount, expires)
        case Error => Error
        case Panic => Panic
        case Ok(b) => Ok(st.(allowances := st.allowances[k := a], mirror := st.mirror[r := b]))
  }

  function DoDecrease(st: State, block: Block, sender: Addr, spender: Addr, amount: nat,
                      expires: Option<Expiration>): Outcome<State> {
    var (k, r) := ((sender, spender), (spender, sender));
    if spender == sender || k !in st.allowances then Error
    else
      var a := st.allowances[k];
      if amount < a.amount then
        if expires.Some? && expires.value.IsExpired(block) then Error
        else
          var a' := Allowance(a.amount - amount, if expires.Some? then expires.value else a.expires);
          Ok(st.(allowances := st.allowances[k := a'], mirror := st.mirror[r := a']))
      else
        Ok(st.(allowances := st.allowances - {k}, mirror := st.mirror - {r}))
  }

  function Deducted(a: Option<Allowance>, block: Block, amount: nat): Outcome<Allowance> {
    if a == None || a.value.expires.IsExpired(block) || amount > a.value.amount then Error
    else Ok(a.value.(amount := a.value.amount - amount))
  }

  function Deduct(st: State, block: Block, owner: Addr, spender: Addr, amount: nat): Outcome<State> {
    var (k, r) := ((owner, spender), (spender, owner));
    match Deducted(Lookup(st.allowances, k), block, amount)
    case Error => Error
    case Panic => Panic
    case Ok(a) =>
      match Deducted(Lookup(st.mirror, r), block, amount)
      case Error => Error
      case Panic => Panic
      case Ok(b) => Ok(st.(allowances := st.allowances[k := a], mirror := st.mirror[r := b]))
  }

  function DoTransferFrom(st: State, block: Block, spender: Addr, owner: Addr, to: Addr, amount: nat): Outcome<State> {
    match Deduct(st, block, owner, spender, amount)
    case Error => Error
    case Panic => Panic
    case Ok(st1) => Move(st1, owner, to, amount)
  }

  function DoBurnFrom(st: State, block: Block, spender: Addr, owner: Addr, amount: nat): Outcome<State> {
    match Deduct(st, block, owner, spender, amount)
    case Error => Error
    case Panic => Panic
    case Ok(st1) => Destroy(st1, owner, amount)
  }

  /** Migration from a version before the mirror writes every allowance into it. */
  function Mirrored(allowances: Allowances, mirror: Allowances): Allowances {
    map k | k in mirror.Keys + ReversedKeys(allowances) ::
      if (k.1, k.0) in allowances then allowances[(k.1, k.0)] else mirror[k]
  }

  function ReversedKeys(allowances: Allowances): set<(Addr, Addr)> {
    set k | k in allowances :: (k.1, k.0)
  }

  datatype Msg =
    | Transfer(sender: Addr, to: Addr, amount: nat)
    | Send(sender: Addr, to: Addr, amount: nat)
    | Burn(sender: Addr, amount: nat)
    | Mint(sender: Addr, to: Addr, amount: nat)
    | UpdateMinter(sender: Addr, newMinter: Option<Addr>)
    | IncreaseAllowance(sender: Addr, spender: Addr, amount: nat, expires: Option<Expiration>)
    | DecreaseAllowance(sender: Addr, spender: Addr, amount: nat, expires: Option<Expiration>)
    | TransferFrom(sender: Addr, owner: Addr, to: Addr, amount: nat)
    | SendFrom(sender: Addr, owner: Addr, to: Addr, amount: nat)
    | BurnFrom(sender: Addr, owner: Addr, amount: nat)
    | Migrate(beforeMirror: bool)

  function Apply(st: State, block: Block, msg: Msg): Outcome<State> {
    match msg
    case Transfer(sender, to, amount) => DoTransfer(st, sender, to, amount)
    case Send(sender, to, amount) => DoTransfer(st, sender, to, amount)
    case Burn(sender, amount) => DoBurn(st, sender, amount)
    case Mint(sender, to, amount) => DoMint(st, sender, to, amount)
    case UpdateMinter(sender, newMinter) => DoUpdateMinter(st, sender, newMinter)
    case IncreaseAllowance(sender, spender, amount, expires) => DoIncrease(st, block, sender, spender, amount, expires)
    case DecreaseAllowance(sender, spender, amount, expires) => DoDecrease(st, block, sender, spender, amount, expires)
    case TransferFrom(sender, owner, to, amount) => DoTransferFrom(st, block, sender, owner, to, amount)
    case SendFrom(sender, owner, to, amount) => DoTransferFrom(st, block, sender, owner, to, amount)
    case BurnFrom(sender, owner, amount) => DoBurnFrom(st, block, sender, owner, amount)
    case Migrate(beforeMirror) => Ok(if beforeMirror then st.(mirror := Mirrored(st.allowances, st.mirror)) else st)
  }

  datatype Event = Event(block: Block, msg: Msg)

  function Step(st: State, e: Event): State {
    match Apply(st, e.block, e.msg) case Ok(st') => st' case Error => st case Panic => st
  }

  function Run(st: State, run: seq<Event>): State {
    if run == [] then st else Step(Run(st, run[..|run| - 1]), run[|run| - 1])
  }

  // ---------------------------------------------------------------------------
  // Instantiation
  // ---------------------------------------------------------------------------

  type Account = (Addr, nat)

  predicate DistinctAddresses(accounts: seq<Account>) {
    forall i, j | 0 <= i < j < |accounts| :: accounts[i].0 != accounts[j].0
  }

  function SumOf(accounts: seq<Account>): nat {
    if accounts == [] then 0 else SumOf(accounts[..|accounts| - 1]) + accounts[|accounts| - 1].1
  }

  function BalancesOf(accounts: seq<Account>): Balances {
    if accounts == [] then map[]
    else BalancesOf(accounts[..|accounts| - 1])[accounts[|accounts| - 1].0 := accounts[|accounts| - 1].1]
  }

  function Instantiate(accounts: seq<Account>, mint: Option<MinterData>): Outcome<State> {
    if !DistinctAddresses(accounts) then Error
    else if SumOf(accounts) > MAX_UINT128 then Panic
    else if mint.Some? && mint.value.cap.Some? && SumOf(accounts) > mint.value.cap.value then Error
    else Ok(State(SumOf(accounts), mint, BalancesOf(accounts), map[], map[]))
  }

  // ---------------------------------------------------------------------------
  // Supply
  // ---------------------------------------------------------------------------

  ghost function Held(b: Balances): int {
    Total(AsInts(b))
  }

  ghost function AsInts(b: Balances): map<Addr, int> {
    map a | a in b :: b[a]
  }

  /** All balances add up to the recorded supply, which fits its type and respects the cap. */
  ghost predicate Conserved(st: State) {
    && Held(st.balances) == st.supply <= MAX_UINT128
    && (st.mint.Some? && st.mint.value.cap.Some? ==> st.supply <= st.mint.value.cap.value)
  }

  lemma HeldAfter(b: Balances, a: Addr, amount: nat)
    ensures Held(b[a := amount]) == Held(b) - BalanceOf(b, a) + amount
  {
    TotalUpdate(AsInts(b), a, amount);
    assert AsInts(b)[a := amount] == AsInts(b[a := amount]);
  }

  lemma BalanceAtMostHeld(b: Balances, a: Addr)
    ensures BalanceOf(b, a) <= Held(b)
  {
    if a in b { EachAtMostTotal(AsInts(b), a); } else { TotalNonNegative(AsInts(b)); }
  }

  /** Moving tokens fails iff the payer is short; crediting the payee never overflows,
      and no other account changes. */
  lemma MoveExact(st: State, from: Addr, to: Addr, amount: nat)
    requires Conserved(st)
    ensures var r := Move(st, from, to, amount);
            && !r.Panic? && (r.Ok? <==> amount <= BalanceOf(st.balances, from))
            && (r.Ok? ==>
                  && r.value == st.(balances := r.value.balances) && Held(r.value.balances) == Held(st.balances)
                  && forall a :: BalanceOf(r.value.balances, a) == BalanceOf(st.balances, a)
                                   - (if a == from then amount else 0) + (if a == to then amount else 0))
  {
    if amount <= BalanceOf(st.balances, from) {
      var b := Debit(st.balances, from, amount).value;
      HeldAfter(st.balances, from, BalanceOf(st.balances, from) - amount);
      BalanceAtMostHeld(b, to);
      HeldAfter(b, to, BalanceOf(b, to) + amount);
    }
  }

  /** Burning fails iff the owner is short: the supply is never the one that falls short. */
  lemma DestroyExact(st: State, from: Addr, amount: nat)
    requires Conserved(st)
    ensures var r := Destroy(st, from, amount);
            && !r.Panic? && (r.Ok? <==> amount <= BalanceOf(st.balances, from))
            && (r.Ok? ==>
                  && r.value == st.(balances := r.value.balances, supply := st.supply - amount) && Conserved(r.value)
                  && forall a :: BalanceOf(r.value.balances, a) == BalanceOf(st.balances, a) - if a == from then
                        amount else 0)
  {
    BalanceAtMostHeld(st.balances, from);
    if amount <= BalanceOf(st.balances, from) {
      HeldAfter(st.balances, from, BalanceOf(st.balances, from) - amount);
    }
  }

  lemma MintConserves(st: State, sender: Addr, to: Addr, amount: nat)
    requires Conserved(st)
    ensures var r := DoMint(st, sender, to, amount);
            var entitled := amount > 0 && st.mint.Some? && st.mint.value.minter == sender;
            && (r.Panic? <==> entitled && st.supply + amount > MAX_UINT128)
            && (r.Ok? <==> entitled && st.supply + amount <= MAX_UINT128
                           && (st.mint.value.cap.Some? ==> st.supply + amount <= st.mint.value.cap.value))
            && (r.Ok? ==>
                  Conserved(r.value)
                  && r.value == st.(supply := st.supply + amount, balances := r.value.balances)
                  && forall a :: BalanceOf(r.value.balances, a) == BalanceOf(st.balances, a) + if a == to then
                  amount else 0)
  {
    BalanceAtMostHeld(st.balances, to);
    HeldAfter(st.balances, to, BalanceOf(st.balances, to) + amount);
  }

  /** Only the minter can mint or name its successor, who inherits the cap; without a
      successor nobody ever mints again. */
  lemma OnlyTheMinter(st: State, sender: Addr, newMinter: Option<Addr>, other: Addr, to: Addr, amount: nat)
    ensures var r := DoUpdateMinter(st, sender, newMinter);
            && !r.Panic? && (r.Ok? <==> st.mint.Some? && st.mint.value.minter == sender)
            && (r.Error? ==> DoMint(st, sender, to, amount) == Error)
            && (r.Ok? ==>
                  && r.value == st.(mint := r.value.mint)
                  && (newMinter != Some(other) ==> DoMint(r.value, other, to, amount) == Error)
                  && (newMinter == Some(other) ==>
                        DoMint(r.value, other, to, amount).Ok?
                        == DoMint(st, sender, to, amount).Ok?))
  {
  }

  lemma {:induction false} InitialBalances(accounts: seq<Account>)
    requires DistinctAddresses(accounts)
    ensures Held(BalancesOf(accounts)) == SumOf(accounts)
    ensures forall a :: a in BalancesOf(accounts) <==> exists i :: 0 <= i < |accounts| && accounts[i].0 == a
  {
    if accounts != [] {
      var n := |accounts| - 1;
      var prev := accounts[..n];
      InitialBalances(prev);
      var b := BalancesOf(prev);
      assert accounts[n].0 !in b;
      HeldAfter(b, accounts[n].0, accounts[n].1);
      forall a ensures a in BalancesOf(accounts) <==> exists i :: 0 <= i < |accounts| && accounts[i].0 == a {
        if a in b {
          var i :| 0 <= i < |prev| && prev[i].0 == a;
          assert accounts[i].0 == a;
        }
        if i :| 0 <= i < |accounts| && accounts[i].0 == a {
          assert i < n ==> prev[i].0 == a;
        }
      }
    }
  }

  // ---------------------------------------------------------------------------
  // Allowances
  // ---------------------------------------------------------------------------

  /** Both maps hold the same allowances, and nobody has one from themselves. */
  ghost predicate InStep(st: State) {
    && (forall o, s :: Lookup(st.allowances, (o, s)) == Lookup(st.mirror, (s, o)))
    && (forall a :: (a, a) !in st.allowances)
  }

  /** What `s` may still spend of `o`'s tokens. */
  function Remaining(st: State, o: Addr, s: Addr): nat {
    match Lookup(st.allowances, (o, s)) case None => 0 case Some(a) => a.amount
  }

  lemma MirroredInStep(st: State)
    requires forall a :: (a, a) !in st.allowances
    requires forall k | k in st.mirror :: (k.1, k.0) in st.allowances
    ensures InStep(st.(mirror := Mirrored(st.allowances, st.mirror)))
  {
    var m := Mirrored(st.allowances, st.mirror);
    forall o, s ensures Lookup(st.allowances, (o, s)) == Lookup(m, (s, o)) {
      assert (o, s) in st.allowances ==> (s, o) in ReversedKeys(st.allowances);
      assert (s, o) in st.mirror ==> (o, s) in st.allowances;
    }
  }

  /** Migrating from a state without a mirror establishes the agreement. */
  lemma MigrationBuildsMirror(st: State)
    requires st.mirror == map[] && forall a :: (a, a) !in st.allowances
    ensures InStep(Apply(st, Block(0, 0), Migrate(true)).value)
  {
    MirroredInStep(st);
  }

  lemma AllowanceWritten(st: State, o: Addr, s: Addr, a: Allowance)
    requires InStep(st) && o != s
    ensures InStep(st.(allowances := st.allowances[(o, s) := a], mirror := st.mirror[(s, o) := a]))
  {
    var st' := st.(allowances := st.allowances[(o, s) := a], mirror := st.mirror[(s, o) := a]);
    forall x, y ensures Lookup(st'.allowances, (x, y)) == Lookup(st'.mirror, (y, x)) {
      assert Lookup(st.allowances, (x, y)) == Lookup(st.mirror, (y, x));
    }
  }

  lemma AllowanceDropped(st: State, o: Addr, s: Addr)
    requires InStep(st)
    ensures InStep(st.(allowances := st.allowances - {(o, s)}, mirror := st.mirror - {(s, o)}))
  {
    var st' := st.(allowances := st.allowances - {(o, s)}, mirror := st.mirror - {(s, o)});
    forall x, y ensures Lookup(st'.allowances, (x, y)) == Lookup(st'.mirror, (y, x)) {
      assert Lookup(st.allowances, (x, y)) == Lookup(st.mirror, (y, x));
    }
  }

  /** Spending needs an unexpired allowance of at least the amount, and uses up exactly that much. */
  lemma DeductExact(st: State, block: Block, owner: Addr, spender: Addr, amount: nat)
    requires InStep(st)
    ensures var r, k := Deduct(st, block, owner, spender, amount), (owner, spender);
            && !r.Panic?
            && (r.Ok? <==>
                  k in st.allowances && !st.allowances[k].expires.IsExpired(block)
                  && amount <= st.allowances[k].amount)
            && (r.Ok? ==>
                  && r.value == st.(allowances := r.value.allowances, mirror := r.value.mirror) && InStep(r.value)
                  && k in r.value.allowances && r.value.allowances[k].expires == st.allowances[k].expires
                  && Remaining(r.value, owner, spender) == Remaining(st, owner, spender) - amount
                  && forall o, s | (o, s) != k :: Remaining(r.value, o, s) == Remaining(st, o, s))
  {
    assert Lookup(st.allowances, (owner, spender)) == Lookup(st.mirror, (spender, owner));
    if Deduct(st, block, owner, spender, amount).Ok? {
      var a := st.allowances[(owner, spender)];
      AllowanceWritten(st, owner, spender, a.(amount := a.amount - amount));
    }
  }

  /** An expiration given with a change replaces the old one, which otherwise stays. */
  function NewExpiry(st: State, o: Addr, s: Addr, expires: Option<Expiration>): Expiration {
    if expires.Some? then expires.value
    else match Lookup(st.allowances, (o, s)) case None => Never case Some(a) => a.expires
  }

  lemma IncreaseExact(st: State, block: Block, sender: Addr, spender: Addr, amount: nat, expires: Option<Expiration>)
    requires InStep(st)
    ensures var r, k := DoIncrease(st, block, sender, spender, amount, expires), (sender, spender);
            && (r.Error? <==> spender == sender || (expires.Some? && expires.value.IsExpired(block)))
            && (r.Panic? <==> !r.Error? && Remaining(st, sender, spender) + amount > MAX_UINT128)
            && (r.Ok? ==>
                  && k in r.value.allowances && r.value.allowances[k].expires == NewExpiry(st, sender, spender, expires)
                  && r.value == st.(allowances := r.value.allowances, mirror := r.value.mirror) && InStep(r.value)
                  && Remaining(r.value, sender, spender) == Remaining(st, sender, spender) + amount
                  && forall o, s | (o, s) != k :: Remaining(r.value, o, s) == Remaining(st, o, s))
  {
    assert Lookup(st.allowances, (sender, spender)) == Lookup(st.mirror, (spender, sender));
    var r := DoIncrease(st, block, sender, spender, amount, expires);
    if r.Ok? {
      AllowanceWritten(st, sender, spender, r.value.allowances[(sender, spender)]);
    }
  }

  lemma DecreaseExact(st: State, block: Block, sender: Addr, spender: Addr, amount: nat, expires: Option<Expiration>)
    requires InStep(st)
    ensures var r, k := DoDecrease(st, block, sender, spender, amount, expires), (sender, spender);
            && !r.Panic?
            && (r.Error? <==> spender == sender || k !in st.allowances
                              || (amount < Remaining(st, sender, spender) && expires.Some?
                                    && expires.value.IsExpired(block)))
            && (r.Ok? ==>
                  && (k in r.value.allowances <==> amount < Remaining(st, sender, spender))
                  && (k in r.value.allowances ==>
                        r.value.allowances[k].expires
                        == NewExpiry(st, sender, spender, expires))
                  && r.value == st.(allowances := r.value.allowances, mirror := r.value.mirror) && InStep(r.value)
                  && Remaining(r.value, sender, spender)
                     == (if amount < Remaining(st, sender, spender) then Remaining(st, sender, spender) - amount else 0)
                  && forall o, s | (o, s) != k :: Remaining(r.value, o, s) == Remaining(st, o, s))
  {
    var r := DoDecrease(st, block, sender, spender, amount, expires);
    if r.Ok? {
      if amount < Remaining(st, sender, spender) {
        AllowanceWritten(st, sender, spender, r.value.allowances[(sender, spender)]);
      } else {
        AllowanceDropped(st, sender, spender);
      }
    }
  }
}
