// The bank module: one coin list per account.
module Bank {
  import opened Bytes
  import opened Ints
  import opened Sums
  import opened Balances
  import opened Outcomes

  type Addr = bytes

  type Ledger = map<Addr, seq<Coin>>

  /** What `get_balance` loads: a missing account has nothing. */
  function BalanceOf(b: Ledger, a: Addr): seq<Coin> {
    if a in b then b[a] else []
  }

  function Held(b: Ledger, a: Addr, denom: bytes): nat {
    AmountOf(BalanceOf(b, a), denom)
  }

  ghost predicate AllNormalized(b: Ledger) {
    forall a | a in b :: Normalized(b[a])
  }

  /** Everything held in one denomination, over all accounts. */
  ghost function Supply(b: Ledger, denom: bytes): int {
    Total(HeldOf(b, denom))
  }

  ghost function HeldOf(b: Ledger, denom: bytes): map<Addr, int> {
    map a | a in b :: AmountOf(b[a], denom)
  }

  /** Zero coins are dropped; a transfer of nothing is refused. */
  function NormalizeAmount(amount: seq<Coin>): Option<seq<Coin>> {
    if DropZeros(amount) == [] then None else Some(DropZeros(amount))
  }

  /** `set_balance`, which panics when normalizing overflows. */
  function Put(b: Ledger, a: Addr, coins: seq<Coin>): Outcome<Ledger> {
    match NormalForm(coins)
    case None => Panic
    case Some(normal) => Ok(b[a := normal])
  }

  function Mint(b: Ledger, to: Addr, amount: seq<Coin>): Outcome<Ledger> {
    match NormalizeAmount(amount)
    case None => Error
    case Some(coins) =>
      match AddCoins(BalanceOf(b, to), coins)
      case None => Panic
      case Some(sum) => Put(b, to, sum)
  }

  function Burn(b: Ledger, from: Addr, amount: seq<Coin>): Outcome<Ledger> {
    match NormalizeAmount(amount)
    case None => Error
    case Some(coins) =>
      match SubCoins(BalanceOf(b, from), coins)
      case None => Error
      case Some(rest) => Put(b, from, rest)
  }

  function Send(b: Ledger, from: Addr, to: Addr, amount: seq<Coin>): Outcome<Ledger> {
    var burned :- Burn(b, from, amount);
    Mint(burned, to, amount)
  }

  // ---------------------------------------------------------------------------
  // Exactness
  // ---------------------------------------------------------------------------

  /** A transfer of something, rather than nothing. */
  predicate Moves(amount: seq<Coin>) {
    DropZeros(amount) != []
  }

  lemma PutNormalized(b: Ledger, a: Addr, coins: seq<Coin>)
    requires Normalized(coins)
    ensures Put(b, a, coins) == Ok(b[a := coins])
  {
    NormalizedIsNormalForm(coins);
  }

  lemma MintOutcome(b: Ledger, to: Addr, amount: seq<Coin>)
    requires AllNormalized(b)
    ensures var r := Mint(b, to, amount);
            && (r.Error? <==> !Moves(amount))
            && (r.Panic? <==> Moves(amount) && !HasRoom(BalanceOf(b, to), amount))
            && (r.Ok? ==> AddCoins(BalanceOf(b, to), DropZeros(amount)).Some?
                          && r.value == b[to := AddCoins(BalanceOf(b, to), DropZeros(amount)).value]
                          && AllNormalized(r.value))
  {
    if Moves(amount) {
      AddCoinsExact(BalanceOf(b, to), DropZeros(amount));
      RoomWithoutZeros(BalanceOf(b, to), amount);
      if HasRoom(BalanceOf(b, to), amount) {
        PutNormalized(b, to, AddCoins(BalanceOf(b, to), DropZeros(amount)).value);
      }
    }
  }

  lemma RoomWithoutZeros(had: seq<Coin>, amount: seq<Coin>)
    ensures HasRoom(had, DropZeros(amount)) <==> HasRoom(had, amount)
  {
    forall d ensures AmountOf(DropZeros(amount), d) == AmountOf(amount, d) { DropZerosAmounts(amount, d); }
  }

  lemma CoversWithoutZeros(had: seq<Coin>, amount: seq<Coin>)
    ensures Covers(had, DropZeros(amount)) <==> Covers(had, amount)
  {
    forall d ensures AmountOf(DropZeros(amount), d) == AmountOf(amount, d) { DropZerosAmounts(amount, d); }
  }

  lemma MintHeld(b: Ledger, to: Addr, amount: seq<Coin>, a: Addr, denom: bytes)
    requires AllNormalized(b) && Mint(b, to, amount).Ok?
    ensures Held(Mint(b, to, amount).value, a, denom) == Held(b, a, denom) + if a == to then
            AmountOf(amount, denom) else 0
  {
    MintOutcome(b, to, amount);
    AddCoinsAmounts(BalanceOf(b, to), DropZeros(amount), denom);
    DropZerosAmounts(amount, denom);
  }

  /** Minting fails iff it mints nothing, and overflows iff a total of the recipient does;
      otherwise exactly the recipient gains exactly the coins. */
  lemma MintExact(b: Ledger, to: Addr, amount: seq<Coin>)
    requires AllNormalized(b)
    ensures var r := Mint(b, to, amount);
            && (r.Error? <==> !Moves(amount))
            && (r.Panic? <==> Moves(amount) && !HasRoom(BalanceOf(b, to), amount))
            && (r.Ok? ==>
                  && r.value.Keys == b.Keys + {to} && AllNormalized(r.value)
                  && forall a, d :: Held(r.value, a, d) == Held(b, a, d) + if a == to then AmountOf(amount, d) else 0)
  {
    MintOutcome(b, to, amount);
    if Mint(b, to, amount).Ok? {
      var b' := Mint(b, to, amount).value;
      forall a, d ensures Held(b', a, d) == Held(b, a, d) + if a == to then AmountOf(amount, d) else 0 {
        MintHeld(b, to, amount, a, d);
      }
    }
  }

  lemma BurnOutcome(b: Ledger, from: Addr, amount: seq<Coin>)
    requires AllNormalized(b)
    ensures var r := Burn(b, from, amount);
            && (r.Ok? <==> Moves(amount) && Covers(BalanceOf(b, from), amount)) && !r.Panic?
            && (r.Ok? ==> SubCoins(BalanceOf(b, from), DropZeros(amount)).Some?
                          && r.value == b[from := SubCoins(BalanceOf(b, from), DropZeros(amount)).value]
                          && AllNormalized(r.value))
  {
    if Moves(amount) {
      SubCoinsExact(BalanceOf(b, from), DropZeros(amount));
      CoversWithoutZeros(BalanceOf(b, from), amount);
      if Covers(BalanceOf(b, from), amount) {
        PutNormalized(b, from, SubCoins(BalanceOf(b, from), DropZeros(amount)).value);
      }
    }
  }

  lemma BurnHeld(b: Ledger, from: Addr, amount: seq<Coin>, a: Addr, denom: bytes)
    requires AllNormalized(b) && Burn(b, from, amount).Ok?
    ensures Held(Burn(b, from, amount).value, a, denom) == Held(b, a, denom) - if a == from then
            AmountOf(amount, denom) else 0
  {
    BurnOutcome(b, from, amount);
    SubCoinsAmounts(BalanceOf(b, from), DropZeros(amount), denom);
    DropZerosAmounts(amount, denom);
  }

  lemma BurnExact(b: Ledger, from: Addr, amount: seq<Coin>)
    requires AllNormalized(b)
    ensures var r := Burn(b, from, amount);
            && (r.Ok? <==> Moves(amount) && Covers(BalanceOf(b, from), amount)) && !r.Panic?
            && (r.Ok? ==>
                  && r.value.Keys == b.Keys + {from} && AllNormalized(r.value)
                  && forall a, d :: Held(r.value, a, d) == Held(b, a, d) - if a == from then AmountOf(amount, d) else 0)
  {
    BurnOutcome(b, from, amount);
    if Burn(b, from, amount).Ok? {
      var b' := Burn(b, from, amount).value;
      forall a, d ensures Held(b', a, d) == Held(b, a, d) - if a == from then AmountOf(amount, d) else 0 {
        BurnHeld(b, from, amount, a, d);
      }
    }
  }

  lemma SendHeld(b: Ledger, from: Addr, to: Addr, amount: seq<Coin>, a: Addr, denom: bytes)
    requires AllNormalized(b) && Send(b, from, to, amount).Ok?
    ensures Held(Send(b, from, to, amount).value, a, denom)
            == Held(b, a, denom) - (if a == from then AmountOf(amount, denom) else 0)
                                 + (if a == to then AmountOf(amount, denom) else 0)
  {
    var burned := Burn(b, from, amount).value;
    BurnOutcome(b, from, amount);
    BurnHeld(b, from, amount, a, denom);
    MintHeld(burned, to, amount, a, denom);
  }

  lemma SendOutcome(b: Ledger, from: Addr, to: Addr, amount: seq<Coin>)
    requires AllNormalized(b)
    ensures var r, pays := Send(b, from, to, amount), Moves(amount) && Covers(BalanceOf(b, from), amount);
            && (r.Error? <==> !pays)
            && (r.Panic? <==> pays && from != to && !HasRoom(BalanceOf(b, to), amount))
            && (r.Ok? ==> r.value.Keys == b.Keys + {from, to} && AllNormalized(r.value))
  {
    BurnOutcome(b, from, amount);
    if Burn(b, from, amount).Ok? {
      var burned := Burn(b, from, amount).value;
      MintOutcome(burned, to, amount);
      if from == to { RoomForOwnCoins(b, from, amount); }
    }
  }

  /** What was just taken from an account fits back. */
  lemma RoomForOwnCoins(b: Ledger, from: Addr, amount: seq<Coin>)
    requires AllNormalized(b) && Burn(b, from, amount).Ok?
    ensures HasRoom(BalanceOf(Burn(b, from, amount).value, from), amount)
  {
    NormalizedFits(BalanceOf(b, from));
    forall d ensures Held(Burn(b, from, amount).value, from, d) + AmountOf(amount, d) <= MAX_UINT128 {
      BurnHeld(b, from, amount, from, d);
    }
  }

  /** A transfer fails iff it moves nothing or the sender lacks some of it, and overflows iff
      it goes to someone else whose total overflows; otherwise it moves exactly the coins,
      also when sender and recipient are the same. */
  lemma SendExact(b: Ledger, from: Addr, to: Addr, amount: seq<Coin>)
    requires AllNormalized(b)
    ensures var r, pays := Send(b, from, to, amount), Moves(amount) && Covers(BalanceOf(b, from), amount);
            && (r.Error? <==> !pays)
            && (r.Panic? <==> pays && from != to && !HasRoom(BalanceOf(b, to), amount))
            && (r.Ok? ==>
                  && r.value.Keys == b.Keys + {from, to} && AllNormalized(r.value)
                  && forall a, d :: Held(r.value, a, d)
                        == Held(b, a, d) - (if a == from then AmountOf(amount, d) else 0)
                                                                         + (if a == to then AmountOf(amount, d) else 0))
  {
    SendOutcome(b, from, to, amount);
    if Send(b, from, to, amount).Ok? {
      var b' := Send(b, from, to, amount).value;
      forall a, d ensures Held(b', a, d) == Held(b, a, d) - (if a == from then AmountOf(amount, d) else 0)
                                                          + (if a == to then AmountOf(amount, d) else 0) {
        SendHeld(b, from, to, amount, a, d);
      }
    }
  }

  lemma MintOneExact(b: Ledger, to: Addr, c: Coin)
    requires AllNormalized(b)
    ensures var r := Mint(b, to, [c]);
            && (r.Error? <==> c.amount == 0)
            && (r.Panic? <==> c.amount > 0 && Held(b, to, c.denom) + c.amount > MAX_UINT128)
            && (r.Ok? ==>
                  && AllNormalized(r.value)
                  && forall a, d :: Held(r.value, a, d) == Held(b, a, d) + if a == to
                        && d == c.denom then c.amount else 0)
  {
    OneCoin(c);
    MintExact(b, to, [c]);
    NormalizedFits(BalanceOf(b, to));
    OneCoinFits(BalanceOf(b, to), c);
  }

  /** A transfer of one coin. */
  lemma SendOneExact(b: Ledger, from: Addr, to: Addr, c: Coin)
    requires AllNormalized(b) && c.amount > 0
    ensures var r, pays := Send(b, from, to, [c]), c.amount <= Held(b, from, c.denom);
            && (r.Error? <==> !pays)
            && (r.Panic? <==> pays && from != to && Held(b, to, c.denom) + c.amount > MAX_UINT128)
            && (r.Ok? ==>
                  && AllNormalized(r.value)
                  && forall a, d :: Held(r.value, a, d) == Held(b, a, d)
                       + if d == c.denom then (if a == to then c.amount else 0)
                           - (if a == from then c.amount else 0) else 0)
  {
    OneCoin(c);
    SendExact(b, from, to, [c]);
    OneCoinCovered(BalanceOf(b, from), c);
    NormalizedFits(BalanceOf(b, to));
    OneCoinFits(BalanceOf(b, to), c);
  }

  lemma OneCoinCovered(had: seq<Coin>, c: Coin)
    ensures Covers(had, [c]) <==> c.amount <= AmountOf(had, c.denom)
  {
    OneCoin(c);
    if c.amount <= AmountOf(had, c.denom) {
      forall d ensures AmountOf([c], d) <= AmountOf(had, d) { }
    }
    assert AmountOf([c], c.denom) == c.amount;
  }

  lemma OneCoinFits(had: seq<Coin>, c: Coin)
    requires Fits(had)
    ensures HasRoom(had, [c]) <==> AmountOf(had, c.denom) + c.amount <= MAX_UINT128
  {
    OneCoin(c);
    if AmountOf(had, c.denom) + c.amount <= MAX_UINT128 {
      forall d ensures AmountOf(had, d) + AmountOf([c], d) <= MAX_UINT128 {
        assert AmountOf(had, d) <= MAX_UINT128;
      }
    }
    assert AmountOf([c], c.denom) == c.amount;
  }

  lemma HeldAtMostSupply(b: Ledger, x: Addr, y: Addr, denom: bytes)
    requires x != y
    ensures Held(b, x, denom) + Held(b, y, denom) <= Supply(b, denom)
  {
    var m := HeldOf(b, denom);
    TotalRemove(m, x);
    TotalRemove(m - {x}, y);
    TotalNonNegative(m - {x} - {y});
  }

  /** While each denomination's supply fits 128 bits, no transfer overflows. */
  lemma SendNeverOverflows(b: Ledger, from: Addr, to: Addr, amount: seq<Coin>)
    requires AllNormalized(b) && forall d :: Supply(b, d) <= MAX_UINT128
    ensures !Send(b, from, to, amount).Panic?
  {
    SendExact(b, from, to, amount);
    if from != to && Covers(BalanceOf(b, from), amount) {
      forall d ensures Held(b, to, d) + AmountOf(amount, d) <= MAX_UINT128 {
        assert AmountOf(amount, d) <= Held(b, from, d);
        HeldAtMostSupply(b, from, to, d);
      }
    }
  }

  lemma SupplyAfter(b: Ledger, b': Ledger, at: Addr, denom: bytes)
    requires b' == b[at := BalanceOf(b', at)]
    ensures Supply(b', denom) == Supply(b, denom) - Held(b, at, denom) + Held(b', at, denom)
  {
    TotalUpdate(HeldOf(b, denom), at, Held(b', at, denom));
    assert HeldOf(b, denom)[at := Held(b', at, denom)] == HeldOf(b', denom);
  }

  /** Minting and burning move the supply by what they say; sending conserves it. */
  lemma SendConservesSupply(b: Ledger, from: Addr, to: Addr, amount: seq<Coin>, denom: bytes)
    requires AllNormalized(b)
    ensures Mint(b, to, amount).Ok? ==>
            Supply(Mint(b, to, amount).value, denom) == Supply(b, denom) + AmountOf(amount, denom)
    ensures Burn(b, from, amount).Ok? ==>
            Supply(Burn(b, from, amount).value, denom) == Supply(b, denom) - AmountOf(amount, denom)
    ensures Send(b, from, to, amount).Ok? ==> Supply(Send(b, from, to, amount).value, denom) == Supply(b, denom)
  {
    MintMovesSupply(b, to, amount, denom);
    BurnOutcome(b, from, amount);
    if Burn(b, from, amount).Ok? {
      var burned := Burn(b, from, amount).value;
      BurnHeld(b, from, amount, from, denom);
      SupplyAfter(b, burned, from, denom);
      MintMovesSupply(burned, to, amount, denom);
    }
  }

  lemma MintMovesSupply(b: Ledger, to: Addr, amount: seq<Coin>, denom: bytes)
    requires AllNormalized(b)
    ensures Mint(b, to, amount).Ok? ==>
            Supply(Mint(b, to, amount).value, denom) == Supply(b, denom) + AmountOf(amount, denom)
  {
    MintOutcome(b, to, amount);
    if Mint(b, to, amount).Ok? {
      MintHeld(b, to, amount, to, denom);
      SupplyAfter(b, Mint(b, to, amount).value, to, denom);
    }
  }

  class BankKeeper {
    var balances: Ledger

    constructor ()
      ensures balances == map[]
    {
      balances := map[];
    }

    method SetBalance(account: Addr, amount: seq<Coin>) returns (r: Verdict)
      modifies this
      ensures Agrees(r, balances, Put(old(balances), account, amount))
    {
      var balance := new NativeBalance(amount);
      var ok := balance.Normalize();
      if !ok {
        return Panicked;
      }
      balances := balances[account := balance.coins];
      r := Done;
    }

    method DoMint(to: Addr, amount: seq<Coin>) returns (r: Verdict)
      modifies this
      ensures Agrees(r, balances, Mint(old(balances), to, amount))
    {
      var coins := NormalizeAmount(amount);
      if coins == None {
        return Failed;
      }
      var b := new NativeBalance(BalanceOf(balances, to));
      var ok := b.AddAssignAll(coins.value);
      if !ok {
        return Panicked;
      }
      r := SetBalance(to, b.coins);
    }

    method DoBurn(from: Addr, amount: seq<Coin>) returns (r: Verdict)
      modifies this
      ensures Agrees(r, balances, Burn(old(balances), from, amount))
    {
      var coins := NormalizeAmount(amount);
      if coins == None {
        return Failed;
      }
      var b := new NativeBalance(BalanceOf(balances, from));
      var ok := b.SubAll(coins.value);
      if !ok {
        return Failed;
      }
      r := SetBalance(from, b.coins);
    }

    method DoSend(from: Addr, to: Addr, amount: seq<Coin>) returns (r: Verdict)
      modifies this
      ensures Agrees(r, balances, Send(old(balances), from, to, amount))
    {
      r := DoBurn(from, amount);
      if r == Done {
        r := DoMint(to, amount);
      }
    }
  }
}
