// The contract itself, updating its stored maps one after the other.
module Cw20Contract {
  import opened Bytes
  import opened Sorting
  import opened Expirations
  import opened Ints
  import opened Outcomes
  import Cw20
  import opened Cw20Types = Cw20

  /** Removes elements equal to their predecessor. */
  function Dedup(s: seq<Addr>): seq<Addr> {
    if |s| <= 1 then s
    else if s[|s| - 2] == s[|s| - 1] then Dedup(s[..|s| - 1])
    else Dedup(s[..|s| - 1]) + [s[|s| - 1]]
  }

  function Identity(a: Addr): bytes { a }

  ghost predicate AllDistinct(s: seq<Addr>) {
    forall i, j | 0 <= i < j < |s| :: s[i] != s[j]
  }

  /** On a sorted list nothing is removed exactly when there are no duplicates. */
  lemma {:induction false} DedupSorted(s: seq<Addr>)
    requires SortedBy(s, Identity)
    ensures |Dedup(s)| <= |s| && (|Dedup(s)| == |s| <==> AllDistinct(s))
  {
    if |s| > 1 {
      var n := |s| - 1;
      var front := s[..n];
      assert SortedBy(front, Identity) by {
        forall i, j | 0 <= i < j < |front| ensures !Less(Identity(front[j]), Identity(front[i])) {
          assert !Less(Identity(s[j]), Identity(s[i]));
        }
      }
      DedupSorted(front);
      if s[n - 1] != s[n] && AllDistinct(front) {
        forall i | 0 <= i < n ensures s[i] != s[n] {
          if i < n - 1 {
            assert !Less(Identity(s[n - 1]), Identity(s[i])) && !Less(Identity(s[n]), Identity(s[n - 1]));
            assert front[i] != front[n - 1];
            LessTotal(s[i], s[n - 1]);
            LessNotLess(s[i], s[n - 1], s[n]);
            LessIrreflexive(s[i]);
          }
        }
      }
      if AllDistinct(s) {
        assert AllDistinct(front) by {
          forall i, j | 0 <= i < j < |front| ensures front[i] != front[j] { assert s[i] != s[j]; }
        }
      }
    }
  }

  lemma {:induction false} DistinctByMultiset(s: seq<Addr>)
    ensures AllDistinct(s) <==> forall a :: multiset(s)[a] <= 1
  {
    if s != [] {
      DistinctByMultiset(s[1..]);
      assert s == [s[0]] + s[1..];
      if AllDistinct(s) {
        assert AllDistinct(s[1..]);
        assert s[0] !in s[1..];
      }
      if forall a :: multiset(s)[a] <= 1 {
        assert multiset(s)[s[0]] <= 1;
        assert s[0] !in multiset(s[1..]);
        forall a ensures multiset(s[1..])[a] <= 1 { assert multiset(s)[a] <= 1; }
        assert AllDistinct(s[1..]);
        forall j | 0 < j < |s| ensures s[0] != s[j] { assert s[j] == s[1..][j - 1]; }
        forall i, j | 0 <= i < j < |s| ensures s[i] != s[j] {
          if i > 0 { assert s[1..][i - 1] != s[1..][j - 1]; }
        }
      }
    }
  }

  function AddressesOf(accounts: seq<Account>): (r: seq<Addr>)
    ensures |r| == |accounts| && forall i | 0 <= i < |r| :: r[i] == accounts[i].0
  {
    seq(|accounts|, i requires 0 <= i < |accounts| => accounts[i].0)
  }

  /** Sorts, removes repetitions, and compares the lengths. */
  method ValidateAccounts(accounts: seq<Account>) returns (ok: bool)
    ensures ok <==> DistinctAddresses(accounts)
  {
    var addresses := AddressesOf(accounts);
    var sorted := Sort(addresses, Identity);
    var deduped := Dedup(sorted);
    DedupSorted(sorted);
    DistinctByMultiset(sorted);
    DistinctByMultiset(addresses);
    assert |sorted| == |addresses| by { assert |multiset(sorted)| == |multiset(addresses)|; }
    ok := |deduped| == |accounts|;
    assert AllDistinct(addresses) <==> DistinctAddresses(accounts) by {
      if AllDistinct(addresses) {
        forall i, j | 0 <= i < j < |accounts| ensures accounts[i].0 != accounts[j].0 {
          assert addresses[i] != addresses[j];
        }
      }
    }
  }

  class Contract {
    var supply: nat
    var mint: Option<MinterData>
    var balances: Balances
    var allowances: Allowances
    var mirror: Allowances

    ghost function Abs(): State
      reads this
    {
      State(supply, mint, balances, allowances, mirror)
    }

    /** A fresh, empty storage. */
    constructor ()
      ensures Abs() == State(0, None, map[], map[], map[])
    {
      supply, mint, balances, allowances, mirror := 0, None, map[], map[], map[];
    }

    method CreateAccounts(accounts: seq<Account>) returns (r: Verdict, total: nat)
      requires balances == map[]
      modifies `balances
      ensures r == Failed <==> !DistinctAddresses(accounts)
      ensures r == Panicked <==> DistinctAddresses(accounts) && SumOf(accounts) > MAX_UINT128
      ensures r == Done ==> total == SumOf(accounts) && balances == BalancesOf(accounts)
    {
      total := 0;
      var ok := ValidateAccounts(accounts);
      if !ok {
        return Failed, total;
      }
      for i := 0 to |accounts|
        invariant total == SumOf(accounts[..i]) <= MAX_UINT128 && balances == BalancesOf(accounts[..i])
      {
        assert accounts[..i + 1][..i] == accounts[..i];
        SumGrows(accounts, i + 1);
        balances := balances[accounts[i].0 := accounts[i].1];
        if total + accounts[i].1 > MAX_UINT128 {
          return Panicked, total;
        }
        total := total + accounts[i].1;
      }
      assert accounts[..|accounts|] == accounts;
      r := Done;
    }

    method Instantiate(accounts: seq<Account>, minter: Option<MinterData>) returns (r: Verdict)
      requires Abs() == State(0, None, map[], map[], map[])
      modifies this
      ensures Agrees(r, Abs(), Cw20.Instantiate(accounts, minter))
    {
      var total;
      r, total := CreateAccounts(accounts);
      if r != Done {
        return;
      }
      if minter.Some? && minter.value.cap.Some? && total > minter.value.cap.value {
        return Failed;
      }
      supply, mint := total, minter;
    }

    /** `BALANCES.update` with a checked subtraction. */
    method Debit(a: Addr, amount: nat) returns (r: Verdict)
      modifies `balances
      ensures match Cw20.Debit(old(balances), a, amount)
              case Ok(b) => r == Done && balances == b
              case Error => r == Failed
              case Panic => r == Panicked
    {
      var balance := if a in balances then balances[a] else 0;
      if amount > balance {
        return Failed;
      }
      balances := balances[a := balance - amount];
      r := Done;
    }

    /** `BALANCES.update` with an unchecked addition, which panics on overflow. */
    method Credit(a: Addr, amount: nat) returns (r: Verdict)
      modifies `balances
      ensures match Cw20.Credit(old(balances), a, amount)
              case Ok(b) => r == Done && balances == b
              case Error => r == Failed
              case Panic => r == Panicked
    {
      var balance := if a in balances then balances[a] else 0;
      if balance + amount > MAX_UINT128 {
        return Panicked;
      }
      balances := balances[a := balance + amount];
      r := Done;
    }

    method Transfer(sender: Addr, to: Addr, amount: nat) returns (r: Verdict)
      modifies this
      ensures Agrees(r, Abs(), Cw20.DoTransfer(old(Abs()), sender, to, amount))
    {
      if amount == 0 {
        return Failed;
      }
      r := Debit(sender, amount);
      if r == Done {
        r := Credit(to, amount);
      }
    }

    method Burn(sender: Addr, amount: nat) returns (r: Verdict)
      modifies this
      ensures Agrees(r, Abs(), Cw20.DoBurn(old(Abs()), sender, amount))
    {
      if amount == 0 {
        return Failed;
      }
      // the owner pays first
      r := Debit(sender, amount);
      if r == Done {
        // reduce total supply
        if amount > supply {
          return Failed;
        }
        supply := supply - amount;
      }
    }

    method Mint(sender: Addr, to: Addr, amount: nat) returns (r: Verdict)
      modifies this
      ensures Agrees(r, Abs(), Cw20.DoMint(old(Abs()), sender, to, amount))
    {
      if amount == 0 {
        return Failed;
      }
      if mint == None || mint.value.minter != sender {
        return Failed;
      }
      // overflow is noticed before the cap is
      if supply + amount > MAX_UINT128 {
        return Panicked;
      }
      if mint.value.cap.Some? && supply + amount > mint.value.cap.value {
        return Failed;
      }
      supply := supply + amount;
      r := Credit(to, amount);
    }

    method UpdateMinter(sender: Addr, newMinter: Option<Addr>) returns (r: Verdict)
      modifies this
      ensures Agrees(r, Abs(), Cw20.DoUpdateMinter(old(Abs()), sender, newMinter))
    {
      if mint == None || mint.value.minter != sender {
        return Failed;
      }
      mint := match newMinter case None => None case Some(m) => Some(MinterData(m, mint.value.cap));
      r := Done;
    }

    method IncreaseAllowance(block: Block, sender: Addr, spender: Addr, amount: nat,
                             expires: Option<Expiration>) returns (r: Verdict)
      modifies this
      ensures Agrees(r, Abs(), Cw20.DoIncrease(old(Abs()), block, sender, spender, amount, expires))
    {
      if spender == sender {
        return Failed;
      }
      var a := Increased(Lookup(allowances, (sender, spender)), block, amount, expires);
      match a {
        case Error => return Failed;
        case Panic => return Panicked;
        case Ok(allowance) => allowances := allowances[(sender, spender) := allowance];
      }
      var b := Increased(Lookup(mirror, (spender, sender)), block, amount, expires);
      match b {
        case Error => return Failed;
        case Panic => return Panicked;
        case Ok(allowance) => mirror := mirror[(spender, sender) := allowance];
      }
      r := Done;
    }

    method DecreaseAllowance(block: Block, sender: Addr, spender: Addr, amount: nat,
                             expires: Option<Expiration>) returns (r: Verdict)
      modifies this
      ensures Agrees(r, Abs(), Cw20.DoDecrease(old(Abs()), block, sender, spender, amount, expires))
    {
      var key, reversed := (sender, spender), (spender, sender);
      if spender == sender || key !in allowances {
        return Failed;
      }
      // nothing left means no entry
      var allowance := allowances[key];
      if amount < allowance.amount {
        allowance := allowance.(amount := allowance.amount - amount);
        if expires.Some? {
          if expires.value.IsExpired(block) {
            return Failed;
          }
          allowance := allowance.(expires := expires.value);
        }
        allowances := allowances[key := allowance];
        mirror := mirror[reversed := allowance];
      } else {
        allowances := allowances - {key};
        mirror := mirror - {reversed};
      }
      r := Done;
    }

    /** Deducts from the one map, then from the other. */
    method DeductAllowance(block: Block, owner: Addr, spender: Addr, amount: nat) returns (r: Verdict)
      modifies this
      ensures Agrees(r, Abs(), Cw20.Deduct(old(Abs()), block, owner, spender, amount))
    {
      var a := Deducted(Lookup(allowances, (owner, spender)), block, amount);
      if !a.Ok? {
        return Failed;
      }
      allowances := allowances[(owner, spender) := a.value];
      var b := Deducted(Lookup(mirror, (spender, owner)), block, amount);
      if !b.Ok? {
        return Failed;
      }
      mirror := mirror[(spender, owner) := b.value];
      r := Done;
    }

    /** `execute_transfer_from`, and the ledger part of `execute_send_from`. */
    method TransferFrom(block: Block, spender: Addr, owner: Addr, to: Addr, amount: nat) returns (r: Verdict)
      modifies this
      ensures Agrees(r, Abs(), Cw20.DoTransferFrom(old(Abs()), block, spender, owner, to, amount))
    {
      // the allowance goes even if the owner turns out to be short; the failure undoes it
      r := DeductAllowance(block, owner, spender, amount);
      if r == Done {
        r := Debit(owner, amount);
        if r == Done {
          r := Credit(to, amount);
        }
      }
    }

    method BurnFrom(block: Block, spender: Addr, owner: Addr, amount: nat) returns (r: Verdict)
      modifies this
      ensures Agrees(r, Abs(), Cw20.DoBurnFrom(old(Abs()), block, spender, owner, amount))
    {
      r := DeductAllowance(block, owner, spender, amount);
      if r == Done {
        r := Debit(owner, amount);
        if r == Done {
          if amount > supply {
            return Failed;
          }
          supply := supply - amount;
        }
      }
    }

    /** Writes every allowance into the reverse map, entry by entry. */
    method Migrate(beforeMirror: bool)
      modifies this
      ensures Abs() == Cw20.Apply(old(Abs()), Block(0, 0), Cw20.Migrate(beforeMirror)).value
    {
      if beforeMirror {
        var todo := allowances.Keys;
        while todo != {}
          invariant todo <= allowances.Keys
          invariant Abs() == old(Abs()).(mirror := Mirrored(allowances - todo, old(mirror)))
          decreases todo
        {
          var key :| key in todo;
          mirror := mirror[(key.1, key.0) := allowances[key]];
          MirrorStep(allowances, old(mirror), todo, key);
          todo := todo - {key};
        }
        assert allowances - todo == allowances;
      }
    }

    method Execute(block: Block, msg: Msg) returns (r: Verdict)
      modifies this
      ensures Agrees(r, Abs(), Cw20.Apply(old(Abs()), block, msg))
    {
      match msg
      case Transfer(sender, to, amount) => r := Transfer(sender, to, amount);
      case Send(sender, to, amount) => r := Transfer(sender, to, amount);
      case Burn(sender, amount) => r := Burn(sender, amount);
      case Mint(sender, to, amount) => r := Mint(sender, to, amount);
      case UpdateMinter(sender, newMinter) => r := UpdateMinter(sender, newMinter);
      case IncreaseAllowance(sender, spender, amount, expires) => r :=
          IncreaseAllowance(block, sender, spender, amount, expires);
      case DecreaseAllowance(sender, spender, amount, expires) => r :=
          DecreaseAllowance(block, sender, spender, amount, expires);
      case TransferFrom(sender, owner, to, amount) => r := TransferFrom(block, sender, owner, to, amount);
      case SendFrom(sender, owner, to, amount) => r := TransferFrom(block, sender, owner, to, amount);
      case BurnFrom(sender, owner, amount) => r := BurnFrom(block, sender, owner, amount);
      case Migrate(beforeMirror) => Migrate(beforeMirror); r := Done;
    }
  }

  lemma {:induction false} SumGrows(accounts: seq<Account>, n: nat)
    requires n <= |accounts|
    ensures SumOf(accounts[..n]) <= SumOf(accounts)
    decreases |accounts| - n
  {
    if n == |accounts| {
      assert accounts[..n] == accounts;
    } else {
      assert accounts[..n + 1][..n] == accounts[..n];
      SumGrows(accounts, n + 1);
    }
  }

  lemma MirrorStep(allowances: Allowances, mirror: Allowances, todo: set<(Addr, Addr)>, key: (Addr, Addr))
    requires key in todo && todo <= allowances.Keys
    ensures Mirrored(allowances - todo, mirror)[(key.1, key.0) := allowances[key]]
            == Mirrored(allowances - (todo - {key}), mirror)
  {
    var a, b := Mirrored(allowances - todo, mirror), Mirrored(allowances - (todo - {key}), mirror);
    var r := (key.1, key.0);
    assert r in ReversedKeys(allowances - (todo - {key})) by { assert key in allowances - (todo - {key}); }
    forall k ensures k in a[r := allowances[key]] <==> k in b {
      if k in ReversedKeys(allowances - todo) { assert (k.1, k.0) in allowances - (todo - {key}); }
      if k in ReversedKeys(allowances - (todo - {key})) && k != r { assert (k.1, k.0) in allowances - todo; }
    }
  }
}
