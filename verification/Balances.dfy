// Coin lists (`NativeBalance`): normal form, addition and exact subtraction.
module Balances {
  import opened Bytes
  import opened Ints
  import opened Sorting

  datatype Coin = Coin(denom: bytes, amount: u128)

  /** What a coin list is worth in one denomination. */
  function AmountOf(coins: seq<Coin>, denom: bytes): nat {
    if coins == [] then 0
    else (if coins[0].denom == denom then coins[0].amount else 0) + AmountOf(coins[1..], denom)
  }

  ghost predicate SameAmounts(a: seq<Coin>, b: seq<Coin>) {
    forall d :: AmountOf(a, d) == AmountOf(b, d)
  }

  /** Strictly sorted by denomination, without zero amounts. */
  predicate Normalized(coins: seq<Coin>) {
    && (forall i | 0 <= i < |coins| :: coins[i].amount > 0)
    && (forall i, j | 0 <= i < j < |coins| :: Less(coins[i].denom, coins[j].denom))
  }

  predicate NonZero(coins: seq<Coin>) {
    forall i | 0 <= i < |coins| :: coins[i].amount > 0
  }

  lemma {:induction false} AmountOfConcat(a: seq<Coin>, b: seq<Coin>, denom: bytes)
    ensures AmountOf(a + b, denom) == AmountOf(a, denom) + AmountOf(b, denom)
  {
    if a == [] {
      assert a + b == b;
    } else {
      assert (a + b)[1..] == a[1..] + b;
      AmountOfConcat(a[1..], b, denom);
    }
  }

  lemma OneCoin(c: Coin)
    ensures forall d :: AmountOf([c], d) == if d == c.denom then c.amount else 0
    ensures DropZeros([c]) == if c.amount == 0 then [] else [c]
  {
    assert [c][1..] == [];
  }

  /** Splits out the contribution of position `i`. */
  lemma AmountOfAt(coins: seq<Coin>, i: nat, denom: bytes)
    requires i < |coins|
    ensures AmountOf(coins, denom)
            == AmountOf(coins[..i], denom) + (if coins[i].denom == denom then coins[i].amount else 0)
                + AmountOf(coins[i + 1..], denom)
  {
    assert coins == coins[..i] + coins[i..];
    AmountOfConcat(coins[..i], coins[i..], denom);
    assert coins[i..][1..] == coins[i + 1..];
  }

  lemma {:induction false} AmountOfAbsent(coins: seq<Coin>, denom: bytes)
    requires forall i | 0 <= i < |coins| :: coins[i].denom != denom
    ensures AmountOf(coins, denom) == 0
  {
    if coins != [] {
      AmountOfAbsent(coins[1..], denom);
    }
  }

  lemma AmountOfPresent(coins: seq<Coin>, i: nat)
    requires Normalized(coins) && i < |coins|
    ensures AmountOf(coins, coins[i].denom) == coins[i].amount
  {
    var d := coins[i].denom;
    AmountOfAt(coins, i, d);
    forall j | 0 <= j < |coins| && j != i ensures coins[j].denom != d {
      if j < i { LessAsymmetric(coins[j].denom, d); } else { LessAsymmetric(d, coins[j].denom); }
    }
    AmountOfAbsent(coins[..i], d);
    AmountOfAbsent(coins[i + 1..], d);
  }

  lemma HeadIsWorth(coins: seq<Coin>)
    requires Normalized(coins)
    ensures coins == [] || AmountOf(coins, coins[0].denom) >= coins[0].amount > 0
  {
  }

  lemma WorthlessIsEmpty(coins: seq<Coin>)
    requires Normalized(coins) && forall d :: AmountOf(coins, d) == 0
    ensures coins == []
  {
    HeadIsWorth(coins);
  }

  lemma MultisetWithout(s: seq<Coin>, i: nat)
    requires i < |s|
    ensures multiset(s[..i] + s[i + 1..]) == multiset(s) - multiset{s[i]}
  {
    assert s == s[..i] + [s[i]] + s[i + 1..];
  }

  lemma PermutationStep(a: seq<Coin>, b: seq<Coin>, i: nat)
    requires multiset(a) == multiset(b) && a != [] && i < |b| && b[i] == a[0]
    ensures multiset(a[1..]) == multiset(b[..i] + b[i + 1..])
  {
    MultisetWithout(b, i);
    assert a == [a[0]] + a[1..];
    assert multiset(a) == multiset{a[0]} + multiset(a[1..]);
  }

  lemma AmountOfWithout(coins: seq<Coin>, i: nat, denom: bytes)
    requires i < |coins|
    ensures AmountOf(coins, denom)
            == AmountOf(coins[..i] + coins[i + 1..], denom) + if coins[i].denom == denom then coins[i].amount else 0
  {
    AmountOfAt(coins, i, denom);
    AmountOfConcat(coins[..i], coins[i + 1..], denom);
  }

  lemma {:induction false} AmountOfPermutation(a: seq<Coin>, b: seq<Coin>, denom: bytes)
    requires multiset(a) == multiset(b)
    ensures AmountOf(a, denom) == AmountOf(b, denom)
    decreases |a|
  {
    if a == [] {
      assert |multiset(b)| == 0;
    } else {
      assert a[0] in multiset(b);
      var i :| 0 <= i < |b| && b[i] == a[0];
      PermutationStep(a, b, i);
      AmountOfPermutation(a[1..], b[..i] + b[i + 1..], denom);
      AmountOfWithout(b, i, denom);
    }
  }

  /** Denominations and totals determine a normalized list. */
  lemma {:induction false} NormalizedUnique(a: seq<Coin>, b: seq<Coin>)
    requires Normalized(a) && Normalized(b) && SameAmounts(a, b)
    ensures a == b
    decreases |a|
  {
    if a == [] {
      forall d ensures AmountOf(b, d) == 0 { assert AmountOf(a, d) == AmountOf(b, d); }
      WorthlessIsEmpty(b);
    } else {
      AmountOfPresent(a, 0);
      assert AmountOf(a, a[0].denom) == AmountOf(b, a[0].denom);
      SmallestDenom(b, a[0].denom);
      AmountOfPresent(b, 0);
      assert AmountOf(a, b[0].denom) == AmountOf(b, b[0].denom);
      SmallestDenom(a, b[0].denom);
      LessTotal(a[0].denom, b[0].denom);
      assert a[0].denom == b[0].denom;
      forall d ensures AmountOf(a[1..], d) == AmountOf(b[1..], d) {
        assert AmountOf(a, d) == AmountOf(b, d);
      }
      NormalizedUnique(a[1..], b[1..]);
    }
  }

  /** A normalized list only has denominations from its first one upwards. */
  lemma SmallestDenom(coins: seq<Coin>, denom: bytes)
    requires Normalized(coins) && AmountOf(coins, denom) > 0
    ensures coins != [] && !Less(denom, coins[0].denom)
  {
    if coins == [] || Less(denom, coins[0].denom) {
      forall i | 0 <= i < |coins| ensures coins[i].denom != denom {
        if i > 0 { LessTransitive(denom, coins[0].denom, coins[i].denom); }
        LessAsymmetric(denom, coins[i].denom);
      }
      AmountOfAbsent(coins, denom);
      assert false;
    }
  }

  // ---------------------------------------------------------------------------
  // Lookup, addition and subtraction
  // ---------------------------------------------------------------------------

  /** The first position holding `denom`. */
  function Find(coins: seq<Coin>, denom: bytes): (r: Option<nat>)
    ensures r.Some? ==> r.value < |coins| && coins[r.value].denom == denom
    ensures r == None <==> forall i | 0 <= i < |coins| :: coins[i].denom != denom
  {
    if coins == [] then None
    else if coins[0].denom == denom then Some(0)
    else
      var r := Find(coins[1..], denom);
      assert forall i | 1 <= i < |coins| :: coins[i] == coins[1..][i - 1];
      match r case None => None case Some(i) => Some(i + 1)
  }

  /** The first position whose denomination is not below `denom`. */
  function InsertPos(coins: seq<Coin>, denom: bytes): (r: Option<nat>)
    ensures var p := if r.Some? then r.value else |coins|;
            && p <= |coins| && (r.Some? ==> p < |coins| && !Less(coins[p].denom, denom))
            && forall i | 0 <= i < p :: Less(coins[i].denom, denom)
  {
    if coins == [] then None
    else if !Less(coins[0].denom, denom) then Some(0)
    else
      var r := InsertPos(coins[1..], denom);
      match r case None => None case Some(i) => Some(i + 1)
  }

  /** `None` when the sum overflows, which panics. */
  function AddCoin(coins: seq<Coin>, c: Coin): Option<seq<Coin>> {
    match Find(coins, c.denom)
    case Some(i) =>
      if coins[i].amount + c.amount > MAX_UINT128 then None
      else Some(coins[i := Coin(c.denom, coins[i].amount + c.amount)])
    case None =>
      match InsertPos(coins, c.denom)
      case Some(i) => Some(coins[..i] + [c] + coins[i..])
      case None => Some(coins + [c])
  }

  function AddCoins(coins: seq<Coin>, more: seq<Coin>): Option<seq<Coin>>
    decreases |more|
  {
    if more == [] then Some(coins)
    else
      match AddCoin(coins, more[0])
      case None => None
      case Some(sum) => AddCoins(sum, more[1..])
  }

  /** `None` when the list holds no such coin, or too little of it. */
  function SubCoin(coins: seq<Coin>, c: Coin): Option<seq<Coin>> {
    match Find(coins, c.denom)
    case None => None
    case Some(i) =>
      if coins[i].amount < c.amount then None
      else if coins[i].amount == c.amount then Some(coins[..i] + coins[i + 1..])
      else Some(coins[i := Coin(c.denom, coins[i].amount - c.amount)])
  }

  function SubCoins(coins: seq<Coin>, less: seq<Coin>): Option<seq<Coin>>
    decreases |less|
  {
    if less == [] then Some(coins)
    else
      match SubCoin(coins, less[0])
      case None => None
      case Some(rest) => SubCoins(rest, less[1..])
  }

  lemma AmountOfUpdate(coins: seq<Coin>, i: nat, c: Coin, denom: bytes)
    requires i < |coins|
    ensures AmountOf(coins[i := c], denom)
            == AmountOf(coins, denom) - (if coins[i].denom == denom then coins[i].amount else 0)
                + (if c.denom == denom then c.amount else 0)
  {
    AmountOfAt(coins, i, denom);
    AmountOfAt(coins[i := c], i, denom);
    assert coins[i := c][..i] == coins[..i] && coins[i := c][i + 1..] == coins[i + 1..];
  }

  lemma InsertAmounts(coins: seq<Coin>, p: nat, c: Coin, denom: bytes)
    requires p <= |coins|
    ensures AmountOf(coins[..p] + [c] + coins[p..], denom) == AmountOf(coins, denom) + if c.denom == denom then
            c.amount else 0
  {
    AmountOfConcat(coins[..p] + [c], coins[p..], denom);
    AmountOfConcat(coins[..p], [c], denom);
    AmountOfConcat(coins[..p], coins[p..], denom);
    assert coins == coins[..p] + coins[p..];
    assert AmountOf([c][1..], denom) == 0;
  }

  /** Adding a coin adds its amount to its own denomination and to no other. */
  lemma AddCoinAmounts(coins: seq<Coin>, c: Coin, denom: bytes)
    requires AddCoin(coins, c).Some?
    ensures AmountOf(AddCoin(coins, c).value, denom) == AmountOf(coins, denom) + if c.denom == denom then c.amount
            else 0
  {
    match Find(coins, c.denom)
    case Some(i) => AmountOfUpdate(coins, i, Coin(c.denom, coins[i].amount + c.amount), denom);
    case None =>
      match InsertPos(coins, c.denom) {
        case Some(p) => InsertAmounts(coins, p, c, denom);
        case None =>
          InsertAmounts(coins, |coins|, c, denom);
          assert coins[..|coins|] + [c] + coins[|coins|..] == coins + [c];
      }
  }

  /** Adding to a normalized list overflows exactly when the denomination's total does. */
  lemma AddCoinSucceeds(coins: seq<Coin>, c: Coin)
    requires Normalized(coins)
    ensures AddCoin(coins, c).Some? <==> AmountOf(coins, c.denom) + c.amount <= MAX_UINT128
  {
    match Find(coins, c.denom)
    case None => AmountOfAbsent(coins, c.denom);
    case Some(i) => AmountOfPresent(coins, i);
  }

  lemma AddCoinNormalized(coins: seq<Coin>, c: Coin)
    requires Normalized(coins) && c.amount > 0 && AddCoin(coins, c).Some?
    ensures Normalized(AddCoin(coins, c).value)
  {
    if Find(coins, c.denom) == None {
      var p := match InsertPos(coins, c.denom) case Some(i) => i case None => |coins|;
      assert AddCoin(coins, c).value == coins[..p] + [c] + coins[p..];
      InsertNormalized(coins, p, c);
    }
  }

  lemma InsertNormalized(coins: seq<Coin>, p: nat, c: Coin)
    requires Normalized(coins) && c.amount > 0 && p <= |coins|
    requires forall i | 0 <= i < p :: Less(coins[i].denom, c.denom)
    requires p < |coins| ==> coins[p].denom != c.denom && !Less(coins[p].denom, c.denom)
    ensures Normalized(coins[..p] + [c] + coins[p..])
  {
    forall i | p <= i < |coins| ensures Less(c.denom, coins[i].denom) {
      LessTotal(c.denom, coins[p].denom);
      if i > p { LessTransitive(c.denom, coins[p].denom, coins[i].denom); }
    }
  }

  lemma {:induction false} AddCoinsAmounts(coins: seq<Coin>, more: seq<Coin>, denom: bytes)
    requires AddCoins(coins, more).Some?
    ensures AmountOf(AddCoins(coins, more).value, denom) == AmountOf(coins, denom) + AmountOf(more, denom)
    decreases |more|
  {
    if more != [] {
      AddCoinAmounts(coins, more[0], denom);
      AddCoinsAmounts(AddCoin(coins, more[0]).value, more[1..], denom);
    }
  }

  /** No denomination's total would overflow. */
  ghost predicate HasRoom(coins: seq<Coin>, more: seq<Coin>) {
    forall d :: AmountOf(coins, d) + AmountOf(more, d) <= MAX_UINT128
  }

  lemma RoomStep(coins: seq<Coin>, sum: seq<Coin>, more: seq<Coin>)
    requires more != [] && AddCoin(coins, more[0]) == Some(sum)
    ensures HasRoom(coins, more) <==> HasRoom(sum, more[1..])
  {
    forall d ensures AmountOf(coins, d) + AmountOf(more, d) == AmountOf(sum, d) + AmountOf(more[1..], d) {
      AddCoinAmounts(coins, more[0], d);
    }
    if HasRoom(coins, more) {
      forall d ensures AmountOf(sum, d) + AmountOf(more[1..], d) <= MAX_UINT128 {
        assert AmountOf(coins, d) + AmountOf(more, d) <= MAX_UINT128;
      }
    }
    if HasRoom(sum, more[1..]) {
      forall d ensures AmountOf(coins, d) + AmountOf(more, d) <= MAX_UINT128 {
        assert AmountOf(sum, d) + AmountOf(more[1..], d) <= MAX_UINT128;
      }
    }
  }

  /** Adding nonzero coins to a normalized balance overflows iff some denomination's
      total does, and keeps the balance normalized. */
  lemma {:induction false} AddCoinsExact(coins: seq<Coin>, more: seq<Coin>)
    requires Normalized(coins) && NonZero(more)
    ensures AddCoins(coins, more).Some? <==> HasRoom(coins, more)
    ensures AddCoins(coins, more).Some? ==> Normalized(AddCoins(coins, more).value)
    decreases |more|
  {
    if more == [] {
      NormalizedFits(coins);
    } else {
      var c := more[0];
      AddCoinSucceeds(coins, c);
      match AddCoin(coins, c)
      case None =>
        assert AmountOf(coins, c.denom) + AmountOf(more, c.denom) > MAX_UINT128;
      case Some(sum) =>
        AddCoinNormalized(coins, c);
        AddCoinsExact(sum, more[1..]);
        RoomStep(coins, sum, more);
    }
  }

  /** The totals of a normalized list are its amounts, and so fit their type. */
  lemma NormalizedFits(coins: seq<Coin>)
    requires Normalized(coins)
    ensures Fits(coins)
  {
    forall d ensures AmountOf(coins, d) <= MAX_UINT128 {
      match Find(coins, d)
      case None => AmountOfAbsent(coins, d);
      case Some(i) => AmountOfPresent(coins, i);
    }
  }

  ghost predicate Fits(coins: seq<Coin>) {
    forall d :: AmountOf(coins, d) <= MAX_UINT128
  }

  lemma SubCoinAmounts(coins: seq<Coin>, c: Coin, denom: bytes)
    requires SubCoin(coins, c).Some?
    ensures AmountOf(SubCoin(coins, c).value, denom) == AmountOf(coins, denom) - if denom == c.denom then c.amount
            else 0
  {
    var i := Find(coins, c.denom).value;
    if coins[i].amount == c.amount {
      AmountOfAt(coins, i, denom);
      AmountOfConcat(coins[..i], coins[i + 1..], denom);
    } else {
      AmountOfUpdate(coins, i, Coin(c.denom, coins[i].amount - c.amount), denom);
    }
  }

  lemma SubCoinNormalized(coins: seq<Coin>, c: Coin)
    requires Normalized(coins) && SubCoin(coins, c).Some?
    ensures Normalized(SubCoin(coins, c).value)
  {
    var i := Find(coins, c.denom).value;
    var rest := SubCoin(coins, c).value;
    if coins[i].amount == c.amount {
      assert forall j | 0 <= j < |rest| :: rest[j] == coins[if j < i then j else j + 1];
    }
  }

  lemma SubCoinSucceeds(coins: seq<Coin>, c: Coin)
    requires Normalized(coins) && c.amount > 0
    ensures SubCoin(coins, c).Some? <==> c.amount <= AmountOf(coins, c.denom)
  {
    match Find(coins, c.denom)
    case None => AmountOfAbsent(coins, c.denom);
    case Some(i) => AmountOfPresent(coins, i);
  }

  /** `less` fits into `coins` in every denomination. */
  ghost predicate Covers(coins: seq<Coin>, less: seq<Coin>) {
    forall d :: AmountOf(less, d) <= AmountOf(coins, d)
  }

  lemma CoversStep(coins: seq<Coin>, rest: seq<Coin>, less: seq<Coin>)
    requires less != [] && SubCoin(coins, less[0]) == Some(rest)
    ensures Covers(coins, less) <==> Covers(rest, less[1..])
  {
    forall d ensures AmountOf(less, d) - AmountOf(coins, d) == AmountOf(less[1..], d) - AmountOf(rest, d) {
      SubCoinAmounts(coins, less[0], d);
    }
    if Covers(coins, less) {
      forall d ensures AmountOf(less[1..], d) <= AmountOf(rest, d) {
        assert AmountOf(less, d) <= AmountOf(coins, d);
      }
    }
    if Covers(rest, less[1..]) {
      forall d ensures AmountOf(less, d) <= AmountOf(coins, d) {
        assert AmountOf(less[1..], d) <= AmountOf(rest, d);
      }
    }
  }

  /** Subtracting nonzero coins from a normalized balance fails iff some
      denomination's total is short, and keeps the balance normalized. */
  lemma {:induction false} SubCoinsExact(coins: seq<Coin>, less: seq<Coin>)
    requires Normalized(coins) && NonZero(less)
    ensures SubCoins(coins, less).Some? <==> Covers(coins, less)
    ensures SubCoins(coins, less).Some? ==> Normalized(SubCoins(coins, less).value)
    decreases |less|
  {
    if less != [] {
      var c := less[0];
      SubCoinSucceeds(coins, c);
      match SubCoin(coins, c)
      case None =>
        assert AmountOf(less, c.denom) > AmountOf(coins, c.denom);
      case Some(rest) =>
        SubCoinNormalized(coins, c);
        SubCoinsExact(rest, less[1..]);
        CoversStep(coins, rest, less);
    }
  }

  /** What is subtracted is exactly what was asked for, in every denomination. */
  lemma {:induction false} SubCoinsAmounts(coins: seq<Coin>, less: seq<Coin>, denom: bytes)
    requires SubCoins(coins, less).Some?
    ensures AmountOf(SubCoins(coins, less).value, denom) == AmountOf(coins, denom) - AmountOf(less, denom)
    decreases |less|
  {
    if less != [] {
      SubCoinAmounts(coins, less[0], denom);
      SubCoinsAmounts(SubCoin(coins, less[0]).value, less[1..], denom);
    }
  }

  // ---------------------------------------------------------------------------
  // Normal form
  // ---------------------------------------------------------------------------

  function DropZeros(coins: seq<Coin>): (r: seq<Coin>)
    ensures NonZero(r)
  {
    if coins == [] then []
    else (if coins[0].amount == 0 then [] else [coins[0]]) + DropZeros(coins[1..])
  }

  lemma {:induction false} DropZerosAmounts(coins: seq<Coin>, denom: bytes)
    ensures AmountOf(DropZeros(coins), denom) == AmountOf(coins, denom)
  {
    if coins != [] {
      DropZerosAmounts(coins[1..], denom);
      AmountOfConcat(if coins[0].amount == 0 then [] else [coins[0]], DropZeros(coins[1..]), denom);
    }
  }

  /** The normal form, built by adding the coins one at a time; `None` when a total overflows. */
  function NormalForm(coins: seq<Coin>): Option<seq<Coin>> {
    AddCoins([], DropZeros(coins))
  }

  lemma NormalFormSpec(coins: seq<Coin>)
    ensures NormalForm(coins).Some? <==> Fits(coins)
    ensures NormalForm(coins).Some? ==>
            Normalized(NormalForm(coins).value)
            && SameAmounts(NormalForm(coins).value, coins)
  {
    var nonzero := DropZeros(coins);
    AddCoinsExact([], nonzero);
    forall d ensures AmountOf([], d) + AmountOf(nonzero, d) == AmountOf(coins, d) {
      DropZerosAmounts(coins, d);
    }
    if HasRoom([], nonzero) {
      forall d ensures AmountOf(coins, d) <= MAX_UINT128 {
        assert AmountOf([], d) + AmountOf(nonzero, d) <= MAX_UINT128;
      }
      forall d ensures AmountOf(NormalForm(coins).value, d) == AmountOf(coins, d) {
        AddCoinsAmounts([], nonzero, d);
      }
    } else {
      var d :| AmountOf([], d) + AmountOf(nonzero, d) > MAX_UINT128;
      assert AmountOf(coins, d) > MAX_UINT128;
    }
  }

  /** Normalizing twice is normalizing once, and a normalized list is its own normal form. */
  lemma NormalFormIdempotent(coins: seq<Coin>)
    ensures NormalForm(coins).Some? ==> NormalForm(NormalForm(coins).value) == NormalForm(coins)
    ensures Normalized(coins) <==> NormalForm(coins) == Some(coins)
  {
    NormalFormSpec(coins);
    if NormalForm(coins).Some? {
      NormalizedIsNormalForm(NormalForm(coins).value);
    }
    if Normalized(coins) {
      NormalizedIsNormalForm(coins);
    }
  }

  lemma NormalizedIsNormalForm(coins: seq<Coin>)
    requires Normalized(coins)
    ensures NormalForm(coins) == Some(coins)
  {
    NormalizedFits(coins);
    NormalFormSpec(coins);
    NormalizedUnique(NormalForm(coins).value, coins);
  }

  // ---------------------------------------------------------------------------
  // The in-place algorithms
  // ---------------------------------------------------------------------------

  function Denom(c: Coin): bytes {
    c.denom
  }

  /** The remaining duplicates are exactly the positions that repeat their predecessor's denomination. */
  ghost predicate DuplicatesAre(coins: seq<Coin>, dups: seq<nat>) {
    && (forall i, j | 0 <= i < j < |dups| :: dups[i] < dups[j])
    && (forall i | 0 <= i < |dups| :: 0 < dups[i] < |coins|)
    && (forall i | 0 < i < |coins| :: if i in dups then coins[i - 1].denom == coins[i].denom
                                      else Less(coins[i - 1].denom, coins[i].denom))
  }

  lemma StrictlySorted(coins: seq<Coin>)
    requires NonZero(coins) && DuplicatesAre(coins, [])
    ensures Normalized(coins)
  {
    forall i, j | 0 <= i < j < |coins| ensures Less(coins[i].denom, coins[j].denom) {
      StrictlySortedAt(coins, i, j);
    }
  }

  lemma {:induction false} StrictlySortedAt(coins: seq<Coin>, i: nat, j: nat)
    requires DuplicatesAre(coins, []) && i < j < |coins|
    ensures Less(coins[i].denom, coins[j].denom)
    decreases j
  {
    if i < j - 1 {
      StrictlySortedAt(coins, i, j - 1);
      LessTransitive(coins[i].denom, coins[j - 1].denom, coins[j].denom);
    }
  }

  /** Folds the last duplicate into its predecessor. */
  function MergeAt(coins: seq<Coin>, dup: nat): seq<Coin>
    requires 0 < dup < |coins| && coins[dup - 1].amount + coins[dup].amount <= MAX_UINT128
  {
    var merged := coins[dup - 1 := Coin(coins[dup - 1].denom, coins[dup - 1].amount + coins[dup].amount)];
    merged[..dup] + merged[dup + 1..]
  }

  lemma MergeAtAmounts(coins: seq<Coin>, dup: nat, denom: bytes)
    requires 0 < dup < |coins| && coins[dup - 1].denom == coins[dup].denom
    requires coins[dup - 1].amount + coins[dup].amount <= MAX_UINT128
    ensures AmountOf(MergeAt(coins, dup), denom) == AmountOf(coins, denom)
  {
    var merged := coins[dup - 1 := Coin(coins[dup - 1].denom, coins[dup - 1].amount + coins[dup].amount)];
    AmountOfUpdate(coins, dup - 1, merged[dup - 1], denom);
    AmountOfAt(merged, dup, denom);
    AmountOfConcat(merged[..dup], merged[dup + 1..], denom);
  }

  lemma MergeAtSameAmounts(coins: seq<Coin>, dup: nat, original: seq<Coin>)
    requires 0 < dup < |coins| && coins[dup - 1].denom == coins[dup].denom && SameAmounts(coins, original)
    requires coins[dup - 1].amount + coins[dup].amount <= MAX_UINT128
    ensures SameAmounts(MergeAt(coins, dup), original)
  {
    forall d ensures AmountOf(MergeAt(coins, dup), d) == AmountOf(original, d) {
      MergeAtAmounts(coins, dup, d);
      assert AmountOf(coins, d) == AmountOf(original, d);
    }
  }

  lemma SortKeepsNonZero(sorted: seq<Coin>, coins: seq<Coin>)
    requires NonZero(coins) && multiset(sorted) == multiset(coins)
    ensures NonZero(sorted)
  {
    forall i | 0 <= i < |sorted| ensures sorted[i].amount > 0 { assert sorted[i] in multiset(coins); }
  }

  lemma MergeAtDuplicates(coins: seq<Coin>, dups: seq<nat>)
    requires NonZero(coins) && DuplicatesAre(coins, dups) && dups != []
    requires var dup := dups[|dups| - 1]; coins[dup - 1].amount + coins[dup].amount <= MAX_UINT128
    ensures var dup := dups[|dups| - 1];
            NonZero(MergeAt(coins, dup))
            && DuplicatesAre(MergeAt(coins, dup), dups[..|dups| - 1])
  {
    var dup, rest := dups[|dups| - 1], dups[..|dups| - 1];
    var next := MergeAt(coins, dup);
    assert dups == rest + [dup];
    forall i | 0 < i < |next|
      ensures if i in rest then next[i - 1].denom == next[i].denom else Less(next[i - 1].denom, next[i].denom)
    {
      if i < dup {
        assert i in rest <==> i in dups;
      } else {
        assert i !in rest && i + 1 !in dups;
        assert next[i] == coins[i + 1];
      }
    }
  }

  class NativeBalance {
    var coins: seq<Coin>

    constructor (coins: seq<Coin>)
      ensures this.coins == coins
    {
      this.coins := coins;
    }

    /** Drops zeros, sorts, and merges runs of equal denominations back to front. Fails, by
        panicking, iff some denomination's total overflows. */
    method Normalize() returns (ok: bool)
      modifies this
      ensures ok <==> NormalForm(old(coins)).Some?
      ensures ok ==> Some(coins) == NormalForm(old(coins))
      ensures ok ==> Normalized(coins) && SameAmounts(coins, old(coins))
    {
      coins := DropZeros(coins);
      ghost var nonzero := coins;
      coins := Sort(coins, Denom);
      SortKeepsNonZero(coins, nonzero);
      ghost var sorted := coins;
      forall d ensures AmountOf(sorted, d) == AmountOf(old(coins), d) {
        AmountOfPermutation(sorted, nonzero, d);
        DropZerosAmounts(old(coins), d);
      }
      var dups := FindDuplicates();
      ok := MergeDuplicates(dups);
      NormalFormSpec(old(coins));
      if ok {
        forall d ensures AmountOf(coins, d) == AmountOf(old(coins), d) {
          assert AmountOf(coins, d) == AmountOf(sorted, d);
        }
        NormalizedFits(coins);
        forall d ensures AmountOf(old(coins), d) <= MAX_UINT128 {
          assert AmountOf(coins, d) <= MAX_UINT128;
        }
        NormalizedUnique(coins, NormalForm(old(coins)).value);
      } else {
        ghost var d :| AmountOf(sorted, d) > MAX_UINT128;
        assert AmountOf(old(coins), d) > MAX_UINT128;
      }
    }

    /** Goes through the duplicates in reverse order, so that the positions still to come do not shift. */
    method MergeDuplicates(all: seq<nat>) returns (ok: bool)
      requires NonZero(coins) && DuplicatesAre(coins, all)
      modifies this
      ensures ok ==> Normalized(coins) && SameAmounts(coins, old(coins))
      ensures !ok ==> !Fits(old(coins))
    {
      var dups := all;
      while dups != []
        invariant NonZero(coins) && DuplicatesAre(coins, dups)
        invariant SameAmounts(coins, old(coins))
        decreases |dups|
      {
        var dup := dups[|dups| - 1];
        assert dup in dups;
        var add := coins[dup].amount;
        if coins[dup - 1].amount + add > MAX_UINT128 {
          AmountOfAt(coins, dup, coins[dup].denom);
          AmountOfAt(coins[..dup], dup - 1, coins[dup].denom);
          assert AmountOf(old(coins), coins[dup].denom) > MAX_UINT128;
          return false;
        }
        MergeAtDuplicates(coins, dups);
        MergeAtSameAmounts(coins, dup, old(coins));
        ghost var merged := MergeAt(coins, dup);
        coins := coins[dup - 1 := Coin(coins[dup - 1].denom, coins[dup - 1].amount + add)];
        coins := coins[..dup] + coins[dup + 1..];
        assert coins == merged;
        dups := dups[..|dups| - 1];
      }
      StrictlySorted(coins);
      ok := true;
    }

    method FindDuplicates() returns (dups: seq<nat>)
      requires SortedBy(coins, Denom)
      ensures DuplicatesAre(coins, dups)
    {
      dups := [];
      for i := 0 to |coins|
        invariant forall a, b | 0 <= a < b < |dups| :: dups[a] < dups[b]
        invariant forall a | 0 <= a < |dups| :: 0 < dups[a] < i
        invariant forall j | 0 < j < i :: if j in dups then coins[j - 1].denom == coins[j].denom
                                          else Less(coins[j - 1].denom, coins[j].denom)
      {
        if i != 0 {
          assert !Less(Denom(coins[i]), Denom(coins[i - 1]));
          LessTotal(coins[i - 1].denom, coins[i].denom);
          if coins[i].denom == coins[i - 1].denom {
            dups := dups + [i];
          }
        }
      }
    }

    method AddAssign(c: Coin) returns (ok: bool)
      modifies this
      ensures ok <==> AddCoin(old(coins), c).Some?
      ensures coins == if ok then AddCoin(old(coins), c).value else old(coins)
    {
      ok := true;
      match Find(coins, c.denom)
      case Some(i) =>
        ok := coins[i].amount + c.amount <= MAX_UINT128;
        if ok {
          coins := coins[i := Coin(c.denom, coins[i].amount + c.amount)];
        }
      case None =>
        match InsertPos(coins, c.denom) {
          case Some(i) => coins := coins[..i] + [c] + coins[i..];
          case None => coins := coins + [c];
        }
    }

    method AddAssignAll(more: seq<Coin>) returns (ok: bool)
      modifies this
      ensures ok <==> AddCoins(old(coins), more).Some?
      ensures ok ==> coins == AddCoins(old(coins), more).value
    {
      for n := 0 to |more|
        invariant AddCoins(coins, more[n..]) == AddCoins(old(coins), more)
      {
        assert more[n..][1..] == more[n + 1..];
        ok := AddAssign(more[n]);
        if !ok {
          return;
        }
      }
      ok := true;
    }

    method Sub(c: Coin) returns (ok: bool)
      modifies this
      ensures ok <==> SubCoin(old(coins), c).Some?
      ensures coins == if ok then SubCoin(old(coins), c).value else old(coins)
    {
      match Find(coins, c.denom)
      case None => ok := false;
      case Some(i) =>
        ok := coins[i].amount >= c.amount;
        if ok {
          var remainder := coins[i].amount - c.amount;
          coins := if remainder == 0 then coins[..i] + coins[i + 1..] else coins[i := Coin(c.denom, remainder)];
        }
    }

    method SubAll(less: seq<Coin>) returns (ok: bool)
      modifies this
      ensures ok <==> SubCoins(old(coins), less).Some?
      ensures ok ==> coins == SubCoins(old(coins), less).value
    {
      for n := 0 to |less|
        invariant SubCoins(coins, less[n..]) == SubCoins(old(coins), less)
      {
        assert less[n..][1..] == less[n + 1..];
        ok := Sub(less[n]);
        if !ok {
          return;
        }
      }
      ok := true;
    }
  }
}
