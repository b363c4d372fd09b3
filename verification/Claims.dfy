// Claims: tokens waiting to be released to an address, released greedily up to a cap.
module Claims {
  import opened Bytes
  import opened Expirations
  import opened Ints

  type Addr = bytes

  datatype Claim = Claim(amount: nat, releaseAt: Expiration)

  function Sum(claims: seq<Claim>): nat {
    if claims == [] then 0 else claims[0].amount + Sum(claims[1..])
  }

  lemma {:induction false} SumSnoc(claims: seq<Claim>, c: Claim)
    ensures Sum(claims + [c]) == Sum(claims) + c.amount
  {
    if claims != [] {
      assert (claims + [c])[1..] == claims[1..] + [c];
      SumSnoc(claims[1..], c);
    }
  }

  /** `part` is `whole` with some elements left out. */
  ghost predicate Subsequence(part: seq<Claim>, whole: seq<Claim>) {
    if part == [] then true
    else if whole == [] then false
    else if part[|part| - 1] == whole[|whole| - 1] then Subsequence(part[..|part| - 1], whole[..|whole| - 1])
    else Subsequence(part, whole[..|whole| - 1])
  }

  lemma {:induction false} SubsequenceSkip(part: seq<Claim>, whole: seq<Claim>, c: Claim)
    requires Subsequence(part, whole)
    ensures Subsequence(part, whole + [c])
    decreases |whole|, 1
  {
    assert (whole + [c])[..|whole|] == whole;
    if part != [] && part[|part| - 1] == c {
      DropLast(part, whole);
    }
  }

  lemma {:induction false} DropLast(part: seq<Claim>, whole: seq<Claim>)
    requires part != [] && Subsequence(part, whole)
    ensures Subsequence(part[..|part| - 1], whole)
    decreases |whole|, 0
  {
    var w := whole[..|whole| - 1];
    assert whole == w + [whole[|whole| - 1]];
    if part[|part| - 1] == whole[|whole| - 1] {
      SubsequenceSkip(part[..|part| - 1], w, whole[|whole| - 1]);
    } else {
      DropLast(part, w);
      SubsequenceSkip(part[..|part| - 1], w, whole[|whole| - 1]);
    }
  }

  lemma SubsequenceTake(part: seq<Claim>, whole: seq<Claim>, c: Claim)
    requires Subsequence(part, whole)
    ensures Subsequence(part + [c], whole + [c])
  {
    assert (part + [c])[..|part|] == part && (whole + [c])[..|whole|] == whole;
  }

  /** Whether a claim is mature and still fits under the cap. */
  predicate Pays(c: Claim, block: Block, cap: Option<nat>, sent: nat) {
    c.releaseAt.IsExpired(block) && (cap.Some? ==> sent + c.amount <= cap.value)
  }

  datatype Split = Split(released: seq<Claim>, waiting: seq<Claim>)

  /** The greedy partition, front to back. */
  function Partition(claims: seq<Claim>, block: Block, cap: Option<nat>): Split {
    if claims == [] then Split([], [])
    else
      var c, front := claims[|claims| - 1], Partition(claims[..|claims| - 1], block, cap);
      if Pays(c, block, cap, Sum(front.released)) then Split(front.released + [c], front.waiting)
      else Split(front.released, front.waiting + [c])
  }

  lemma {:induction false} PartitionSums(claims: seq<Claim>, block: Block, cap: Option<nat>)
    ensures var p := Partition(claims, block, cap); Sum(p.released) + Sum(p.waiting) == Sum(claims)
  {
    if claims != [] {
      var n := |claims| - 1;
      var front := Partition(claims[..n], block, cap);
      PartitionSums(claims[..n], block, cap);
      assert claims == claims[..n] + [claims[n]];
      SumSnoc(claims[..n], claims[n]);
      SumSnoc(front.released, claims[n]);
      SumSnoc(front.waiting, claims[n]);
    }
  }

  ghost predicate InOrder(p: Split, claims: seq<Claim>) {
    Subsequence(p.released, claims) && Subsequence(p.waiting, claims)
  }

  lemma InOrderStep(front: Split, claims: seq<Claim>, c: Claim)
    requires InOrder(front, claims)
    ensures InOrder(Split(front.released + [c], front.waiting), claims + [c])
    ensures InOrder(Split(front.released, front.waiting + [c]), claims + [c])
  {
    SubsequenceTake(front.released, claims, c);
    SubsequenceSkip(front.waiting, claims, c);
    SubsequenceTake(front.waiting, claims, c);
    SubsequenceSkip(front.released, claims, c);
  }

  lemma {:induction false} PartitionKeepsOrder(claims: seq<Claim>, block: Block, cap: Option<nat>)
    ensures InOrder(Partition(claims, block, cap), claims)
  {
    if claims != [] {
      var n := |claims| - 1;
      PartitionKeepsOrder(claims[..n], block, cap);
      InOrderStep(Partition(claims[..n], block, cap), claims[..n], claims[n]);
      assert claims == claims[..n] + [claims[n]];
    }
  }

  /** How often a claim occurs. */
  function Times(claims: seq<Claim>, c: Claim): nat {
    if claims == [] then 0
    else Times(claims[..|claims| - 1], c) + if claims[|claims| - 1] == c then 1 else 0
  }

  lemma TimesSnoc(claims: seq<Claim>, last: Claim, c: Claim)
    ensures Times(claims + [last], c) == Times(claims, c) + if last == c then 1 else 0
  {
    assert (claims + [last])[..|claims|] == claims;
  }

  /** Every claim occurs on the one side or the other, as often as it did. */
  lemma {:induction false} PartitionSplits(claims: seq<Claim>, block: Block, cap: Option<nat>, c: Claim)
    ensures var p := Partition(claims, block, cap); Times(p.released, c) + Times(p.waiting, c) == Times(claims, c)
  {
    if claims != [] {
      var n := |claims| - 1;
      var front := Partition(claims[..n], block, cap);
      PartitionSplits(claims[..n], block, cap, c);
      TimesSnoc(front.released, claims[n], c);
      TimesSnoc(front.waiting, claims[n], c);
    }
  }

  /** A release loses, invents and reorders nothing: claims are either released or
      still waiting, in their old order. */
  lemma PartitionConserves(claims: seq<Claim>, block: Block, cap: Option<nat>)
    ensures var p := Partition(claims, block, cap);
            && (forall c :: Times(p.released, c) + Times(p.waiting, c) == Times(claims, c))
            && Subsequence(p.released, claims) && Subsequence(p.waiting, claims)
            && Sum(p.released) + Sum(p.waiting) == Sum(claims)
  {
    forall c ensures var p := Partition(claims, block, cap);
                     Times(p.released, c) + Times(p.waiting, c) == Times(claims, c) {
      PartitionSplits(claims, block, cap, c);
    }
    PartitionKeepsOrder(claims, block, cap);
    PartitionSums(claims, block, cap);
  }

  /** Only mature claims are released, within the cap; and every mature claim left
      behind would push the released total over the cap. */
  ghost predicate Maximal(p: Split, block: Block, cap: Option<nat>) {
    && (forall i | 0 <= i < |p.released| :: p.released[i].releaseAt.IsExpired(block))
    && (cap.Some? ==> Sum(p.released) <= cap.value)
    && (forall i | 0 <= i < |p.waiting| :: p.waiting[i].releaseAt.IsExpired(block) ==>
          cap.Some? && Sum(p.released) + p.waiting[i].amount > cap.value)
  }

  lemma MaximalStep(front: Split, c: Claim, block: Block, cap: Option<nat>)
    requires Maximal(front, block, cap)
    ensures Maximal(if Pays(c, block, cap, Sum(front.released)) then Split(front.released + [c], front.waiting)
                    else Split(front.released, front.waiting + [c]), block, cap)
  {
    SumSnoc(front.released, c);
  }

  lemma {:induction false} PartitionMaximal(claims: seq<Claim>, block: Block, cap: Option<nat>)
    ensures Maximal(Partition(claims, block, cap), block, cap)
  {
    if claims != [] {
      var n := |claims| - 1;
      PartitionMaximal(claims[..n], block, cap);
      MaximalStep(Partition(claims[..n], block, cap), claims[n], block, cap);
    }
  }

  /** Adding up what is released overflows; only then does a release abort. */
  predicate Overflows(claims: seq<Claim>, block: Block, cap: Option<nat>) {
    if claims == [] then false
    else
      var c, front := claims[|claims| - 1], claims[..|claims| - 1];
      Overflows(front, block, cap)
      || (c.releaseAt.IsExpired(block) && Sum(Partition(front, block, cap).released) + c.amount > MAX_UINT128)
  }

  lemma {:induction false} NoOverflowBelowTotal(claims: seq<Claim>, block: Block, cap: Option<nat>)
    requires Sum(claims) <= MAX_UINT128
    ensures !Overflows(claims, block, cap)
  {
    if claims != [] {
      var n := |claims| - 1;
      SumSnoc(claims[..n], claims[n]);
      assert claims == claims[..n] + [claims[n]];
      PartitionConserves(claims[..n], block, cap);
      NoOverflowBelowTotal(claims[..n], block, cap);
    }
  }

  // ---------------------------------------------------------------------------
  // Over a run
  // ---------------------------------------------------------------------------

  type Ledger = map<Addr, seq<Claim>>

  function Waiting(m: Ledger, a: Addr): seq<Claim> {
    if a in m then m[a] else []
  }

  datatype Event =
    | Create(addr: Addr, amount: nat, releaseAt: Expiration)
    | Release(addr: Addr, block: Block, cap: Option<nat>)

  /** A release that would overflow aborts and changes nothing. */
  function Step(m: Ledger, e: Event): Ledger {
    match e
    case Create(a, amount, releaseAt) => m[a := Waiting(m, a) + [Claim(amount, releaseAt)]]
    case Release(a, block, cap) =>
      if Overflows(Waiting(m, a), block, cap) then m else m[a := Partition(Waiting(m, a), block, cap).waiting]
  }

  function Run(run: seq<Event>): Ledger {
    if run == [] then map[] else Step(Run(run[..|run| - 1]), run[|run| - 1])
  }

  function CreatedBy(e: Event, a: Addr): seq<Claim> {
    if e.Create? && e.addr == a then [Claim(e.amount, e.releaseAt)] else []
  }

  function ReleasedBy(m: Ledger, e: Event, a: Addr): seq<Claim> {
    if e.Release? && e.addr == a && !Overflows(Waiting(m, a), e.block, e.cap)
    then Partition(Waiting(m, a), e.block, e.cap).released else []
  }

  /** How often a claim was created for an address. */
  function Created(run: seq<Event>, a: Addr, c: Claim): nat {
    if run == [] then 0 else Created(run[..|run| - 1], a, c) + Times(CreatedBy(run[|run| - 1], a), c)
  }

  /** How often a claim was released to it. */
  function Released(run: seq<Event>, a: Addr, c: Claim): nat {
    if run == [] then 0
    else Released(run[..|run| - 1], a, c) + Times(ReleasedBy(Run(run[..|run| - 1]), run[|run| - 1], a), c)
  }

  lemma StepConserves(m: Ledger, e: Event, a: Addr, c: Claim)
    ensures Times(CreatedBy(e, a), c) + Times(Waiting(m, a), c)
            == Times(ReleasedBy(m, e, a), c) + Times(Waiting(Step(m, e), a), c)
  {
    match e
    case Create(_, amount, releaseAt) =>
      TimesSnoc([], Claim(amount, releaseAt), c);
      assert [] + [Claim(amount, releaseAt)] == [Claim(amount, releaseAt)];
      TimesSnoc(Waiting(m, a), Claim(amount, releaseAt), c);
    case Release(_, block, cap) =>
      PartitionSplits(Waiting(m, a), block, cap, c);
  }

  /** Every claim ever created for an address was released exactly once or still waits. */
  lemma {:induction false} NoClaimLostOrPaidTwice(run: seq<Event>, a: Addr, c: Claim)
    ensures Created(run, a, c) == Released(run, a, c) + Times(Waiting(Run(run), a), c)
  {
    if run != [] {
      NoClaimLostOrPaidTwice(run[..|run| - 1], a, c);
      StepConserves(Run(run[..|run| - 1]), run[|run| - 1], a, c);
    }
  }

  // ---------------------------------------------------------------------------
  // The controller
  // ---------------------------------------------------------------------------

  class ClaimsController {
    var claims: Ledger

    constructor ()
      ensures claims == map[]
    {
      claims := map[];
    }

    method CreateClaim(addr: Addr, amount: nat, releaseAt: Expiration)
      modifies this
      ensures claims == Step(old(claims), Create(addr, amount, releaseAt))
    {
      var mine := if addr in claims then claims[addr] else [];
      claims := claims[addr := mine + [Claim(amount, releaseAt)]];
    }

    /** Returns the total released, or nothing when the addition overflowed. */
    method ClaimTokens(addr: Addr, block: Block, cap: Option<nat>) returns (sent: Option<nat>)
      modifies this
      ensures claims == Step(old(claims), Release(addr, block, cap))
      ensures sent == if Overflows(Waiting(old(claims), addr), block, cap) then None
                      else Some(Sum(Partition(Waiting(old(claims), addr), block, cap).released))
    {
      var mine := if addr in claims then claims[addr] else [];
      var toSend, released, waiting := 0, [], [];
      for i := 0 to |mine|
        invariant claims == old(claims)
        invariant Split(released, waiting) == Partition(mine[..i], block, cap)
        invariant toSend == Sum(released) && !Overflows(mine[..i], block, cap)
      {
        var c := mine[i];
        assert mine[..i + 1][..i] == mine[..i];
        // only whole claims are released
        if c.releaseAt.IsExpired(block) {
          if toSend + c.amount > MAX_UINT128 {
            OverflowsLater(mine, i + 1, block, cap);
            return None;
          }
          if cap.Some? && toSend + c.amount > cap.value {
            waiting := waiting + [c];
          } else {
            SumSnoc(released, c);
            toSend, released := toSend + c.amount, released + [c];
          }
        } else {
          // too early
          waiting := waiting + [c];
        }
      }
      assert mine[..|mine|] == mine;
      claims := claims[addr := waiting];
      sent := Some(toSend);
    }
  }

  lemma {:induction false} OverflowsLater(claims: seq<Claim>, n: nat, block: Block, cap: Option<nat>)
    requires n <= |claims| && Overflows(claims[..n], block, cap)
    ensures Overflows(claims, block, cap)
    decreases |claims| - n
  {
    if n == |claims| {
      assert claims[..n] == claims;
    } else {
      assert claims[..n + 1][..n] == claims[..n];
      OverflowsLater(claims, n + 1, block, cap);
    }
  }
}
