# A verified model of the autocompounder's test chain, storage keys and token

This project models the stateful parts of the repository under
`contracts/cw-autocompounder` and proves what they promise, over every input and every
run. Whatever the source updates in place (overlays, iterators, ledgers, the deque, the
keepers, the CW20 contract) is a class here, and each of its methods is proved equal to
a function on the abstract state. The promises are lemmas about those functions: over
single steps first, then over all runs. What a step comes to is stated a second time, in full and
without the functions that compute it, in `WasmEffects`, `StakingEffects` and `Cw20Effects`.

| area | files | what it models |
|---|---|---|
| bytes and listings | `Bytes`, `Ints`, `Listings` | the lexicographic order, and what a range query over a sorted map must list |
| transactions | `Overlay`, `Transactions` | the write overlay with delta map and replay log, stacked to any depth; the lazy merge of an overlay with the storage under it |
| execution | `Wasm`, `WasmEffects`, `Emitters` | messages, submessages and replies over nested overlays, against a semantics that snapshots and restores a plain map; what each of them comes to, case by case; which contract an event names |
| money | `Sums`, `Sorting`, `Balances`, `Bank` | coin lists, normal form, exact addition and subtraction, transfers that conserve supply |
| staking | `Decimals`, `Outcomes`, `Staking`, `Interest`, `Payouts`, `StakingInvariants`, `StakingOverflows`, `Slashing`, `Solvency`, `Rewards`, `StakingEffects`, `StakingExamples`, `StakeKeeper` | delegation, lazy rewards, slashing and unbonding as a state machine; its invariants over every run; exactly which messages abort, which go through, and what they change; the keeper that implements it in place |
| keys | `IntKeys`, `Keys`, `Prefixes`, `PrefixRanges`, `Maps` | integer keys, length-prefixed keys, range bounds over keys and over whole prefixes, clearing a map in batches |
| deque | `Deques` | a ring buffer over wrapping 32-bit positions in a storage, refining a sequence |
| token | `Expirations`, `Cw20`, `Cw20Runs`, `Cw20Effects`, `Cw20Contract` | the CW20 ledger with supply, cap and two mirrored allowance maps |
| claims | `Claims` | greedy release of mature claims up to a cap |

`dafny verify dfyconfig.toml` checks everything.

## How to read it

- A message that fails and one that panics are both atomic: the enclosing transaction is
  dropped. State machines therefore have an outcome `Ok`, `Error` or `Panic`, a step keeps
  the state unless the outcome is `Ok`, and a keeper method that returns anything but
  `Done` says nothing about the half-written state it leaves.
- A contract is a finite run-tree of handler code: writes and branches that depend on what
  the handler can see, ending in a response with further submessages or in a failure. The
  reference semantics (`MsgRun`, `SubRun`, `EntryRun`, `ProcessRun`) works on plain maps
  and never mentions an overlay; every run also yields the log of the writes that survived.
- A `Decimal` counts units of 10^-18 in 128 bits; products and quotients round down as in the source.
  Arithmetic that leaves its range panics wherever it does in the source: in coin lists, balances,
  stakes, rewards, payout times, the token and claims.
- Times are nanoseconds since the epoch.
- A run is a sequence of messages with the block each runs in. Genesis has no stake, no
  validators and any balances.
- Handlers without a loop are methods too, each proved equal to its state function. The table
  lists the `Execute` that dispatches to them, and the lemmas about those functions.

## Findings

- **Rewards query.** In a sound state the query answers what a withdrawal in the same block brings
  exactly when the validator has stake and neither the interest nor the delegator's share of it
  overflows (`Rewards.QueryAgreesWithWithdrawal`). Without slashes there always is stake
  (`Rewards.SlashFreeRewards`). After a slash there may be none: add a validator, delegate 2,
  slash 25%, undelegate 1, and the query divides by zero
  (`StakingExamples.QueryPanicsAfterSlash`). A withdrawal that would bring less than one whole
  coin fails, since nothing can be minted (`Rewards.WithdrawMints`).
- **Overflow.** Over every run a message panics if and only if it overflows, by a condition on the
  state it arrives in (`StakingOverflows.OnlyOverflowsPanic`). The bounds are closer than 128 bits
  suggest. Delegating 10^21 aborts at once (`StakingExamples.LargeStakeAborts`). Two delegations of
  2 * 10^20 to one validator go through, and in every later block each delegation to it, undelegation,
  withdrawal and slash aborts (`StakingExamples.LargeStakesAbort`). So does the interest on
  2 * 10^14 at 10% after a year without an update (`Interest.YearOverflows`).
- **Back-dated interest.** Rewards are to be brought up to date before anything changes that influences
  them (`packages/multi-test/src/staking.rs:247`). The last calculation only moves on when it found
  something, though, so what is delegated after a time without rewards earns interest for that time,
  if and only if the condition of `StakingEffects.DelegationEarnsBackwardsIff` holds. The first
  hundred coins, delegated a year after their validator was added, have ten due at once
  (`StakingEffects.FirstDelegationIsBackdated`).
- **Forfeited rewards.** A delegator that undelegates its whole stake loses its accrued rewards
  (`StakingEffects.UndelegatingAllForfeits`), and so does one that redelegates it, even to the
  validator it was with (`StakingEffects.RedelegateToSourceEffect`).
- **Payouts.** No payout from the unbonding queue ever lacks the funds, but one can overflow its
  recipient's balance, which then stops the queue; that takes a supply beyond 128 bits
  (`Solvency.PayoutsNeverFail`).
- **Deque capacity.** The comment on `Deque` (`packages/storage-plus/src/deque.rs:15-16`)
  gives a capacity of `u32::MAX - 1`. The code holds `u32::MAX` elements; the push after
  that makes the deque report itself empty. The model follows the code.
- **`nth` on the deque's iterators.** The argument, a `usize`, is cut to 32 bits, so `nth(n)` is
  `n + 1` calls of `next` if and only if `n` fits, or the truncated `n` is past the end
  (`Deques.NthIsNextTimes`). On a 64-bit machine `nth(2^32)` of one element returns it
  (`Deques.NthWrapsAround`).
- **Ranges without an upper limit.** Between a prefix and its increment lie the keys with that
  prefix and possibly a few strays: shorter keys that are the carry of the increment with
  nothing after it (`Prefixes.IntervalExact`). A range is exact if and only if no stored key is
  such a stray; under a namespace of 0xFF bytes alone, where the increment wraps around, if and
  only if nothing is to be listed (`Prefixes.RangeWithPrefixExact`). No key can stray if and only
  if the prefix is nonempty and does not end in 0xFF (`Prefixes.ExactUnlessEndingInFF`), as holds
  of every map's.
- **Ranges over prefixes.** A range bounded by prefixes of whole segments is exact for a store if
  and only if none of the map's keys is misplaced by an incremented bound
  (`PrefixRanges.PrefixRangeExact`); no key of any length can be if and only if the last segment
  of that bound is not 65535 bytes of 0xFF (`PrefixRanges.IncrementExactIff`).
- **Rejected responses.** An entry point that errs leaves writes in the storage it was given if and
  only if its handler succeeded, wrote something, and only the response was refused
  (`Wasm.ErrorLeavesWritesIff`; one write and an attribute without a name will do,
  `Wasm.RejectedYetWritten`). Only the transaction around the message removes them.

## Model

| member | source | states |
|---|---|---|
| `Bytes.ZeroByteSuccessor` | contracts/cw-autocompounder/packages/storage-plus/src/prefix.rs:273-277 | `limit ++ [0]` is the immediate successor of `limit`: above `limit` is the same as not below `limit ++ [0]` |
| `Listings.ListsUnique` | contracts/cw-autocompounder/packages/multi-test/src/transactions.rs:85-112 | order, range and map determine a range listing, so a listing that is ordered, sound and complete is the listing |
| `Overlay.MergeLists` | contracts/cw-autocompounder/packages/multi-test/src/transactions.rs:234-258 | merging a listing of local changes with a listing of the storage below lists exactly the overlaid map: local wins on equal keys, deletions hide, in both orders |
| `Overlay.MergeIsListing` | contracts/cw-autocompounder/packages/multi-test/src/transactions.rs:85-112 | the merge of the two range listings is the range listing of the overlaid map, for any bounds |
| `Overlay.MergeOverlay.Next` | contracts/cw-autocompounder/packages/multi-test/src/transactions.rs:241-258 | yields the head of the merged listing, leaves its tail, and terminates although runs of deletions are skipped by recursion |
| `Overlay.MergeOverlay.PickMatch` | contracts/cw-autocompounder/packages/multi-test/src/transactions.rs:204-221 | of the two heads the right one is taken, and the record below is dropped when the local side shadows it |
| `Overlay.MergeOverlay.TakeLeft` | contracts/cw-autocompounder/packages/multi-test/src/transactions.rs:224-230 | a local value is yielded, a deletion falls through to the next record |
| `Overlay.RecordIter.Collect` | contracts/cw-autocompounder/packages/multi-test/src/transactions.rs:234-258 | draining an iterator, at any nesting depth, yields the records it stands for, in order |
| `Transactions.LastWriteStep` | contracts/cw-autocompounder/packages/multi-test/src/transactions.rs:67-80 | a write keeps the delta map equal to the newest change per key of the replay log |
| `Transactions.ReplayAt` | contracts/cw-autocompounder/packages/multi-test/src/transactions.rs:131-168 | replaying a log gives each key its newest change and leaves other keys alone |
| `Transactions.ReplayIsOverlay` | contracts/cw-autocompounder/packages/multi-test/src/transactions.rs:57-80 | replaying the log onto the base yields exactly what readers of the transaction saw |
| `Transactions.ReplayConcat` | contracts/cw-autocompounder/packages/multi-test/src/transactions.rs:131-135 | committing an inner transaction and then the outer one is replaying the concatenated logs |
| `Transactions.Storage.Get` | contracts/cw-autocompounder/packages/multi-test/src/transactions.rs:57-65 | a read sees the overlaid map, at any depth: local value, local deletion, or whatever is below |
| `Transactions.Storage.SetKey` | contracts/cw-autocompounder/packages/multi-test/src/transactions.rs:67-74 | changes exactly one key of what readers see, appends one operation to the log, and leaves the storage below untouched |
| `Transactions.Storage.RemoveKey` | contracts/cw-autocompounder/packages/multi-test/src/transactions.rs:76-80 | removes exactly one key of what readers see, appends one operation to the log, and leaves the storage below untouched |
| `Transactions.Storage.Range` | contracts/cw-autocompounder/packages/multi-test/src/transactions.rs:85-112 | the iterator of a transaction at any depth yields the sorted listing of the overlaid map within [start, end), in either order |
| `Transactions.InvertedRangeIsEmpty` | contracts/cw-autocompounder/packages/multi-test/src/transactions.rs:95-99 | for start > end the empty left side is what the listing would be, without the panic of `BTreeMap::range` |
| `Transactions.Commit` | contracts/cw-autocompounder/packages/multi-test/src/transactions.rs:131-135 | flushing a log leaves the target at the replay of that log, and appends it to the target's own log when that is a transaction |
| `Transactions.Settle` | contracts/cw-autocompounder/packages/multi-test/src/transactions.rs:22-30 | after success the base shows what the cache showed; after an error base and log are as before |
| `Wasm.MsgReplayed` | contracts/cw-autocompounder/packages/multi-test/src/wasm.rs:359-514 | however deeply messages and replies nest, the final store is the replay, on the initial store, of the writes that survived, in program order |
| `Wasm.SubReplayed` | contracts/cw-autocompounder/packages/multi-test/src/wasm.rs:525-578 | the same for a submessage with its reply: a failed message contributes no write |
| `Wasm.EntryReplayed` | contracts/cw-autocompounder/packages/multi-test/src/wasm.rs:580-601 | the same for an entry point and everything its response sets off |
| `Wasm.MultiReplayed` | contracts/cw-autocompounder/packages/multi-test/src/app.rs:614-635 | the same for a list of messages from one sender |
| `Wasm.ProcessCollects` | contracts/cw-autocompounder/packages/multi-test/src/wasm.rs:649-670 | processing a response runs each submessage on its predecessors' store, stops at the first error, concatenates events in order, and the last submessage with data overrides the contract's data |
| `Wasm.CallContract` | contracts/cw-autocompounder/packages/multi-test/src/wasm.rs:836-871 | an unknown contract or code is an error; the handler runs in a transaction with queries answered from before it; a bad response is an error after the commit |
| `Wasm.CallAndProcess` | contracts/cw-autocompounder/packages/multi-test/src/wasm.rs:605-670 | entry point, app response and submessages on nested overlays agree with the snapshot semantics in result, store and surviving writes |
| `Wasm.ProcessResponse` | contracts/cw-autocompounder/packages/multi-test/src/wasm.rs:649-670 | the loop over submessages agrees with the snapshot semantics in result, store and surviving writes |
| `Wasm.ExecuteSubMsg` | contracts/cw-autocompounder/packages/multi-test/src/wasm.rs:525-578 | message in a cache, then the reply chosen by `reply_on`: result, data and event rules, store and surviving writes agree with the snapshot semantics, of which `WasmEffects.SubmessageEffect` gives all eight cases |
| `Wasm.ExecuteTransacted` | contracts/cw-autocompounder/packages/multi-test/src/wasm.rs:538-541 | a message run in a transaction leaves its whole effect, or the snapshot and no logged write |
| `Wasm.HandleReply` | contracts/cw-autocompounder/packages/multi-test/src/wasm.rs:580-601 | the reply entry point agrees with the snapshot semantics, mode attribute included |
| `Wasm.ExecuteMsg` | contracts/cw-autocompounder/packages/multi-test/src/wasm.rs:359-514 | every message kind on any stack of overlays gives the same result, store and surviving writes as the snapshot semantics |
| `Wasm.InstantiateContract` | contracts/cw-autocompounder/packages/multi-test/src/wasm.rs:407-466 | label and code checks, registration, funds, then the entry point, in that order, agree with the snapshot semantics, which `WasmEffects.InstantiateEffect` spells out |
| `Wasm.MigrateContract` | contracts/cw-autocompounder/packages/multi-test/src/wasm.rs:467-504 | code, existence and admin checks, the code id update, then the entry point, agree with the snapshot semantics, which `WasmEffects.MigrateEffect` spells out |
| `Wasm.ChangeAdmin` | contracts/cw-autocompounder/packages/multi-test/src/wasm.rs:330-356 | only the admin changes or clears the admin; otherwise nothing is written, as `WasmEffects.UpdateAdminEffect` spells out |
| `Wasm.App.ExecuteMulti` | contracts/cw-autocompounder/packages/multi-test/src/app.rs:614-635 | all messages take effect one on top of the other and their responses are returned in order, or the first error is returned and the store is untouched |
| `Wasm.FailureIsContained` | contracts/cw-autocompounder/packages/multi-test/src/wasm.rs:525-578 | anywhere in a list of submessages a failing one can be replaced by one that only fails, with the same error: result, events, data, store and surviving writes of the whole list are the same |
| `Wasm.ErrorLeavesWritesIff` | contracts/cw-autocompounder/packages/multi-test/src/wasm.rs:701-719 | an entry point that errs leaves writes iff contract and code exist, its handler succeeded and wrote, and only the response was refused; they are then exactly the handler's |
| `Wasm.RejectedYetWritten` | contracts/cw-autocompounder/packages/multi-test/src/wasm.rs:252-267 | a handler whose one write stays although its response is refused |
| `WasmEffects.RefusedIff` | contracts/cw-autocompounder/packages/multi-test/src/wasm.rs:228-267 | a response is refused iff some attribute of its own or of an event has a blank name or value or a reserved name, or some event type has fewer than two characters |
| `WasmEffects.AppResponseExact` | contracts/cw-autocompounder/packages/multi-test/src/wasm.rs:605-647 | the chain's event comes first, the contract's attributes follow as one `wasm` event if there are any, then each event as `wasm-` and its type; each begins with `_contract_addr` |
| `WasmEffects.QueriesSeeTheStart` | contracts/cw-autocompounder/packages/multi-test/src/wasm.rs:836-871 | however much a handler has written, it reads its own writes, and its queries are answered from before the first of them |
| `WasmEffects.EntryOutcome` | contracts/cw-autocompounder/packages/multi-test/src/wasm.rs:580-670 | all ways an entry point ends: unknown contract, unknown code, failed handler without its writes, refused response with them, or the submessages run on what it wrote |
| `WasmEffects.SubmessageEffect` | contracts/cw-autocompounder/packages/multi-test/src/wasm.rs:525-578 | all eight cases of `reply_on` and outcome: whose writes stay, which reply runs, on what, told what, and what becomes of events, data and error |
| `WasmEffects.ModuleEffect` | contracts/cw-autocompounder/packages/multi-test/src/app.rs:788-807 | messages to the other modules run straight on the storage |
| `WasmEffects.ExecuteEffect` | contracts/cw-autocompounder/packages/multi-test/src/wasm.rs:370-406 | the funds go first, and if that fails the contract is not entered; the entry point runs on what they left, and its data is wrapped |
| `WasmEffects.InstantiateEffect` | contracts/cw-autocompounder/packages/multi-test/src/wasm.rs:407-466 | label and code are checked first; the first write saves the contract with its code, the sender as creator, admin, label and height; then funds and entry point; the address always comes back as data |
| `WasmEffects.MigrateEffect` | contracts/cw-autocompounder/packages/multi-test/src/wasm.rs:467-504 | goes through only for the contract's admin and a registered code; otherwise one of three errors and no write; the first write changes the code id and nothing else, then the new code runs |
| `WasmEffects.UpdateAdminEffect` | contracts/cw-autocompounder/packages/multi-test/src/wasm.rs:330-356 | goes through iff the sender is the admin, and changes the admin and nothing else |
| `WasmEffects.OneMessage` | contracts/cw-autocompounder/packages/multi-test/src/app.rs:614-635 | a list of one message is that message |
| `WasmEffects.MessagesInSequence` | contracts/cw-autocompounder/packages/multi-test/src/app.rs:614-635 | however a list is cut in two, the second part runs on what the first left and is not reached if it failed; responses and writes in order |
| `WasmEffects.OneSubmessage` | contracts/cw-autocompounder/packages/multi-test/src/wasm.rs:649-670 | one submessage appends its events and replaces the data if it has any |
| `WasmEffects.SubmessagesInSequence` | contracts/cw-autocompounder/packages/multi-test/src/wasm.rs:649-670 | however the submessages are cut in two, the second part continues the response and the store that the first left |
| `Emitters.ResponseNamed` | contracts/cw-autocompounder/packages/multi-test/src/wasm.rs:605-647 | behind the entry-point event, every event of an accepted response names its contract first and only once |
| `Emitters.MsgNamed` | contracts/cw-autocompounder/packages/multi-test/src/wasm.rs:359-670 | over a whole run of any depth whose modules keep to their own events, every contract event of the result names, first and only once, a contract entered in a part of the run that took effect |
| `Balances.NormalizedUnique` | contracts/cw-autocompounder/packages/utils/src/balance.rs:27-54 | denominations and totals determine a sorted, zero-free coin list |
| `Balances.NativeBalance.FindDuplicates` | contracts/cw-autocompounder/packages/utils/src/balance.rs:33-46 | finds exactly the positions that repeat their predecessor's denomination |
| `Balances.Find` | contracts/cw-autocompounder/packages/utils/src/balance.rs:56-58 | the position returned holds the denomination; none is returned iff no coin does |
| `Balances.InsertPos` | contracts/cw-autocompounder/packages/utils/src/balance.rs:63-65 | everything before the position is smaller, what stands at it is not |
| `Balances.AddCoinNormalized` | contracts/cw-autocompounder/packages/utils/src/balance.rs:103-116 | adding a nonzero coin keeps a list normalized |
| `Balances.SubCoinsExact` | contracts/cw-autocompounder/packages/utils/src/balance.rs:144-180 | on a normalized balance, subtracting nonzero coins fails iff some denomination's total is short, and keeps the balance normalized |
| `Balances.SubCoinsAmounts` | contracts/cw-autocompounder/packages/utils/src/balance.rs:144-180 | a subtraction that succeeds takes away exactly what was asked, per denomination |
| `Balances.NativeBalance.SubAll` | contracts/cw-autocompounder/packages/utils/src/balance.rs:170-180 | coin after coin, failing with the first that fails |
| `Balances.NativeBalance.Normalize` | contracts/cw-autocompounder/packages/utils/src/balance.rs:27-54 | yields the unique strictly sorted, zero-free list with the same total per denomination, and panics iff some total overflows |
| `Balances.NativeBalance.MergeDuplicates` | contracts/cw-autocompounder/packages/utils/src/balance.rs:48-53 | going backwards over the duplicate positions merges runs of any length without losing an amount or shifting a position still to come; stops only where a total overflows |
| `Balances.NormalFormIdempotent` | contracts/cw-autocompounder/packages/utils/src/balance.rs:27-54 | normalizing is idempotent, and a list is normalized iff it is its own normal form |
| `Balances.AddCoinAmounts` | contracts/cw-autocompounder/packages/utils/src/balance.rs:103-116 | adding a coin adds its amount to its own denomination and to no other |
| `Balances.AddCoinsExact` | contracts/cw-autocompounder/packages/utils/src/balance.rs:127-133 | adding nonzero coins to a normalized balance overflows iff some denomination's total does, and keeps the balance normalized |
| `Balances.AddCoinsAmounts` | contracts/cw-autocompounder/packages/utils/src/balance.rs:127-133 | an addition that does not overflow adds the list's total in every denomination |
| `Balances.NativeBalance.AddAssignAll` | contracts/cw-autocompounder/packages/utils/src/balance.rs:127-133 | coin after coin, stopping with the first that overflows |
| `Bank.SendConservesSupply` | contracts/cw-autocompounder/packages/multi-test/src/bank.rs:70-103 | sending conserves the supply of every denomination; minting and burning move it by what they say |
| `Bank.MintExact` | contracts/cw-autocompounder/packages/multi-test/src/bank.rs:81-91 | minting fails iff it mints nothing and panics iff a total of the recipient overflows; otherwise exactly the recipient gains exactly the coins, and lists stay normalized |
| `Bank.BurnExact` | contracts/cw-autocompounder/packages/multi-test/src/bank.rs:93-103 | burning succeeds iff it burns something that is there, and never panics; exactly the owner loses exactly the coins |
| `Bank.SendExact` | contracts/cw-autocompounder/packages/multi-test/src/bank.rs:70-79 | a transfer fails iff it moves nothing or the sender is short, and panics iff a total of another recipient overflows; otherwise exactly that moves, also when sender and recipient coincide |
| `Bank.SendNeverOverflows` | contracts/cw-autocompounder/packages/multi-test/src/bank.rs:70-79 | while every denomination's supply fits 128 bits, no transfer overflows |
| `Bank.BankKeeper.SetBalance` | contracts/cw-autocompounder/packages/multi-test/src/bank.rs:51-62 | the stored list is the normal form, and no other account changes; an overflowing total panics |
| `Bank.BankKeeper.DoSend` | contracts/cw-autocompounder/packages/multi-test/src/bank.rs:70-79 | burning, then minting, on the stored lists: the ledger, error or panic the transfer lemmas are about |
| `StakingInvariants.UpdateRewardsFrame` | contracts/cw-autocompounder/packages/multi-test/src/staking.rs:248-297 | an update touches nothing but reward amounts and the validator's last calculation |
| `StakingInvariants.AddValidatorAgrees` | contracts/cw-autocompounder/packages/multi-test/src/staking.rs:136-157 | a new validator enters map, info and list together, so they keep naming the same duplicate-free set |
| `StakingInvariants.ApplySound` | contracts/cw-autocompounder/packages/multi-test/src/staking.rs:496-655 | the state after a message is sound again |
| `StakingInvariants.ReachableSound` | contracts/cw-autocompounder/packages/multi-test/src/staking.rs:136-157 | in every reachable state staker sets are exactly the entries, map, info and list name the same validators once each, no validator is updated ahead of time, and balances are normalized |
| `Interest.InterestExact` | contracts/cw-autocompounder/packages/multi-test/src/staking.rs:225-243 | the calculation panics iff a factor, a product or the commission overflows, and is otherwise the interest less commission, rounded only by the year and the commission |
| `Interest.RewardsAreInterest` | contracts/cw-autocompounder/packages/multi-test/src/staking.rs:225-243 | rewards are stake times yearly rate times whole seconds, less the commission, to within one smallest unit; none at a commission of 100% or more |
| `Interest.LessStake` | contracts/cw-autocompounder/packages/multi-test/src/staking.rs:225-243 | a smaller stake overflows no sooner, and earns nothing where the larger one did not |
| `Interest.YearOverflows` | contracts/cw-autocompounder/packages/multi-test/src/staking.rs:236-239 | 2 * 10^14 staked for a year at 10% without an update: the calculation panics |
| `Payouts.ProcessQueueOutcome` | contracts/cw-autocompounder/packages/multi-test/src/staking.rs:625-655 | in any state: processing panics iff a matured payout overflows its recipient before the vault runs dry, succeeds iff all matured payouts are covered and fit, and fails otherwise |
| `Payouts.ProcessQueuePays` | contracts/cw-autocompounder/packages/multi-test/src/staking.rs:625-655 | when it succeeds, exactly the matured prefix is paid, front first, each entry once, and the rest is kept |
| `StakingOverflows.UpdateRewardsPanics` | contracts/cw-autocompounder/packages/multi-test/src/staking.rs:248-297 | in a sound state neither the `expect` on an entry nor the division by the stake can fail: an update panics iff the interest, or one staker's share of it, overflows |
| `StakingOverflows.ChangeStakeOutcome` | contracts/cw-autocompounder/packages/multi-test/src/staking.rs:331-420 | when adding or removing a stake panics, and when it goes through, from the state before it |
| `StakingOverflows.RedelegatePanics` | contracts/cw-autocompounder/packages/multi-test/src/staking.rs:568-599 | a redelegation panics iff taking overflows, or the taking is accepted and adding to another destination overflows; back to the source it never does |
| `StakingOverflows.WithdrawPanics` | contracts/cw-autocompounder/packages/multi-test/src/staking.rs:766-837 | a withdrawal panics iff the update overflows or the whole coins due overflow the delegator's balance |
| `StakingOverflows.SlashPanics` | contracts/cw-autocompounder/packages/multi-test/src/staking.rs:422-465 | a slash panics iff the update overflows, and fails iff the percentage exceeds one or the validator is unknown |
| `StakingOverflows.ApplyPanics` | contracts/cw-autocompounder/packages/multi-test/src/staking.rs:496-655 | from a sound state any message panics iff a condition on that state holds, spelled out for every kind of message |
| `StakingOverflows.OnlyOverflowsPanic` | contracts/cw-autocompounder/packages/multi-test/src/staking.rs:496-655 | over every run, whichever message comes next: it panics if and only if it overflows |
| `Slashing.RestakedGap` | contracts/cw-autocompounder/packages/multi-test/src/staking.rs:373-420 | delegating, undelegating and redelegating never change the gap between shares and whole stake of any validator |
| `Slashing.ScaledTotals` | contracts/cw-autocompounder/packages/multi-test/src/staking.rs:438-462 | scaling all shares and flooring the whole stake scales the gap, up to one whole unit above and one smallest unit per staker below |
| `Slashing.SlashedGap` | contracts/cw-autocompounder/packages/multi-test/src/staking.rs:422-465 | one slash widens the bounds on the gap by one step; a slash to zero closes it |
| `Slashing.OtherMessagesKeepGap` | contracts/cw-autocompounder/packages/multi-test/src/staking.rs:496-655 | no message but a slash of the validator itself touches its gap |
| `Slashing.GapBounded` | contracts/cw-autocompounder/packages/multi-test/src/staking.rs:422-465 | over every run with k slashes and at most n stakers at any of them, shares less whole stake lie between -k·n·10^-18 and k, and are exactly 0 without slashes |
| `Solvency.ReachableSolvent` | contracts/cw-autocompounder/packages/multi-test/src/staking.rs:507-599 | over every run not acting as the module account, its balance covers all stakes and all queued unbondings |
| `Solvency.ReachableQueueOrdered` | contracts/cw-autocompounder/packages/multi-test/src/staking.rs:556-565 | with block times not going back the queue is sorted by payout time |
| `Solvency.UnbondingWaits` | contracts/cw-autocompounder/packages/multi-test/src/staking.rs:556-565 | a new unbonding joins behind all others and is due exactly when the unbonding time has passed, neither earlier nor later |
| `Solvency.CoveredQueue` | contracts/cw-autocompounder/packages/multi-test/src/staking.rs:625-655 | with the queue covered by the vault, processing never fails for lack of funds, and panics iff a payout overflows its recipient |
| `Solvency.PayoutsNeverFail` | contracts/cw-autocompounder/packages/multi-test/src/staking.rs:625-655 | in every reachable state no payout lacks the funds; every matured entry is paid once, in order, and exactly the later ones are left, unless a payout overflows its recipient, which takes a supply beyond 128 bits |
| `Rewards.CreditBounds` | contracts/cw-autocompounder/packages/multi-test/src/staking.rs:48-52 | single shares are floors that sum to at most the rewards, and to more than the rewards less one smallest unit per staker |
| `Rewards.RewardsShared` | contracts/cw-autocompounder/packages/multi-test/src/staking.rs:248-297 | when shares add up to the whole stake, an update credits at most the new rewards R and, with n stakers, more than R - n * 10^-18, if and only if it does not overflow |
| `Rewards.CreditedTotal` | contracts/cw-autocompounder/packages/multi-test/src/staking.rs:283-293 | an update that goes through raises the rewards held by exactly the sum of the single shares |
| `Rewards.QueryExact` | contracts/cw-autocompounder/packages/multi-test/src/staking.rs:164-222 | the query answers what is due, or panics: iff the validator has no stake, or the interest or the delegator's share overflows |
| `Rewards.WithdrawMints` | contracts/cw-autocompounder/packages/multi-test/src/staking.rs:797-837 | a withdrawal panics iff the update overflows; otherwise it raises exactly the delegator's bonded balance by exactly the r coins due, fails iff r is zero, and panics iff that balance overflows; for the records see `StakingEffects.WithdrawEffect` |
| `Rewards.QueryAgreesWithWithdrawal` | contracts/cw-autocompounder/packages/multi-test/src/staking.rs:196-222 | in a sound state the query equals the r a withdrawal in the same block brings if and only if the validator has stake and nothing overflows; without stake it panics, and a withdrawal still brings what had accrued |
| `Rewards.SlashFreeRewards` | contracts/cw-autocompounder/packages/multi-test/src/staking.rs:766-787 | in every state reached without slashes, updates share rewards out to within one smallest unit per staker iff they do not overflow, stake is positive, and the query answers what the withdrawal message brings iff its own sum does not overflow |
| `StakingEffects.SettledExact` | contracts/cw-autocompounder/packages/multi-test/src/staking.rs:248-297 | an update leaves every entry of the validator with the rewards due to it, moves the last calculation on iff there was something to share, and changes nothing else |
| `StakingEffects.ChangeStakeExact` | contracts/cw-autocompounder/packages/multi-test/src/staking.rs:331-420 | one stake and the whole stake change by the amount; every entry of the validator keeps the rewards due to it, a new one starts with none, and other validators are left alone |
| `StakingEffects.DueAfterChange` | contracts/cw-autocompounder/packages/multi-test/src/staking.rs:331-420 | what is due after a change is what was due before, plus back-dated interest; none when stake is taken, or when there was something to share |
| `StakingEffects.DelegateEffect` | contracts/cw-autocompounder/packages/multi-test/src/staking.rs:507-538 | exactly one stake grows, accrued rewards stay, and exactly the coins go from the delegator to the module |
| `StakingEffects.UndelegateEffect` | contracts/cw-autocompounder/packages/multi-test/src/staking.rs:539-567 | exactly one stake shrinks, accrued rewards stay, the unbonding joins the queue under the delegator's name with amount and time, and no coins move |
| `StakingEffects.UndelegatingAllForfeits` | contracts/cw-autocompounder/packages/multi-test/src/staking.rs:403-411 | the entry goes iff the whole stake is undelegated; whatever had accrued is not paid, and nothing is left to withdraw |
| `StakingEffects.RedelegateEffect` | contracts/cw-autocompounder/packages/multi-test/src/staking.rs:568-599 | between two validators the stake leaves the one and joins the other, and accrued rewards stay on both sides |
| `StakingEffects.RedelegateToSourceEffect` | contracts/cw-autocompounder/packages/multi-test/src/staking.rs:568-599 | to the same validator nothing changes, unless the whole stake is redelegated: then the delegator's accrued rewards are lost |
| `StakingEffects.WithdrawEffect` | contracts/cw-autocompounder/packages/multi-test/src/staking.rs:766-837 | the delegator is paid exactly what was due in whole coins, its rewards become zero and its stake stays; everyone else keeps what was due |
| `StakingEffects.WithdrawsOnce` | contracts/cw-autocompounder/packages/multi-test/src/staking.rs:766-837 | after a withdrawal nothing is due, another one in the same block fails, and every other delegator of the validator still has the same due |
| `StakingEffects.SlashEffect` | contracts/cw-autocompounder/packages/multi-test/src/staking.rs:422-465 | every stake with the validator is cut by the percentage, rounded down, and keeps its accrued rewards; if no whole coin is left all entries go; nothing else changes |
| `StakingEffects.AddValidatorEffect` | contracts/cw-autocompounder/packages/multi-test/src/staking.rs:136-157 | fails iff the address is taken; otherwise appends the validator, with no stakers, no stake and now as its last calculation |
| `StakingEffects.BankEffect` | contracts/cw-autocompounder/packages/multi-test/src/bank.rs:70-103 | sending, burning and minting move exactly the coins and leave stakes, queue and validators alone |
| `StakingEffects.ApplySucceeds` | contracts/cw-autocompounder/packages/multi-test/src/staking.rs:496-655 | from a sound state any message goes through iff a condition on that state holds and it does not overflow, spelled out for every kind of message |
| `StakingEffects.DelegationEarnsBackwardsIff` | contracts/cw-autocompounder/packages/multi-test/src/staking.rs:262-279 | delegating raises what is due at once iff nothing was earned since the last calculation and the enlarged stake would have earned its delegator something |
| `StakingEffects.FirstDelegationIsBackdated` | contracts/cw-autocompounder/packages/multi-test/src/staking.rs:262-279 | a hundred coins delegated at 10% a year after the validator was added: ten are due at once |
| `StakingExamples.LargeStakesAbort` | contracts/cw-autocompounder/packages/multi-test/src/staking.rs:395-404 | two delegations of 2 * 10^20 go through; in every later block each delegation to that validator, undelegation, withdrawal and slash panics |
| `StakingExamples.LargeStakeAborts` | contracts/cw-autocompounder/packages/multi-test/src/staking.rs:395-404 | a delegation of 10^21 panics in any sound state |
| `StakingExamples.QueryPanicsAfterSlash` | contracts/cw-autocompounder/packages/multi-test/src/staking.rs:196-222 | a run of four messages after which the query divides by zero and the withdrawal fails |
| `StakeKeeper.StakeKeeper.ScaleStakes` | contracts/cw-autocompounder/packages/multi-test/src/staking.rs:448-462 | visiting delegators in any order scales each entry once |
| `StakeKeeper.StakeKeeper.ProcessQueue` | contracts/cw-autocompounder/packages/multi-test/src/staking.rs:625-655 | the loop terminates and equals the state function |
| `StakeKeeper.StakeKeeper.UpdateRewards` | contracts/cw-autocompounder/packages/multi-test/src/staking.rs:248-297 | with its early returns and its loop over stakers, yields the state, error or panic the reward lemmas are about |
| `StakeKeeper.StakeKeeper.Slash` | contracts/cw-autocompounder/packages/multi-test/src/staking.rs:422-465 | both branches, with their loops over delegators, yield the state the gap lemmas are about |
| `StakeKeeper.StakeKeeper.Execute` | contracts/cw-autocompounder/packages/multi-test/src/staking.rs:496-655 | every message, in place, makes exactly the step, error or panic of the transition function that all run lemmas are about; each step's exact effect is in `StakingEffects` |
| `StakeKeeper.StakeKeeper.CreditStakers` | contracts/cw-autocompounder/packages/multi-test/src/staking.rs:283-293 | visiting stakers in any order credits each once; panics iff a staker has no entry or crediting it overflows |
| `StakeKeeper.StakeKeeper.UpdateStake` | contracts/cw-autocompounder/packages/multi-test/src/staking.rs:373-420 | rewards first, then the conversion, the overflow and funds checks, then both records: the state, error or panic that `StakingEffects.ChangeStakeExact` and `ChangeStakeOutcome` are about |
| `IntKeys.BeRoundTrip` | contracts/cw-autocompounder/packages/storage-plus/src/int_key.rs:14-30 | big-endian bytes read back as the number, at every width |
| `IntKeys.UnsignedOrder` | contracts/cw-autocompounder/packages/storage-plus/src/int_key.rs:14-30 | unsigned keys sort as their values, at every width |
| `IntKeys.SignedOrderAndRoundTrip` | contracts/cw-autocompounder/packages/storage-plus/src/int_key.rs:34-52 | signed keys sort as their values and read back as their values, at every width |
| `IntKeys.SignedKeysOnto` | contracts/cw-autocompounder/packages/storage-plus/src/int_key.rs:34-52 | every byte string of the width is the key of the integer it decodes to |
| `Keys.BuildKey` | contracts/cw-autocompounder/packages/storage-plus/src/helpers.rs:40-53 | the loop builds the key the encoding lemmas are about |
| `Keys.BuildNestedKey` | contracts/cw-autocompounder/packages/storage-plus/src/helpers.rs:57-80 | two lists of names encode as their concatenation would |
| `Keys.PairRoundTrip` | contracts/cw-autocompounder/packages/storage-plus/src/de.rs:124-135 | encoded pairs decode to themselves, and decoding succeeds on encoded pairs only |
| `Keys.TripleRoundTrip` | contracts/cw-autocompounder/packages/storage-plus/src/de.rs:137-152 | encoded triples decode to themselves, and decoding succeeds on encoded triples only |
| `Keys.KeysInjective` | contracts/cw-autocompounder/packages/storage-plus/src/keys.rs:69-76 | keys of equally many segments are equal only if all segments are |
| `Keys.NamespacesDisjoint` | contracts/cw-autocompounder/packages/storage-plus/src/map.rs:47-53 | maps with different namespaces never share a key |
| `Keys.PairOrder` | contracts/cw-autocompounder/packages/storage-plus/src/keys.rs:130-135 | encoded pairs sort shortlex on the first component, then lexicographically on the second |
| `Keys.SegmentsRoundTrip` | contracts/cw-autocompounder/packages/storage-plus/src/de.rs:124-152 | keys of any number of segments decode to their segments and last key |
| `Keys.KeyOrder` | contracts/cw-autocompounder/packages/storage-plus/src/keys.rs:69-76 | keys of equally many segments sort by the first differing segment, shortlex, then by the last key |
| `Keys.EncodedLength` | contracts/cw-autocompounder/packages/storage-plus/src/helpers.rs:84-90 | the two bytes are the length, high byte first |
| `Prefixes.IncrementLastByte` | contracts/cw-autocompounder/packages/storage-plus/src/prefix.rs:282-294 | in place: trailing 0xFF become zero and the byte before them grows by one |
| `Prefixes.IncrementIsNext` | contracts/cw-autocompounder/packages/storage-plus/src/prefix.rs:282-294 | of the strings of its length, nothing lies between a prefix that is not all 0xFF and its increment |
| `Prefixes.AllFFWraps` | contracts/cw-autocompounder/packages/storage-plus/src/prefix.rs:279-294 | a prefix of 0xFF bytes wraps around to something below itself |
| `Prefixes.IntervalExact` | contracts/cw-autocompounder/packages/storage-plus/src/prefix.rs:221-228 | between a prefix that is not all 0xFF and its increment lie, of the keys of any length, exactly those with the prefix and the strays |
| `Prefixes.ExactUnlessEndingInFF` | contracts/cw-autocompounder/packages/storage-plus/src/prefix.rs:221-228 | the interval is exactly the prefix, for keys of every length, if and only if the prefix is nonempty and does not end in 0xFF |
| `Prefixes.BoundsExact` | contracts/cw-autocompounder/packages/storage-plus/src/prefix.rs:212-228 | being within the computed bounds and being the namespace followed by a suffix satisfying the inclusive or exclusive limits coincide for a key if and only if it is not misplaced |
| `Prefixes.RangeWithPrefixExact` | contracts/cw-autocompounder/packages/storage-plus/src/prefix.rs:193-210 | the range lists exactly the namespace's own entries within the limits, ordered by suffix, trimming no foreign key, if and only if no stored key is misplaced |
| `PrefixRanges.IncrementedBound` | contracts/cw-autocompounder/packages/storage-plus/src/prefix.rs:249-271 | below the increment of an incrementable prefix are exactly the keys, short or long, whose segments do not come after it |
| `PrefixRanges.IncrementExactIff` | contracts/cw-autocompounder/packages/storage-plus/src/prefix.rs:279-294 | that holds of all keys of as many segments if and only if the last segment is not 65535 bytes of 0xFF, and there is one |
| `PrefixRanges.MisjudgedIff` | contracts/cw-autocompounder/packages/storage-plus/src/prefix.rs:249-271 | an incremented prefix puts a key on the wrong side if and only if the key is a stray of it, or the prefix is all 0xFF and the key not below its wrapped increment |
| `PrefixRanges.IncrementableMisplacesNothing` | contracts/cw-autocompounder/packages/storage-plus/src/prefix.rs:249-271 | bounds whose last segment is not 65535 bytes of 0xFF misplace no key at all |
| `PrefixRanges.PrefixBoundsExact` | contracts/cw-autocompounder/packages/storage-plus/src/prefix.rs:249-271 | for a key of the map, being within the bounds and having leading segments that satisfy them coincide if and only if it is not misplaced: excluding a prefix skips, including it keeps, all its keys, short or long |
| `PrefixRanges.PrefixRangeExact` | contracts/cw-autocompounder/packages/storage-plus/src/prefix.rs:230-247 | the prefix range lists exactly the map's entries whose leading segments satisfy the bounds, in key order and without the namespace, whatever else is stored, if and only if none of the map's keys is misplaced |
| `PrefixRanges.UnderPrefixExact` | contracts/cw-autocompounder/packages/storage-plus/src/prefix.rs:144-210 | a range under one prefix of a map's keys lists exactly the keys with those leading segments, by what follows them, within the bounds and in order, whatever the prefix ends in |
| `Maps.StoragePrefixExact` | contracts/cw-autocompounder/packages/storage-plus/src/map.rs:55-57 | the prefix of every map is one for which ranges are exact |
| `Maps.BatchIsOwn` | contracts/cw-autocompounder/packages/storage-plus/src/map.rs:118-126 | a batch holds only keys of the map; rebuilding a path from a trimmed key gives the stored key; a short batch holds all of them |
| `Maps.Clear` | contracts/cw-autocompounder/packages/storage-plus/src/map.rs:115-132 | terminates, and removes all and only the map's own keys |
| `Deques.DequeIter.Next` | contracts/cw-autocompounder/packages/storage-plus/src/deque.rs:226-238 | takes the front element of what is left |
| `Deques.DequeIter.NextBack` | contracts/cw-autocompounder/packages/storage-plus/src/deque.rs:265-277 | takes the back element of what is left, so mixed iteration stays inside the sequence |
| `Deques.DequeIter.NthForward` | contracts/cw-autocompounder/packages/storage-plus/src/deque.rs:249-258 | skips and takes as on the sequence, with the index cut to 32 bits |
| `Deques.DequeIter.NthBack` | contracts/cw-autocompounder/packages/storage-plus/src/deque.rs:280-289 | the same from the back, on the reversed sequence |
| `Deques.NthIsNextTimes` | contracts/cw-autocompounder/packages/storage-plus/src/deque.rs:249-258 | `nth(n)` equals n + 1 calls of `next` iff n fits 32 bits or its truncation is past the end |
| `Deques.NthWrapsAround` | contracts/cw-autocompounder/packages/storage-plus/src/deque.rs:249-258 | with a 64-bit index, `nth(2^32)` of one element returns it although `next` runs out |
| `Deques.StorageKeysDistinct` | contracts/cw-autocompounder/packages/storage-plus/src/deque.rs:8-10 | the keys of head, tail and every position are pairwise different |
| `Deques.Deque.PushBack` | contracts/cw-autocompounder/packages/storage-plus/src/deque.rs:35-43 | appends to the sequence below capacity; at u32::MAX elements the deque then reports itself empty; no key outside its namespace changes |
| `Deques.Deque.PushFront` | contracts/cw-autocompounder/packages/storage-plus/src/deque.rs:46-54 | prepends to the sequence below capacity; at u32::MAX elements the deque then reports itself empty; no key outside its namespace changes |
| `Deques.Deque.PopBack` | contracts/cw-autocompounder/packages/storage-plus/src/deque.rs:57-67 | removes and returns the last element, or nothing when empty; exactly the window stays stored, and no key outside the namespace changes |
| `Deques.Deque.PopFront` | contracts/cw-autocompounder/packages/storage-plus/src/deque.rs:70-80 | removes and returns the first element, or nothing when empty; exactly the window stays stored, and no key outside the namespace changes |
| `Deques.Deque.Front` | contracts/cw-autocompounder/packages/storage-plus/src/deque.rs:83-86 | the sequence's first element, if any |
| `Deques.Deque.Back` | contracts/cw-autocompounder/packages/storage-plus/src/deque.rs:89-93 | the sequence's last element, if any |
| `Deques.Deque.Length` | contracts/cw-autocompounder/packages/storage-plus/src/deque.rs:96-98 | the sequence's length, although head and tail wrap |
| `Deques.Deque.Get` | contracts/cw-autocompounder/packages/storage-plus/src/deque.rs:154-169 | the element at an index, or nothing past the end |
| `Deques.Perform` | contracts/cw-autocompounder/packages/storage-plus/src/deque.rs:35-80 | any run of pushes and pops at both ends, on any storage and from any empty position, acts as on a plain sequence, returned elements included, and changes no other key |
| `Expirations.ExpiresInItsBlock` | contracts/cw-autocompounder/packages/utils/src/expiration.rs:38-46 | a height or time has expired in exactly the blocks not before it; never does not |
| `Expirations.ExpiredForGood` | contracts/cw-autocompounder/packages/utils/src/expiration.rs:7-18 | once expired, so in every later block |
| `Cw20.MoveExact` | contracts/cw-autocompounder/src/contract.rs:470-502 | with balances adding up to the supply, a move fails iff the payer is short, crediting never overflows, exactly the two accounts change, and the sum stays |
| `Cw20.DestroyExact` | contracts/cw-autocompounder/src/contract.rs:504-533 | a burn fails iff the owner is short: the supply subtraction never fails on its own |
| `Cw20.MintConserves` | contracts/cw-autocompounder/src/contract.rs:535-591 | minting succeeds exactly for the minter, a nonzero amount and a supply within the cap; it panics exactly when the supply would overflow; only the recipient gains, and balances keep adding up to the supply |
| `Cw20.InitialBalances` | contracts/cw-autocompounder/src/contract.rs:187-201 | for distinct addresses the created balances add up to the returned total, and are exactly those accounts |
| `Cw20.MirroredInStep` | contracts/cw-autocompounder/src/contract.rs:913-927 | writing every allowance into the mirror makes both maps agree |
| `Cw20.MigrationBuildsMirror` | contracts/cw-autocompounder/src/contract.rs:917-925 | from an empty mirror the migration establishes the agreement |
| `Cw20.DeductExact` | contracts/cw-autocompounder/src/allowances.rs:96-122 | spending succeeds iff the allowance exists, is unexpired and suffices; it uses up exactly that much of that one allowance, in both maps |
| `Cw20.IncreaseExact` | contracts/cw-autocompounder/src/allowances.rs:10-44 | a grant raises exactly one allowance by exactly its amount, in both maps; it fails exactly for oneself or an expiration already past, and panics exactly on overflow; a given expiration replaces the old one |
| `Cw20.DecreaseExact` | contracts/cw-autocompounder/src/allowances.rs:46-93 | a reduction lowers exactly one allowance in both maps, and drops the entry exactly when nothing is left; it fails exactly for oneself, a missing allowance, or an expiration already past on what remains |
| `Cw20Runs.ApplySound` | contracts/cw-autocompounder/src/contract.rs:217-283 | every message keeps supply, cap and mirrored allowances sound, and panics iff it mints or grants beyond 128 bits |
| `Cw20Runs.ReachableSound` | contracts/cw-autocompounder/src/contract.rs:106-185 | over every run from instantiation, balances add up to the supply, the supply respects the cap, both allowance maps agree and nobody has an allowance from themselves |
| `Cw20Runs.ReachableFailures` | contracts/cw-autocompounder/src/allowances.rs:124-195 | in every reachable state: exactly when transfers, burns and their `from` forms succeed, and that none panics |
| `Cw20Runs.CapForEver` | contracts/cw-autocompounder/src/contract.rs:535-591 | over every run: while there is a minter the cap is the one set at instantiation and bounds the supply; once there is none, the supply never rises again |
| `Cw20Runs.SpendingWithinGrants` | contracts/cw-autocompounder/src/allowances.rs:96-244 | over every run, what a spender moved or burned of an owner's tokens, and may still spend, never exceeds what that owner granted it |
| `Cw20Runs.MinterByAppointment` | contracts/cw-autocompounder/src/contract.rs:691-727 | over every run the minter is the one set at the start, or was named successor by whoever was minter then |
| `Cw20Runs.EveryMintIsAuthorized` | contracts/cw-autocompounder/src/contract.rs:535-591 | over every run, whatever raises the supply is a mint within the original cap, by exactly its amount, and by a minter so appointed |
| `Cw20Effects.TransferEffect` | contracts/cw-autocompounder/src/contract.rs:470-502 | goes through iff the sender holds the amount and it is not zero; exactly that moves to the recipient, and nothing but balances changes; sending to a contract likewise |
| `Cw20Effects.BurnEffect` | contracts/cw-autocompounder/src/contract.rs:504-533 | goes through iff the sender holds the amount and it is not zero; the balance and the supply shrink by it |
| `Cw20Effects.MintEffect` | contracts/cw-autocompounder/src/contract.rs:535-591 | goes through iff the minter mints a nonzero amount within cap and range; the recipient and the supply gain it |
| `Cw20Effects.TransferFromEffect` | contracts/cw-autocompounder/src/allowances.rs:124-159 | goes through iff the allowance exists, is unexpired and suffices and the owner holds the amount; it moves from owner to recipient, and one allowance shrinks by it in both maps |
| `Cw20Effects.BurnFromEffect` | contracts/cw-autocompounder/src/allowances.rs:161-195 | the same, with the amount taken from the owner and the supply |
| `Cw20Effects.IncreaseEffect` | contracts/cw-autocompounder/src/allowances.rs:10-44 | the new allowance, amount and expiration, in both maps, and no other; the three conditions for success |
| `Cw20Effects.DecreaseEffect` | contracts/cw-autocompounder/src/allowances.rs:46-93 | the lowered allowance, or none, in both maps, and no other; the conditions for success |
| `Cw20Effects.UpdateMinterEffect` | contracts/cw-autocompounder/src/contract.rs:691-727 | goes through iff the sender is the minter; the successor, if any, has the same cap |
| `Cw20Effects.MigrateEffect` | contracts/cw-autocompounder/src/contract.rs:913-927 | exactly the allowances are written into the mirror; where both maps agree already nothing changes |
| `Cw20Effects.InstantiateEffect` | contracts/cw-autocompounder/src/contract.rs:106-201 | each listed account holds its amount and everyone else nothing; the supply is their sum; no allowances |
| `Cw20Effects.ExpiredIsNeverSpent` | contracts/cw-autocompounder/src/allowances.rs:96-122 | over every run of blocks that do not go back, an expired allowance is never spent again until its owner renews it |
| `Cw20Contract.DedupSorted` | contracts/cw-autocompounder/src/contract.rs:203-213 | on a sorted list deduplication removes nothing iff there is no duplicate |
| `Cw20Contract.ValidateAccounts` | contracts/cw-autocompounder/src/contract.rs:203-213 | accepts exactly the account lists without a repeated address |
| `Cw20Contract.Contract.CreateAccounts` | contracts/cw-autocompounder/src/contract.rs:187-201 | stores each account's amount and returns their sum; fails iff an address repeats, panics iff the sum overflows |
| `Cw20Contract.Contract.Migrate` | contracts/cw-autocompounder/src/contract.rs:913-927 | the loop over allowances rebuilds the mirror |
| `Cw20Contract.Contract.Instantiate` | contracts/cw-autocompounder/src/contract.rs:106-185 | duplicates, overflow of the total and an exceeded cap are refused in that order; otherwise supply, balances and minter are those the run lemmas start from |
| `Cw20Contract.Contract.Execute` | contracts/cw-autocompounder/src/contract.rs:217-283 | every message, in place, makes exactly the step, error or panic of the transition function that all run lemmas are about; each step's exact effect is in `Cw20Effects` |
| `Claims.PartitionConserves` | contracts/cw-autocompounder/packages/controllers/src/claim.rs:56-85 | a release loses, invents and reorders nothing: each claim is either released or waiting, in its old order |
| `Claims.NoOverflowBelowTotal` | contracts/cw-autocompounder/packages/controllers/src/claim.rs:56-85 | a release cannot overflow while all waiting claims together fit 128 bits |
| `Claims.NoClaimLostOrPaidTwice` | contracts/cw-autocompounder/packages/controllers/src/claim.rs:38-85 | over every run, every claim was created for an address exactly as often as it was released to it or still waits |
| `Claims.ClaimsController.ClaimTokens` | contracts/cw-autocompounder/packages/controllers/src/claim.rs:56-85 | saves the waiting part in order and returns the released total; an overflow aborts without a trace |
| `Claims.PartitionMaximal` | contracts/cw-autocompounder/packages/controllers/src/claim.rs:56-85 | only mature claims are released, within the cap, and every mature claim left behind would push the released total over the cap |

## Left out

Weaker than the source in one respect:

- Solvency.PayoutsNeverFail: for runs in which nobody delegates, sends or burns in the name of the module account. Such a message takes coins out of the vault, or stakes coins that are already owed.
- PrefixRanges.PrefixRangeExact: for namespaces not ending in 0xFF, which text never does, of at most 0xFFFF bytes.
- Maps.Clear: for namespaces not ending in 0xFF, which text never does, of at most 0xFFFF bytes.
- Wasm.ExecuteMsg: the bank, staking, distribution and custom modules are arbitrary code that writes to the storage they are given; a contract's own storage is written at full keys, so the prefixed view of it is not modelled.
- Deques.Deque.Get: elements are stored serialized, as byte strings. A missing element inside the window, or an end that is not four bytes long, is an error in the source; neither occurs in a valid deque.
- StakeKeeper.StakeKeeper.ProcessQueue: the unbonding queue and the validator list are sequences, which the deque refines as `Deques` proves.
- Cw20Contract.Contract.Execute: sending to a contract is the ledger part only, without the message to the receiver.

Not modelled:

- JSON and protobuf encoding; stored values are values, and the data encoders of execute and instantiate are arbitrary functions.
- Address validation (accepted addresses stand for themselves), event and error texts, trimming of attribute strings (an arbitrary function). Event types are measured in characters, not in UTF-8 bytes.
- Contracts that generate messages without bound; a response tree is finite.
- `App::sudo`, `wasm_sudo`, block updates, and queries other than the rewards query.
- `BTreeMap::range`, `sort_unstable` and `dedup` of Rust's library: the first two are taken by what they promise, the last is written out.
- Saturating subtraction on coin lists.
- Composite keys whose first component is itself a tuple; the source cannot decode them.
- `IndexedMap`, `IndexedSnapshotMap`, snapshots and the prefixed storage helper.
- The order in which stakers are visited; the model leaves it open.
- Block times are natural numbers; of their 64 bits only the payout time of an unbonding is checked, as with overflow checks on.
- Vault messages to the liquidity pool, the allow-list of coins, marketing and logos, and the version check of the migration.
- The packages for multisig, groups, admin, hooks and the other token standard: types and thin wrappers.
