# ERC20Pods, modelled in Dafny

ERC20Pods is an extension of an EIP-20 token. Each holder can register up
to `podsLimit` *pods*. A pod is an external contract that keeps its own
record of the holder's balance. The token tells every registered pod about
each change to that balance. A pod that reverts or runs out of gas while it
is being told never makes the token operation fail.

The only source is the behaviour suite that exercises the extension. The
model has four layers, and each one is proved against its own specification:

- `AddressSets` (`address_set.dfy`): one account's pod list.
  - It is an insertion-ordered, duplicate-free list, plus an index map that answers membership in one lookup.
  - Removal moves the last entry into the freed slot and shrinks the list by one.
- `Registry` (`registry.dfy`): the checks that guard a registration.
  - They run in the contract's order: zero address, then duplicate, then limit.
  - Lemmas cover sequences of adds and removes: filling an account up to the limit, and removing from the tail.
- `PodLedger` (`pod_ledger.dfy`): the pods' own records.
  - Records are a map from (pod, account) to an integer.
  - `Deliver` notifies one pod. `DeliverAll` notifies a list of pods, and the lemmas say exactly which records move.
  - A *faulty* pod keeps its record unchanged. Its notification has the result `Suppressed`: the fault is absorbed and is never reported to the caller.
- `ERC20PodsToken` (`erc20_pods.dfy`): the class `ERC20Pods`.
  - State: the token ledger (`balances`), each account's pod list (`registry`), the pods' records (`podViews`) and the set of faulty pods (`faulty`).
  - Its methods mirror the contract's calls:
    - `AddPod`, `RemovePod` and `RemoveAllPods` change the registry;
    - `Mint` and `Transfer` move tokens;
    - the views are `HasPod`, `PodsCount`, `PodAt`, `Pods`, `PodBalanceOf` and the `podsLimit` constant.
  - Notification is a `for` loop over the pod list (`NotifyPods`). The loop invariant ties it to `DeliverAll`.
  - The class invariant `Valid()` says that every pod list is well formed, that no list holds more than `podsLimit` pods, and that the zero address has no pods.
- `Scenarios` (`scenarios.dfy`): the suite's scenarios, written as client code.
  - Each one drives the class through its contracts alone and asserts the expected outcome.
  - The scenarios cover enumeration, refusals, the limit, reconciliation on add and remove, a faulty pod, and transfers (overlapping pods, zero amount, self-transfer).

A caller is passed explicitly to each call that depends on who sends it. The
caller is never the zero address, which is always true of a transaction's
sender. Addresses are natural numbers, with 0 as the zero address.

## Model

| member | source | states |
|---|---|---|
| AddressSets.AddressSet.Contains | test/behaviors/ERC20Pods.behavior.js:45-50 | the index-map lookup answers exactly "is `a` on the list" |
| AddressSets.AddressSet.At | test/behaviors/ERC20Pods.behavior.js:64-70 | the entry at index `i`, or the zero address at any index past the end |
| AddressSets.AddressSet.Add | test/behaviors/ERC20Pods.behavior.js:148-155 | an absent address is appended at the end and the list stays well formed; a present one is reported and the list is left as it was |
| AddressSets.AddressSet.Remove | test/behaviors/ERC20Pods.behavior.js:178-183 | a member is removed: the list shrinks by one, holds exactly the other members, and is well formed; a non-member is reported and nothing changes; removing the last entry leaves the earlier entries in place |
| AddressSets.ValidNoDuplicates | test/behaviors/ERC20Pods.behavior.js:131-136 | a well-formed list holds each address at most once |
| Registry.AddChecked | test/behaviors/ERC20Pods.behavior.js:118-146 | registration succeeds exactly when the pod is non-zero, not yet listed and there is room, and then appends it; otherwise InvalidPodAddress, PodAlreadyAdded or PodsLimitReachedForAccount, each exactly in its own case |
| Registry.RemoveChecked | test/behaviors/ERC20Pods.behavior.js:172-183 | deregistration succeeds exactly when the pod is listed, and otherwise fails with PodNotFound; on success the count falls by one and only that pod leaves |
| Registry.AddThenRemove | test/behaviors/ERC20Pods.behavior.js:107-113 | deregistering a pod just registered gives back the list as it was, order included |
| Registry.AddAllWithinLimit | test/behaviors/ERC20Pods.behavior.js:84-91 | distinct, non-zero, new pods that fit under the limit are all accepted, and they are listed in the order they were added |
| Registry.FillToLimit | test/behaviors/ERC20Pods.behavior.js:246-254 | exactly `podsLimit` distinct pods fit on an empty list, and the next distinct pod fails with PodsLimitReachedForAccount |
| Registry.RemoveFromTail | test/behaviors/ERC20Pods.behavior.js:71-81 | removing the entries from index `k` onwards, last first, always succeeds and leaves entries `0..k-1` at their indices |
| PodLedger.Deliver | test/behaviors/ERC20Pods.behavior.js:231-243 | one notification moves only that pod's record of that account, by `delta`; a faulty pod's records all stay as they were |
| PodLedger.DeliverUndo | test/behaviors/ERC20Pods.behavior.js:185-192 | a notification followed by the opposite one leaves every record as it was |
| PodLedger.DeliverAll | test/behaviors/ERC20Pods.behavior.js:208-227 | notifies the pods of one account's list in list order; it has no contract of its own, and its effect on each record is what DeliverAllFrame and DeliverAllAt state |
| PodLedger.DeliverAllFrame | test/behaviors/ERC20Pods.behavior.js:329-341 | for any list, duplicates included, notifying it leaves every other account's records alone, and also the records of pods that are unlisted or faulty |
| PodLedger.DeliverAllAt | test/behaviors/ERC20Pods.behavior.js:208-227 | notifying a duplicate-free pod list moves each well-behaved listed pod's record of the account by `delta`, once, and no other record |
| PodLedger.DeliverTransferAt | test/behaviors/ERC20Pods.behavior.js:343-383 | debiting the sender's pods and then crediting the receiver's changes each record by its sender share plus its receiver share, and nothing else |
| ERC20PodsToken.ERC20Pods.constructor | test/behaviors/ERC20Pods.behavior.js:124-126 | a new token has the given limit, no balances, no pods for any account and every pod record at 0 |
| ERC20PodsToken.ERC20Pods.SetOfValid | test/behaviors/ERC20Pods.behavior.js:246-254 | under the class invariant every account's list is well formed, duplicate-free and no longer than `podsLimit` |
| ERC20PodsToken.ERC20Pods.Pods | test/behaviors/ERC20Pods.behavior.js:84-91 | the account's pods in enumeration order; under the class invariant the list is duplicate-free and holds at most `podsLimit` pods, the facts SetOfValid proves |
| ERC20PodsToken.ERC20Pods.BalanceOf | test/behaviors/ERC20Pods.behavior.js:93-114 | the account's token balance, and 0 for an account the ledger never credited; Mint and Transfer state how it moves |
| ERC20PodsToken.ERC20Pods.HasPod | test/behaviors/ERC20Pods.behavior.js:45-50 | true exactly when the pod is on that account's list |
| ERC20PodsToken.ERC20Pods.PodsCount | test/behaviors/ERC20Pods.behavior.js:52-62 | the length of the account's list, which never exceeds `podsLimit` |
| ERC20PodsToken.ERC20Pods.PodAt | test/behaviors/ERC20Pods.behavior.js:64-70 | the `index`-th registered pod, or the zero address from `podsCount` onwards |
| ERC20PodsToken.ERC20Pods.PodBalanceOf | test/behaviors/ERC20Pods.behavior.js:93-114 | the account's full token balance while the pod is registered for it, 0 otherwise |
| ERC20PodsToken.ERC20Pods.PodView | test/behaviors/ERC20Pods.behavior.js:157-168 | the pod's own record of the account, and 0 while the pod holds no record of it; the methods state how it moves |
| ERC20PodsToken.ERC20Pods.UpdateBalance | test/behaviors/ERC20Pods.behavior.js:230-243 | one notification; a faulty pod gives Suppressed and changes nothing, and neither outcome touches the ledger or the registry |
| ERC20PodsToken.ERC20Pods.NotifyPods | test/behaviors/ERC20Pods.behavior.js:208-227 | the loop over a pod list has the effect of `DeliverAll` and leaves the ledger and the registry alone |
| ERC20PodsToken.ERC20Pods.AfterTokenTransfer | test/behaviors/ERC20Pods.behavior.js:284-300 | after a balance change every record moves by the sender's and receiver's shares; a zero amount or an account paying itself changes no record |
| ERC20PodsToken.ERC20Pods.AddPod | test/behaviors/ERC20Pods.behavior.js:117-168 | succeeds exactly under the three checks; each refusal is the right error and leaves the registry and records alone; on success only the caller's list gains the pod, at the end, and only that pod's record of the caller moves, by the caller's balance, unless the pod is faulty; the invariant is kept |
| ERC20PodsToken.ERC20Pods.RemovePod | test/behaviors/ERC20Pods.behavior.js:171-197 | succeeds exactly when the pod is registered, otherwise PodNotFound with nothing changed; on success the pod leaves the caller's list, the count falls by one, other lists stay, and only that pod's record of the caller is debited by the balance |
| ERC20PodsToken.ERC20Pods.RemoveAllPods | test/behaviors/ERC20Pods.behavior.js:200-227 | the caller's list becomes empty, other lists stay, and each formerly registered, well-behaved pod's record of the caller is debited by the caller's balance |
| ERC20PodsToken.ERC20Pods.Mint | test/behaviors/ERC20Pods.behavior.js:14-18 | minting to a non-zero account raises only its balance by `amount` and credits only its pods' records of it; minting to zero is refused with nothing changed |
| ERC20PodsToken.ERC20Pods.Transfer | test/behaviors/ERC20Pods.behavior.js:302-383 | refusal to zero or beyond the balance changes nothing; otherwise balances move by exactly `amount`; the sender's pods are debited and the receiver's credited, no other record changes, and a zero amount or self-transfer changes no record |
| ERC20PodsToken.ERC20Pods.PodMint | test/behaviors/ERC20Pods.behavior.js:185-188 | the pod's own mint raises only its record of that account |
| ERC20PodsToken.ERC20Pods.SetFaulty | test/behaviors/ERC20Pods.behavior.js:231-240 | marks or clears a pod as faulty and changes nothing else |
| Scenarios.Funded | test/behaviors/ERC20Pods.behavior.js:14-18 | a fresh token whose only holder is the given wallet, with no pods and every record at 0 |
| Scenarios.Reconciliation | test/behaviors/ERC20Pods.behavior.js:157-168 | registering a pod credits it with a funded wallet's balance and leaves it at 0 for an empty wallet |
| Scenarios.SenderSetup | test/behaviors/ERC20Pods.behavior.js:343-353 | a funded wallet with two pods, each credited with its balance |
| Scenarios.TransferSetup | test/behaviors/ERC20Pods.behavior.js:343-360 | two wallets whose pod lists overlap in one pod, with the records that registration produces |

## Left out

- The Solidity contracts are not part of this model. Their behaviour is taken from three sources: the suite's expectations; the ERC20Pods protocol, under which a pod is notified when it is added or removed and every registered pod is notified of each balance change; and OpenZeppelin's ERC-20 checks.
  - `Mint` refusing the zero address and `Transfer` refusing the zero address or an amount above the balance follow the OpenZeppelin ledger. The suite does not exercise them.
- Gas is not modelled. This covers the bounded gas budget given to each pod call, the pod mocks' revert and out-of-gas switches, and any reentrancy. Each is replaced by the per-pod `faulty` flag, whose notification is a no-op.
- Events, allowances, `totalSupply`, burning and `transferFrom` are not modelled. The suite does not exercise them.
- 256-bit overflow is not modelled. Balances are unbounded naturals and pod records are unbounded integers.
  - A real pod whose own record would underflow on a debit would revert. Here the debit goes below zero unless the pod is marked faulty.
- The test harness is not modelled: fixtures, signers, deployment and asynchronous calls.
- ERC20PodsToken.ERC20Pods.Transfer: notification is two rounds, the sender's pods then the receiver's. A shared pod is therefore notified twice, not once with both accounts. The effect on every record is the same.
- ERC20PodsToken.ERC20Pods.RemovePod: after removing a pod from the middle, the contract moves the last entry into the freed slot. The order that results is stated only through `AddressSet.Remove`'s entry-by-entry bound and set equality. Order is proved exactly only for removals from the tail, which is all the suite checks.
- ERC20PodsToken.ERC20Pods.RemoveAllPods: the list is cleared first and the former pods are then notified in their registration order. The contract's own iteration order is not shown and is not modelled.
- Any check the contract's constructor makes on `podsLimit` is not shown. Any natural number is accepted as the limit.
