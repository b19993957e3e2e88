/** The ERC20Pods token: an EIP-20 ledger whose holders register pods, each
    of which is told of every change to the holder's balance. The pods' own
    contracts are modelled by their balance views and a per-pod flag that
    makes every notification to that pod fault. */
module ERC20PodsToken {
  import opened AddressSets
  import opened Registry
  import opened PodLedger

  /** How a registry call ended. */
  datatype Status = Success | Failure(error: PodError)

  /** The refusals of the underlying EIP-20 ledger. */
  datatype TokenError = MintToZeroAddress | TransferToZeroAddress | TransferAmountExceedsBalance

  /** How a ledger call ended. */
  datatype TokenStatus = Done | Reverted(reason: TokenError)

  class ERC20Pods {
    /** The most pods one account may register. */
    const podsLimit: nat

    /** The token ledger; missing accounts hold 0. */
    var balances: map<Address, nat>
    /** Each account's registered pods; a missing account has none. */
    var registry: map<Address, AddressSet>
    /** Each pod's own record of each account's balance. */
    var podViews: Views
    /** The pods whose balance hook reverts or exhausts its gas. */
    var faulty: set<Address>

    ghost predicate Valid()
      reads this`registry
    {
      && (forall a | a in registry :: registry[a].Valid() && |registry[a].items| <= podsLimit)
      && SetOf(Zero).items == []
    }

    constructor (limit: nat)
      ensures Valid()
      ensures podsLimit == limit
      ensures balances == map[] && registry == map[] && podViews == map[] && faulty == {}
      ensures forall a :: BalanceOf(a) == 0 && Pods(a) == []
      ensures forall p, a :: PodView(p, a) == 0
    {
      podsLimit := limit;
      balances := map[];
      registry := map[];
      podViews := map[];
      faulty := {};
    }

    function SetOf(account: Address): AddressSet
      reads this`registry
    {
      if account in registry then registry[account] else EmptySet()
    }

    lemma SetOfValid(account: Address)
      requires Valid()
      ensures SetOf(account).Valid() && |SetOf(account).items| <= podsLimit
      ensures NoDuplicates(SetOf(account).items)
    {
      ValidNoDuplicates(SetOf(account));
    }

    /** The token balance of `account`; an account never credited holds 0. */
    function BalanceOf(account: Address): (r: nat)
      reads this`balances
      ensures account in balances ==> r == balances[account]
      ensures account !in balances ==> r == 0
    {
      if account in balances then balances[account] else 0
    }

    /** The pods `account` has registered, in enumeration order. */
    function Pods(account: Address): (r: seq<Address>)
      reads this`registry
      ensures Valid() ==> NoDuplicates(r) && |r| <= podsLimit
    {
      PodsWellFormed(account);
      SetOf(account).items
    }

    lemma PodsWellFormed(account: Address)
      ensures Valid() ==> NoDuplicates(SetOf(account).items) && |SetOf(account).items| <= podsLimit
    {
      if Valid() {
        SetOfValid(account);
      }
    }

    function HasPod(account: Address, pod: Address): (r: bool)
      requires Valid()
      reads this`registry
      ensures r <==> pod in Pods(account)
    {
      SetOfValid(account);
      SetOf(account).Contains(pod)
    }

    function PodsCount(account: Address): (r: nat)
      requires Valid()
      reads this`registry
      ensures r == |Pods(account)| && r <= podsLimit
    {
      SetOfValid(account);
      SetOf(account).Length()
    }

    function PodAt(account: Address, index: nat): (r: Address)
      reads this`registry
      ensures index < |Pods(account)| ==> r == Pods(account)[index]
      ensures |Pods(account)| <= index ==> r == Zero
    {
      SetOf(account).At(index)
    }

    /** The token's answer to how much of `account`'s balance `pod` covers:
        all of it while the pod is registered, none otherwise. */
    function PodBalanceOf(pod: Address, account: Address): (r: nat)
      requires Valid()
      reads this`registry, this`balances
      ensures pod in Pods(account) ==> r == BalanceOf(account)
      ensures pod !in Pods(account) ==> r == 0
    {
      if HasPod(account, pod) then BalanceOf(account) else 0
    }

    /** The pod's own record of `account`'s balance. */
    function PodView(pod: Address, account: Address): (r: int)
      reads this`podViews
      ensures (pod, account) in podViews ==> r == podViews[(pod, account)]
      ensures (pod, account) !in podViews ==> r == 0
    {
      ViewOf(podViews, pod, account)
    }

    /** Replaces `account`'s pod list. */
    method Store(account: Address, s: AddressSet)
      requires Valid() && account != Zero && s.Valid() && |s.items| <= podsLimit
      modifies this
      ensures Valid()
      ensures SetOf(account) == s
      ensures forall a | a != account :: SetOf(a) == old(SetOf(a))
      ensures balances == old(balances) && podViews == old(podViews) && faulty == old(faulty)
    {
      registry := registry[account := s];
    }

    /** A notification to one pod, under a bounded gas budget: a fault in the
        pod is absorbed here and reported as Suppressed, never re-raised. */
    method UpdateBalance(pod: Address, account: Address, delta: int) returns (d: Delivery)
      modifies this
      ensures d == if pod in faulty then Suppressed else Delivered
      ensures podViews == Deliver(old(podViews), faulty, pod, account, delta)
      ensures balances == old(balances) && registry == old(registry) && faulty == old(faulty)
    {
      if pod in faulty {
        d := Suppressed;
      } else {
        podViews := podViews[(pod, account) := ViewOf(podViews, pod, account) + delta];
        d := Delivered;
      }
    }

    /** Notifies each pod of `ps`, in order, of a change `delta` to `account`. */
    method NotifyPods(ps: seq<Address>, account: Address, delta: int)
      modifies this
      ensures podViews == DeliverAll(old(podViews), faulty, ps, account, delta)
      ensures balances == old(balances) && registry == old(registry) && faulty == old(faulty)
    {
      for i := 0 to |ps|
        invariant podViews == DeliverAll(old(podViews), faulty, ps[..i], account, delta)
        invariant balances == old(balances) && registry == old(registry) && faulty == old(faulty)
      {
        assert ps[..i + 1][..i] == ps[..i];
        var _ := UpdateBalance(ps[i], account, delta);
      }
      assert ps[..|ps|] == ps;
    }

    /** The hook run after every balance change of the ledger: unless nothing
        moved, the sender's pods are debited and the receiver's credited. */
    method AfterTokenTransfer(from: Address, to: Address, amount: nat)
      requires Valid()
      modifies this
      ensures balances == old(balances) && registry == old(registry) && faulty == old(faulty)
      ensures forall p, a :: PodView(p, a) == old(PodView(p, a)) +
                (if amount > 0 && from != to
                 then Share(Pods(from), faulty, from, -(amount as int), p, a) + Share(Pods(to), faulty, to, amount, p, a)
                 else 0)
    {
      if amount > 0 && from != to {
        var sent := Pods(from);
        var received := Pods(to);
        SetOfValid(from);
        SetOfValid(to);
        ghost var v0 := podViews;
        NotifyPods(sent, from, -(amount as int));
        NotifyPods(received, to, amount);
        DeliverTransferAt(v0, faulty, sent, from, received, to, amount);
      }
    }

    /** `caller` registers `pod`. On success a non-zero balance is reported
        to the new pod at once; whether the pod faults has no bearing on the
        outcome. Every refusal leaves the state as it was. */
    method AddPod(caller: Address, pod: Address) returns (status: Status)
      requires Valid() && caller != Zero
      modifies this
      ensures Valid()
      ensures status.Success? <==> pod != Zero && pod !in old(Pods(caller)) && old(PodsCount(caller)) < podsLimit
      ensures status == Failure(InvalidPodAddress) <==> pod == Zero
      ensures status == Failure(PodAlreadyAdded) <==> pod != Zero && pod in old(Pods(caller))
      ensures status == Failure(PodsLimitReachedForAccount) <==>
                pod != Zero && pod !in old(Pods(caller)) && old(PodsCount(caller)) == podsLimit
      ensures balances == old(balances) && faulty == old(faulty)
      ensures status.Success? ==> Pods(caller) == old(Pods(caller)) + [pod]
      ensures forall a | a != caller :: Pods(a) == old(Pods(a))
      ensures status.Failure? ==> registry == old(registry) && podViews == old(podViews)
      ensures status.Success? ==>
                forall p, a :: PodView(p, a) == old(PodView(p, a)) +
                  (if p == pod && a == caller && pod !in faulty then BalanceOf(caller) else 0)
    {
      SetOfValid(caller);
      var r := AddChecked(SetOf(caller), pod, podsLimit);
      if r.Err? {
        return Failure(r.error);
      }
      Store(caller, r.value);
      var balance := BalanceOf(caller);
      if balance > 0 {
        var _ := UpdateBalance(pod, caller, balance);
      }
      status := Success;
    }

    /** `caller` deregisters `pod`. On success a non-zero balance is taken
        back from the pod at once. Refused with PodNotFound, leaving the
        state as it was, when `pod` is not registered. */
    method RemovePod(caller: Address, pod: Address) returns (status: Status)
      requires Valid() && caller != Zero
      modifies this
      ensures Valid()
      ensures status.Success? <==> pod in old(Pods(caller))
      ensures status.Failure? ==> status.error == PodNotFound && registry == old(registry) && podViews == old(podViews)
      ensures balances == old(balances) && faulty == old(faulty)
      ensures status.Success? ==> SetOf(caller) == old(SetOf(caller)).Remove(pod).0
      ensures status.Success? ==> pod !in Pods(caller) && PodsCount(caller) == old(PodsCount(caller)) - 1
      ensures forall a | a != caller :: Pods(a) == old(Pods(a))
      ensures status.Success? ==>
                forall p, a :: PodView(p, a) == old(PodView(p, a)) -
                  (if p == pod && a == caller && pod !in faulty then BalanceOf(caller) else 0)
    {
      SetOfValid(caller);
      var r := RemoveChecked(SetOf(caller), pod);
      if r.Err? {
        return Failure(r.error);
      }
      Store(caller, r.value);
      var balance := BalanceOf(caller);
      if balance > 0 {
        var _ := UpdateBalance(pod, caller, -(balance as int));
      }
      status := Success;
    }

    /** `caller` deregisters every pod at once; then each former pod is
        told, on its own, that the caller's non-zero balance is gone. */
    method RemoveAllPods(caller: Address)
      requires Valid() && caller != Zero
      modifies this
      ensures Valid()
      ensures Pods(caller) == []
      ensures forall a | a != caller :: Pods(a) == old(Pods(a))
      ensures balances == old(balances) && faulty == old(faulty)
      ensures forall p, a :: PodView(p, a) == old(PodView(p, a)) +
                Share(old(Pods(caller)), faulty, caller, -(BalanceOf(caller) as int), p, a)
    {
      var items := Pods(caller);
      var balance := BalanceOf(caller);
      SetOfValid(caller);
      Store(caller, EmptySet());
      if balance > 0 {
        ghost var v0 := podViews;
        NotifyPods(items, caller, -(balance as int));
        forall p, a
          ensures ViewOf(podViews, p, a) == ViewOf(v0, p, a) + Share(items, faulty, caller, -(balance as int), p, a)
        {
          DeliverAllAt(v0, faulty, items, caller, -(balance as int), p, a);
        }
      }
    }

    /** Creates `amount` tokens for `account`; its pods are credited. */
    method Mint(account: Address, amount: nat) returns (status: TokenStatus)
      requires Valid()
      modifies this
      ensures Valid()
      ensures status == Reverted(MintToZeroAddress) <==> account == Zero
      ensures status.Done? <==> account != Zero
      ensures status.Reverted? ==> balances == old(balances) && podViews == old(podViews)
      ensures registry == old(registry) && faulty == old(faulty)
      ensures status.Done? ==> forall a :: BalanceOf(a) == old(BalanceOf(a)) + (if a == account then amount else 0)
      ensures status.Done? ==>
                forall p, a :: PodView(p, a) == old(PodView(p, a)) + Share(Pods(account), faulty, account, amount, p, a)
    {
      if account == Zero {
        return Reverted(MintToZeroAddress);
      }
      balances := balances[account := BalanceOf(account) + amount];
      AfterTokenTransfer(Zero, account, amount);
      status := Done;
    }

    /** `caller` sends `amount` tokens to `to`. Unless the amount is zero or
        the caller pays itself, the caller's pods are debited and the
        receiver's credited; pods of neither see nothing. */
    method Transfer(caller: Address, to: Address, amount: nat) returns (status: TokenStatus)
      requires Valid() && caller != Zero
      modifies this
      ensures Valid()
      ensures status == Reverted(TransferToZeroAddress) <==> to == Zero
      ensures status == Reverted(TransferAmountExceedsBalance) <==> to != Zero && old(BalanceOf(caller)) < amount
      ensures status.Done? <==> to != Zero && amount <= old(BalanceOf(caller))
      ensures status.Reverted? ==> balances == old(balances) && podViews == old(podViews)
      ensures registry == old(registry) && faulty == old(faulty)
      ensures status.Done? ==>
                forall a :: BalanceOf(a) == old(BalanceOf(a)) - (if a == caller then amount else 0) + (if a == to then amount else 0)
      ensures status.Done? ==>
                forall p, a :: PodView(p, a) == old(PodView(p, a)) +
                  (if amount > 0 && caller != to
                   then Share(Pods(caller), faulty, caller, -(amount as int), p, a) + Share(Pods(to), faulty, to, amount, p, a)
                   else 0)
    {
      if to == Zero {
        return Reverted(TransferToZeroAddress);
      }
      var fromBalance := BalanceOf(caller);
      if fromBalance < amount {
        return Reverted(TransferAmountExceedsBalance);
      }
      balances := balances[caller := fromBalance - amount];
      balances := balances[to := BalanceOf(to) + amount];
      AfterTokenTransfer(caller, to, amount);
      status := Done;
    }

    /** The pod's own minting, independent of the token: it adds to the
        pod's record of `account`. */
    method PodMint(pod: Address, account: Address, amount: nat)
      modifies this
      ensures podViews == old(podViews)[(pod, account) := old(PodView(pod, account)) + amount]
      ensures balances == old(balances) && registry == old(registry) && faulty == old(faulty)
    {
      podViews := podViews[(pod, account) := PodView(pod, account) + amount];
    }

    /** Makes every later notification to `pod` fault, or stop faulting. */
    method SetFaulty(pod: Address, isFaulty: bool)
      modifies this
      ensures faulty == if isFaulty then old(faulty) + {pod} else old(faulty) - {pod}
      ensures balances == old(balances) && registry == old(registry) && podViews == old(podViews)
    {
      faulty := if isFaulty then faulty + {pod} else faulty - {pod};
    }
  }
}
