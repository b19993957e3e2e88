/** Client code that replays the behaviour suite's scenarios against the
    contracts of ERC20Pods alone: each assert is one of the suite's
    expectations, derived from the method contracts without their bodies. */
module Scenarios {
  import opened AddressSets
  import opened Registry
  import opened PodLedger
  import opened ERC20PodsToken

  const Wallet1: Address := 1
  const Wallet2: Address := 2
  const Wallet3: Address := 3
  const Pod0: Address := 10
  const Pod1: Address := 11
  const Pod2: Address := 12

  /** Registering, enumerating and deregistering from the tail. */
  method ViewMethods() {
    var t := new ERC20Pods(5);
    var st := t.AddPod(Wallet1, Pod0);
    assert st.Success?;
    assert t.HasPod(Wallet1, Pod0) && !t.HasPod(Wallet2, Pod0);
    st := t.AddPod(Wallet1, Pod1);
    assert t.Pods(Wallet1) == [Pod0, Pod1] && t.PodsCount(Wallet1) == 2;
    assert t.PodAt(Wallet1, 1) == Pod1 && t.PodAt(Wallet1, 2) == Zero;
    st := t.RemovePod(Wallet1, Pod1);
    assert st.Success?;
    assert t.PodsCount(Wallet1) == 1 && t.PodAt(Wallet1, 0) == Pod0 && t.PodAt(Wallet1, 1) == Zero;
  }

  /** The refusals of addPod and removePod, and one pod shared by two wallets. */
  method Refusals() {
    var t := new ERC20Pods(5);
    var st := t.AddPod(Wallet1, Zero);
    assert st == Failure(InvalidPodAddress);
    st := t.AddPod(Wallet1, Pod0);
    st := t.AddPod(Wallet1, Pod0);
    assert st == Failure(PodAlreadyAdded);
    st := t.AddPod(Wallet2, Pod0);
    assert st.Success? && t.HasPod(Wallet1, Pod0) && t.HasPod(Wallet2, Pod0);
    st := t.RemovePod(Wallet1, Pod1);
    assert st == Failure(PodNotFound);
  }

  /** A second pod beyond a limit of one is refused. */
  method Limit() {
    var t := new ERC20Pods(1);
    var st := t.AddPod(Wallet1, Pod0);
    assert st.Success?;
    st := t.AddPod(Wallet1, Pod1);
    assert st == Failure(PodsLimitReachedForAccount);
  }

  /** A fresh token with a limit of five pods whose only holder is `wallet`. */
  method Funded(wallet: Address, amount: nat) returns (t: ERC20Pods)
    requires wallet != Zero
    ensures fresh(t) && t.Valid() && t.podsLimit == 5 && t.faulty == {}
    ensures forall a :: t.BalanceOf(a) == (if a == wallet then amount else 0)
    ensures forall a :: t.Pods(a) == []
    ensures forall p, a :: t.PodView(p, a) == 0
  {
    t := new ERC20Pods(5);
    var ts := t.Mint(wallet, amount);
    assert ts.Done?;
  }

  /** podBalanceOf follows registration; the pod's own record is credited
      on registration only when the wallet holds tokens. */
  method Reconciliation(amount: nat) returns (t: ERC20Pods)
    requires amount > 0
    ensures fresh(t) && t.Valid() && t.faulty == {}
    ensures t.BalanceOf(Wallet1) == amount && t.BalanceOf(Wallet2) == 0
    ensures t.Pods(Wallet1) == [Pod0] && t.Pods(Wallet2) == [Pod0]
    ensures forall p, a :: t.PodView(p, a) == (if p == Pod0 && a == Wallet1 then amount else 0)
  {
    t := Funded(Wallet1, amount);
    assert t.PodBalanceOf(Pod0, Wallet1) == 0;
    var st := t.AddPod(Wallet1, Pod0);
    assert st.Success?;
    assert t.PodBalanceOf(Pod0, Wallet1) == amount;
    assert t.BalanceOf(Wallet1) == amount && t.BalanceOf(Wallet2) == 0;
    st := t.AddPod(Wallet2, Pod0);
    assert st.Success?;
  }

  /** Deregistering debits the pod's record and leaves the balance alone. */
  method Deregistration(amount: nat)
    requires amount > 0
  {
    var t := Reconciliation(amount);
    var st := t.RemovePod(Wallet1, Pod0);
    assert st.Success?;
    assert t.PodBalanceOf(Pod0, Wallet1) == 0 && t.PodView(Pod0, Wallet1) == 0;
    assert t.BalanceOf(Wallet1) == amount && t.PodView(Pod0, Wallet2) == 0;
  }

  /** A pod that reverts in its hook is still registered, as the only entry. */
  method FaultyPod(amount: nat)
    requires amount > 0
  {
    var t := Funded(Wallet1, amount);
    t.SetFaulty(Pod2, true);
    var st := t.AddPod(Wallet1, Pod2);
    assert st.Success? && t.Pods(Wallet1) == [Pod2];
    assert t.PodView(Pod2, Wallet1) == 0;
  }

  /** Wallet2 holds `amount` tokens and pods Pod0 and Pod1. */
  method SenderSetup(amount: nat) returns (t: ERC20Pods)
    requires amount > 0
    ensures fresh(t) && t.Valid() && t.podsLimit == 5 && t.faulty == {}
    ensures forall a :: t.BalanceOf(a) == (if a == Wallet2 then amount else 0)
    ensures t.Pods(Wallet2) == [Pod0, Pod1] && t.Pods(Wallet3) == []
    ensures forall p, a :: t.PodView(p, a) ==
              (if a == Wallet2 && p in [Pod0, Pod1] then amount else 0)
  {
    t := Funded(Wallet2, amount);
    var st := t.AddPod(Wallet2, Pod0);
    assert st.Success?;
    st := t.AddPod(Wallet2, Pod1);
    assert st.Success?;
  }

  /** Two wallets with overlapping pods: Wallet2 holds `amount` tokens and
      pods Pod0 and Pod1, Wallet3 holds nothing and pods Pod1 and Pod2. */
  method TransferSetup(amount: nat) returns (t: ERC20Pods)
    requires amount > 0
    ensures fresh(t) && t.Valid()
    ensures t.BalanceOf(Wallet2) == amount && t.BalanceOf(Wallet3) == 0
    ensures t.Pods(Wallet2) == [Pod0, Pod1] && t.Pods(Wallet3) == [Pod1, Pod2]
    ensures t.faulty == {}
    ensures forall p, a :: t.PodView(p, a) ==
              (if a == Wallet2 && p in [Pod0, Pod1] then amount else 0)
  {
    t := SenderSetup(amount);
    var st := t.AddPod(Wallet3, Pod1);
    assert st.Success?;
    st := t.AddPod(Wallet3, Pod2);
    assert st.Success? && t.Pods(Wallet3) == [Pod1, Pod2];
  }

  /** A transfer between wallets with overlapping pods: the sender's pods
      are debited, the receiver's credited, and the rest left alone. */
  method Transfer(amount: nat)
    requires amount > 0
  {
    var t := TransferSetup(amount);
    var ts := t.Transfer(Wallet2, Wallet3, amount);
    assert ts.Done?;
    assert t.BalanceOf(Wallet2) == 0 && t.BalanceOf(Wallet3) == amount;
    assert t.PodView(Pod0, Wallet2) == 0 && t.PodView(Pod1, Wallet2) == 0;
    assert t.PodView(Pod1, Wallet3) == amount && t.PodView(Pod2, Wallet3) == amount;
    assert t.PodView(Pod0, Wallet3) == 0 && t.PodView(Pod2, Wallet2) == 0;
  }

  /** A zero amount and a self-transfer leave every pod's record alone. */
  method IdleTransfers(amount: nat)
    requires amount > 0
  {
    var t := Funded(Wallet1, amount);
    var st := t.AddPod(Wallet1, Pod0);
    assert st.Success?;
    assert t.PodView(Pod0, Wallet1) == amount && t.PodView(Pod0, Wallet2) == 0;
    assert t.BalanceOf(Wallet1) == amount;
    var ts := t.Transfer(Wallet1, Wallet2, 0);
    assert ts.Done?;
    assert t.PodView(Pod0, Wallet1) == amount && t.PodView(Pod0, Wallet2) == 0;
    assert t.BalanceOf(Wallet1) == amount;
    ts := t.Transfer(Wallet1, Wallet1, amount);
    assert ts.Done? && t.PodView(Pod0, Wallet1) == amount && t.BalanceOf(Wallet1) == amount;
  }
}
