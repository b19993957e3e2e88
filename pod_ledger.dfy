/** What the pods themselves hold: each pod keeps its own balance per account,
    which the token updates by notifying it. A pod that faults (reverts or runs
    out of gas) while being notified keeps its state, and the fault goes no
    further than the notification. */
module PodLedger {
  import opened AddressSets

  /** Each pod's balance for each account; missing entries are 0. */
  type Views = map<(Address, Address), int>

  /** How one notification ended: the pod accepted it, or it faulted and the
      fault was absorbed. There is no outcome that fails the caller. */
  datatype Delivery = Delivered | Suppressed

  function ViewOf(v: Views, pod: Address, account: Address): int {
    if (pod, account) in v then v[(pod, account)] else 0
  }

  /** What notifying every pod of `ps` of a change `delta` to `account`
      adds to `pod`'s view of `a`. */
  function Share(ps: seq<Address>, faulty: set<Address>, account: Address, delta: int,
                 pod: Address, a: Address): int
  {
    if a == account && pod in ps && pod !in faulty then delta else 0
  }

  /** Notifying `pod` of a change `delta` to `account`'s balance: a
      well-behaved pod moves its view of that account by `delta`; a faulty one
      leaves every view as it was. */
  function Deliver(v: Views, faulty: set<Address>, pod: Address, account: Address, delta: int): (r: Views)
    ensures forall p, a :: ViewOf(r, p, a) ==
              ViewOf(v, p, a) + (if p == pod && a == account && pod !in faulty then delta else 0)
  {
    if pod in faulty then v else v[(pod, account) := ViewOf(v, pod, account) + delta]
  }

  /** A notification followed by the opposite one leaves every view as it
      was: what registering and then deregistering a pod does to it. */
  lemma DeliverUndo(v: Views, faulty: set<Address>, pod: Address, account: Address, delta: int)
    ensures forall p, a :: ViewOf(Deliver(Deliver(v, faulty, pod, account, delta), faulty, pod, account, -delta), p, a) ==
                           ViewOf(v, p, a)
  {
  }

  /** Notifying the pods of `ps` in order. What it does to each record is
      stated by DeliverAllFrame and DeliverAllAt below. */
  function DeliverAll(v: Views, faulty: set<Address>, ps: seq<Address>, account: Address, delta: int): Views
    decreases |ps|
  {
    if ps == [] then v
    else Deliver(DeliverAll(v, faulty, ps[..|ps| - 1], account, delta), faulty, ps[|ps| - 1], account, delta)
  }

  /** Whatever the list, notifying it leaves alone every other account's
      records and the records of pods that are unlisted or faulty. */
  lemma {:induction false} DeliverAllFrame(v: Views, faulty: set<Address>, ps: seq<Address>, account: Address,
                                           delta: int, pod: Address, a: Address)
    requires a != account || pod !in ps || pod in faulty
    ensures ViewOf(DeliverAll(v, faulty, ps, account, delta), pod, a) == ViewOf(v, pod, a)
    decreases |ps|
  {
    if ps != [] {
      var init := ps[..|ps| - 1];
      assert pod in init ==> pod in ps;
      DeliverAllFrame(v, faulty, init, account, delta, pod, a);
    }
  }

  /** Notifying a duplicate-free list of pods moves each well-behaved listed
      pod's view of `account` by `delta` exactly once and changes nothing else. */
  lemma {:induction false} DeliverAllAt(v: Views, faulty: set<Address>, ps: seq<Address>, account: Address,
                                       delta: int, pod: Address, a: Address)
    requires NoDuplicates(ps)
    ensures ViewOf(DeliverAll(v, faulty, ps, account, delta), pod, a) ==
            ViewOf(v, pod, a) + Share(ps, faulty, account, delta, pod, a)
    decreases |ps|
  {
    if ps != [] {
      var init := ps[..|ps| - 1];
      var last := ps[|ps| - 1];
      assert NoDuplicates(init);
      DeliverAllAt(v, faulty, init, account, delta, pod, a);
      assert pod in ps <==> pod in init || pod == last by {
        assert ps == init + [last];
      }
      assert last !in init;
    }
  }

  /** A transfer's two rounds of notification: the sender's pods are
      debited, then the receiver's credited. */
  lemma DeliverTransferAt(v: Views, faulty: set<Address>, sent: seq<Address>, from: Address,
                          received: seq<Address>, to: Address, amount: nat)
    requires NoDuplicates(sent) && NoDuplicates(received)
    ensures forall p, a ::
              ViewOf(DeliverAll(DeliverAll(v, faulty, sent, from, -(amount as int)), faulty, received, to, amount), p, a) ==
              ViewOf(v, p, a) + Share(sent, faulty, from, -(amount as int), p, a) + Share(received, faulty, to, amount, p, a)
  {
    var mid := DeliverAll(v, faulty, sent, from, -(amount as int));
    forall p, a
      ensures ViewOf(DeliverAll(mid, faulty, received, to, amount), p, a) ==
              ViewOf(v, p, a) + Share(sent, faulty, from, -(amount as int), p, a) + Share(received, faulty, to, amount, p, a)
    {
      DeliverAllAt(v, faulty, sent, from, -(amount as int), p, a);
      DeliverAllAt(mid, faulty, received, to, amount, p, a);
    }
  }
}
