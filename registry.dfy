/** The checks that guard one account's pod list: the zero address is refused,
    a pod is held at most once, and the list never grows past the pods limit. */
module Registry {
  import opened AddressSets

  datatype PodError = InvalidPodAddress | PodAlreadyAdded | PodsLimitReachedForAccount | PodNotFound

  datatype Result<T> = Ok(value: T) | Err(error: PodError)

  /** Registering `pod` on a list that may hold at most `limit` pods. The checks
      run in the contract's order: zero address, then duplicate, then limit. */
  function AddChecked(s: AddressSet, pod: Address, limit: nat): (r: Result<AddressSet>)
    requires s.Valid()
    ensures r.Ok? <==> pod != Zero && pod !in s.items && |s.items| < limit
    ensures r.Ok? ==> r.value.Valid() && r.value.items == s.items + [pod]
    ensures r == Err(InvalidPodAddress) <==> pod == Zero
    ensures r == Err(PodAlreadyAdded) <==> pod != Zero && pod in s.items
    ensures r == Err(PodsLimitReachedForAccount) <==> pod != Zero && pod !in s.items && limit <= |s.items|
  {
    if pod == Zero then Err(InvalidPodAddress)
    else
      var (added, isNew) := s.Add(pod);
      if !isNew then Err(PodAlreadyAdded)
      else if added.Length() > limit then Err(PodsLimitReachedForAccount)
      else Ok(added)
  }

  /** Deregistering `pod`: refused when it is not on the list. */
  function RemoveChecked(s: AddressSet, pod: Address): (r: Result<AddressSet>)
    requires s.Valid()
    ensures r.Ok? <==> pod in s.items
    ensures r.Err? ==> r.error == PodNotFound
    ensures r.Ok? ==> r.value.Valid() && |r.value.items| == |s.items| - 1
    ensures r.Ok? ==> forall x :: x in r.value.items <==> x in s.items && x != pod
    ensures r.Ok? && s.items[|s.items| - 1] == pod ==> r.value.items == s.items[..|s.items| - 1]
  {
    var (removed, found) := s.Remove(pod);
    if found then Ok(removed) else Err(PodNotFound)
  }

  /** Deregistering a pod right after registering it gives back the list
      exactly as it was, order included. */
  lemma AddThenRemove(s: AddressSet, pod: Address, limit: nat)
    requires s.Valid() && AddChecked(s, pod, limit).Ok?
    ensures RemoveChecked(AddChecked(s, pod, limit).value, pod).Ok?
    ensures RemoveChecked(AddChecked(s, pod, limit).value, pod).value.items == s.items
  {
    var added := AddChecked(s, pod, limit).value;
    assert added.items[|added.items| - 1] == pod;
    assert added.items[..|added.items| - 1] == s.items;
  }

  /** Registering the pods of `ps` one after another, stopping at the first refusal. */
  function AddAll(s: AddressSet, ps: seq<Address>, limit: nat): (r: Result<AddressSet>)
    requires s.Valid()
    ensures r.Ok? ==> r.value.Valid()
    decreases |ps|
  {
    if ps == [] then Ok(s)
    else
      match AddChecked(s, ps[0], limit)
      case Err(e) => Err(e)
      case Ok(next) => AddAll(next, ps[1..], limit)
  }

  /** Deregistering the pods of `ps` one after another, stopping at the first refusal. */
  function RemoveAll(s: AddressSet, ps: seq<Address>): (r: Result<AddressSet>)
    requires s.Valid()
    ensures r.Ok? ==> r.value.Valid()
    decreases |ps|
  {
    if ps == [] then Ok(s)
    else
      match RemoveChecked(s, ps[0])
      case Err(e) => Err(e)
      case Ok(next) => RemoveAll(next, ps[1..])
  }

  /** `q` last entry first. */
  function Reversed(q: seq<Address>): (r: seq<Address>)
    ensures |r| == |q|
  {
    if q == [] then [] else [q[|q| - 1]] + Reversed(q[..|q| - 1])
  }

  /** Distinct, non-zero new pods are all accepted while they fit under the
      limit, and they are listed in the order they were added. */
  lemma {:induction false} AddAllWithinLimit(s: AddressSet, ps: seq<Address>, limit: nat)
    requires s.Valid() && NoDuplicates(ps)
    requires forall i | 0 <= i < |ps| :: ps[i] != Zero && ps[i] !in s.items
    requires |s.items| + |ps| <= limit
    ensures AddAll(s, ps, limit).Ok?
    ensures AddAll(s, ps, limit).value.items == s.items + ps
    decreases |ps|
  {
    if ps != [] {
      var next := AddChecked(s, ps[0], limit);
      var rest := ps[1..];
      assert next.Ok? && next.value.items == s.items + [ps[0]];
      assert NoDuplicates(rest) by {
        forall i, j | 0 <= i < j < |rest| ensures rest[i] != rest[j] {
          assert rest[i] == ps[i + 1] && rest[j] == ps[j + 1];
        }
      }
      assert forall i | 0 <= i < |rest| :: rest[i] != Zero && rest[i] !in next.value.items by {
        forall i | 0 <= i < |rest|
          ensures rest[i] != Zero && rest[i] !in next.value.items
        {
          assert rest[i] == ps[i + 1] && ps[0] != ps[i + 1];
        }
      }
      AddAllWithinLimit(next.value, rest, limit);
      AddAllStep(s, ps, limit);
      AppendFirst(s.items, ps);
    }
  }

  lemma AppendFirst(a: seq<Address>, ps: seq<Address>)
    requires ps != []
    ensures a + ps == a + [ps[0]] + ps[1..]
  {
    assert ps == [ps[0]] + ps[1..];
  }

  lemma AddAllStep(s: AddressSet, ps: seq<Address>, limit: nat)
    requires s.Valid() && ps != [] && AddChecked(s, ps[0], limit).Ok?
    ensures AddAll(s, ps, limit) == AddAll(AddChecked(s, ps[0], limit).value, ps[1..], limit)
  {
  }

  /** Exactly `limit` distinct pods fit on an empty list; one more distinct
      pod is refused with PodsLimitReachedForAccount. */
  lemma FillToLimit(ps: seq<Address>, extra: Address, limit: nat)
    requires NoDuplicates(ps) && |ps| == limit
    requires forall i | 0 <= i < |ps| :: ps[i] != Zero
    requires extra != Zero && extra !in ps
    ensures AddAll(EmptySet(), ps, limit).Ok?
    ensures AddAll(EmptySet(), ps, limit).value.items == ps
    ensures AddChecked(AddAll(EmptySet(), ps, limit).value, extra, limit) == Err(PodsLimitReachedForAccount)
  {
    AddAllWithinLimit(EmptySet(), ps, limit);
    assert [] + ps == ps;
  }

  /** Deregistering pods from the tail, last first, leaves the earlier pods
      at their positions. */
  lemma {:induction false} RemoveFromTail(s: AddressSet, k: nat)
    requires s.Valid() && k <= |s.items|
    ensures RemoveAll(s, Reversed(s.items[k..])).Ok?
    ensures RemoveAll(s, Reversed(s.items[k..])).value.items == s.items[..k]
    decreases |s.items| - k
  {
    var n := |s.items|;
    Slices(s.items, k);
    if k < n {
      RemoveLast(s, k);
      RemoveFromTail(RemoveChecked(s, s.items[n - 1]).value, k);
    }
  }

  /** One step of removing from the tail: the last entry goes first, and
      what remains is the list without its last entry. */
  lemma RemoveLast(s: AddressSet, k: nat)
    requires s.Valid() && k < |s.items|
    requires Reversed(s.items[k..]) == [s.items[|s.items| - 1]] + Reversed(s.items[..|s.items| - 1][k..])
    ensures RemoveChecked(s, s.items[|s.items| - 1]).Ok?
    ensures var next := RemoveChecked(s, s.items[|s.items| - 1]).value;
      && next.Valid() && next.items == s.items[..|s.items| - 1]
      && RemoveAll(s, Reversed(s.items[k..])) == RemoveAll(next, Reversed(next.items[k..]))
  {
    var last := s.items[|s.items| - 1];
    var r := RemoveChecked(s, last);
    assert r.Ok? && r.value.items == s.items[..|s.items| - 1];
    var rest := Reversed(r.value.items[k..]);
    assert Reversed(s.items[k..]) == [last] + rest;
    RemoveAllCons(s, last, rest);
  }

  lemma RemoveAllCons(s: AddressSet, x: Address, rest: seq<Address>)
    requires s.Valid() && RemoveChecked(s, x).Ok?
    ensures RemoveAll(s, [x] + rest) == RemoveAll(RemoveChecked(s, x).value, rest)
  {
    assert ([x] + rest)[0] == x && ([x] + rest)[1..] == rest;
  }

  /** The slicing facts that removing from the tail relies on. */
  lemma Slices(xs: seq<Address>, k: nat)
    requires k <= |xs|
    ensures k == |xs| ==> xs[k..] == [] && xs[..k] == xs
    ensures k < |xs| ==>
              var q := xs[k..];
              && Reversed(q) == [xs[|xs| - 1]] + Reversed(q[..|q| - 1])
              && q[..|q| - 1] == xs[..|xs| - 1][k..]
              && xs[..|xs| - 1][..k] == xs[..k]
  {
    if k < |xs| {
      var q := xs[k..];
      assert q[|q| - 1] == xs[|xs| - 1];
    }
  }
}
