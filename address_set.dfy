/** Addresses and the insertion-ordered, duplicate-free address set that
    holds one account's registered pods. Membership is an O(1) lookup in an
    index map; removal swaps the last entry into the freed slot and shrinks. */
module AddressSets {

  /** An account or pod address; 0 is the zero address. */
  type Address = nat

  const Zero: Address := 0

  predicate NoDuplicates(s: seq<Address>) {
    forall i, j | 0 <= i < j < |s| :: s[i] != s[j]
  }

  /** `items` is the enumeration order; `lookup` maps each member to its
      1-based position in `items` and holds no other key. */
  datatype AddressSet = AddressSet(items: seq<Address>, lookup: map<Address, nat>) {

    ghost predicate Valid() {
      && (forall i | 0 <= i < |items| :: items[i] in lookup && lookup[items[i]] == i + 1)
      && (forall a | a in lookup :: a in items)
    }

    function Length(): (n: nat)
      ensures n == |items|
    {
      |items|
    }

    /** Membership through the index map agrees with membership in the list. */
    function Contains(a: Address): (r: bool)
      requires Valid()
      ensures r <==> a in items
    {
      a in lookup
    }

    /** The entry at `i`, or the zero address past the end. */
    function At(i: nat): (r: Address)
      ensures i < |items| ==> r == items[i]
      ensures |items| <= i ==> r == Zero
    {
      if i < |items| then items[i] else Zero
    }

    /** Appends `a` unless it is already a member; the flag says whether it was added. */
    function Add(a: Address): (r: (AddressSet, bool))
      requires Valid()
      ensures r.0.Valid()
      ensures r.1 <==> a !in items
      ensures r.0.items == if r.1 then items + [a] else items
    {
      if a in lookup then (this, false)
      else (AddressSet(items + [a], lookup[a := |items| + 1]), true)
    }

    /** Removes `a` if it is a member by moving the last entry into its slot
        and dropping the last slot; the flag says whether it was removed. */
    function Remove(a: Address): (r: (AddressSet, bool))
      requires Valid()
      ensures r.0.Valid()
      ensures r.1 <==> a in items
      ensures !r.1 ==> r.0 == this
      ensures r.1 ==> |r.0.items| == |items| - 1
      ensures forall x :: x in r.0.items <==> x in items && x != a
      ensures r.1 && items[|items| - 1] == a ==> r.0.items == items[..|items| - 1]
      ensures r.1 ==> forall i | 0 <= i < |r.0.items| ::
                        r.0.items[i] == items[i] || r.0.items[i] == items[|items| - 1]
    {
      if a !in lookup then (this, false)
      else
        var k := lookup[a] - 1;
        var n := |items| - 1;
        if k == n then
          PopValid(this);
          (Popped(this), true)
        else
          SwapPopValid(this, k);
          (SwapPopped(this, k), true)
    }
  }

  function EmptySet(): (s: AddressSet)
    ensures s.Valid() && s.items == []
  {
    AddressSet([], map[])
  }

  /** The index map makes the list duplicate-free. */
  lemma ValidNoDuplicates(s: AddressSet)
    requires s.Valid()
    ensures NoDuplicates(s.items)
  {
    forall i, j | 0 <= i < j < |s.items|
      ensures s.items[i] != s.items[j]
    {
      assert s.lookup[s.items[i]] == i + 1 && s.lookup[s.items[j]] == j + 1;
    }
  }

  /** The result of removing the last entry. */
  function Popped(s: AddressSet): AddressSet
    requires |s.items| > 0
  {
    AddressSet(s.items[..|s.items| - 1], s.lookup - {s.items[|s.items| - 1]})
  }

  /** The result of removing entry `k`, which is not the last, by swap-and-pop. */
  function SwapPopped(s: AddressSet, k: nat): AddressSet
    requires k < |s.items| - 1
  {
    var n := |s.items| - 1;
    AddressSet(s.items[..n][k := s.items[n]], (s.lookup - {s.items[k]})[s.items[n] := k + 1])
  }

  lemma PopValid(s: AddressSet)
    requires s.Valid() && |s.items| > 0
    ensures Popped(s).Valid()
    ensures forall x :: x in Popped(s).items <==> x in s.items && x != s.items[|s.items| - 1]
  {
    PopLookup(s);
    PopMembers(s);
  }

  lemma PopLookup(s: AddressSet)
    requires s.Valid() && |s.items| > 0
    ensures var t := Popped(s);
      forall a | a in t.lookup :: a in t.items
  {
    var n := |s.items| - 1;
    var t := Popped(s);
    forall a | a in t.lookup
      ensures a in t.items
    {
      var i := s.lookup[a] - 1;
      assert s.items[i] == a by {
        var j :| 0 <= j < |s.items| && s.items[j] == a;
      }
      assert i != n;
      assert t.items[i] == a;
    }
  }

  lemma PopMembers(s: AddressSet)
    requires s.Valid() && |s.items| > 0
    ensures forall x :: x in Popped(s).items <==> x in s.items && x != s.items[|s.items| - 1]
    ensures var t := Popped(s);
      forall i | 0 <= i < |t.items| :: t.items[i] in t.lookup && t.lookup[t.items[i]] == i + 1
  {
    var n := |s.items| - 1;
    var t := Popped(s);
    ValidNoDuplicates(s);
    forall i | 0 <= i < |t.items|
      ensures t.items[i] in t.lookup && t.lookup[t.items[i]] == i + 1
    {
      assert s.lookup[s.items[i]] == i + 1;
    }
    forall x ensures x in t.items <==> x in s.items && x != s.items[n] {
      if x in s.items && x != s.items[n] {
        var i :| 0 <= i < |s.items| && s.items[i] == x;
        assert t.items[i] == x;
      }
    }
  }

  lemma SwapPopValid(s: AddressSet, k: nat)
    requires s.Valid() && k < |s.items| - 1
    ensures SwapPopped(s, k).Valid()
    ensures |SwapPopped(s, k).items| == |s.items| - 1
    ensures forall i | 0 <= i < |s.items| - 1 ::
              SwapPopped(s, k).items[i] == if i == k then s.items[|s.items| - 1] else s.items[i]
    ensures forall x :: x in SwapPopped(s, k).items <==> x in s.items && x != s.items[k]
  {
    SwapPopItems(s, k);
    SwapPopLookup(s, k);
    SwapPopMembers(s, k);
  }

  lemma SwapPopItems(s: AddressSet, k: nat)
    requires s.Valid() && k < |s.items| - 1
    ensures var t := SwapPopped(s, k);
      forall i | 0 <= i < |t.items| :: t.items[i] in t.lookup && t.lookup[t.items[i]] == i + 1
  {
    var n := |s.items| - 1;
    var t := SwapPopped(s, k);
    forall i | 0 <= i < n
      ensures t.items[i] in t.lookup && t.lookup[t.items[i]] == i + 1
    {
      if i != k {
        assert s.lookup[s.items[i]] == i + 1;
        assert s.lookup[s.items[k]] == k + 1;
        assert s.lookup[s.items[n]] == n + 1;
      }
    }
  }

  lemma SwapPopLookup(s: AddressSet, k: nat)
    requires s.Valid() && k < |s.items| - 1
    ensures var t := SwapPopped(s, k);
      forall a | a in t.lookup :: 1 <= t.lookup[a] <= |t.items| && t.items[t.lookup[a] - 1] == a
  {
    var n := |s.items| - 1;
    var t := SwapPopped(s, k);
    forall a | a in t.lookup
      ensures 1 <= t.lookup[a] <= n && t.items[t.lookup[a] - 1] == a
    {
      if a != s.items[n] {
        assert s.items[s.lookup[a] - 1] == a;
        assert s.lookup[s.items[n]] == n + 1;
      }
    }
  }

  lemma SwapPopMembers(s: AddressSet, k: nat)
    requires s.Valid() && k < |s.items| - 1
    ensures forall x :: x in SwapPopped(s, k).items <==> x in s.items && x != s.items[k]
  {
    var n := |s.items| - 1;
    var t := SwapPopped(s, k);
    forall x ensures x in t.items <==> x in s.items && x != s.items[k] {
      if x in s.items && x != s.items[k] {
        var i :| 0 <= i < |s.items| && s.items[i] == x;
        assert t.items[if i == n then k else i] == x;
      }
      if x in t.items {
        var i :| 0 <= i < n && t.items[i] == x;
        assert s.lookup[s.items[k]] == k + 1;
        assert s.lookup[s.items[i]] == i + 1;
        assert s.lookup[s.items[n]] == n + 1;
      }
    }
  }
}
