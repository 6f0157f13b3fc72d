/** genesis/genesis.go: the allocation loop.  Bech32 decoding is an input: each allocation comes with the
    bytes its address decodes to, or with nothing when it does not decode. */
module Genesis {
  import opened Words
  import opened Outcomes
  import opened Keys
  import opened State
  import opened Storage
  import opened Sums
  import opened Ledgers
  import opened Refinement
  import opened Accounting
  import opened Controllers

  datatype Allocation = Allocation(address: Option<Bytes>, amount: U64)

  /** The decoded bytes, filled up with zeros to an address. */
  function Padded(bs: Bytes): Address
    requires |bs| <= ADDRESS_LEN
  {
    bs + seq(ADDRESS_LEN - |bs|, _ => 0)
  }

  predicate Decodes(x: Allocation) {
    x.address.Some? && |x.address.value| <= ADDRESS_LEN
  }

  /** Credits the allocations in order and stops at the first error, keeping what was credited before it. */
  function Allot(v: View, xs: seq<Allocation>): Effect
    decreases |xs|
  {
    if xs == [] then Effect(v, Ok(Nothing))
    else if !Decodes(xs[0]) then Effect(v, Err(BadAddress))
    else
      var e := Raise(v, Layout(Balance(Padded(xs[0].address.value))), xs[0].amount);
      if e.result.Err? then e else Allot(e.view, xs[1..])
  }

  method InitializeState(allocations: seq<Allocation>, mu: Store, bh: Controller) returns (r: Result<Output>)
    modifies mu
    ensures Effect(mu.Snapshot(), r) == Allot(old(mu.Snapshot()), allocations)
  {
    assert allocations[0..] == allocations;
    for i := 0 to |allocations|
      invariant Allot(mu.Snapshot(), allocations[i..]) == Allot(old(mu.Snapshot()), allocations)
    {
      assert allocations[i..][1..] == allocations[i + 1..];
      var alloc := allocations[i];
      if alloc.address == None {
        return Err(BadAddress);
      }
      var data8bit := alloc.address.value;
      if |data8bit| > ADDRESS_LEN {
        return Err(BadAddress);
      }
      var addr := new Byte[ADDRESS_LEN](_ => 0);
      CopyInto(addr, 0, data8bit);
      assert addr[..] == Padded(data8bit);
      var credited := bh.AddBalance(addr[..], mu, alloc.amount);
      if credited.Err? {
        return credited;
      }
    }
    r := Ok(Nothing);
  }

  predicate AllDecode(xs: seq<Allocation>) {
    forall i :: 0 <= i < |xs| ==> Decodes(xs[i])
  }

  function AddressOf(x: Allocation): Address
    requires Decodes(x)
  {
    Padded(x.address.value)
  }

  /** The allocation names this account: the decoded bytes begin its address and zeros fill up the rest. */
  predicate Names(x: Allocation, a: Address) {
    && x.address.Some? && x.address.value <= a
    && forall i :: |x.address.value| <= i < 33 ==> a[i] == 0
  }

  /** An allocation decodes when it has at most 33 bytes, and it reaches exactly the account it names: with all 33
      bytes given, those bytes themselves. */
  lemma AddressOfIff(x: Allocation, a: Address)
    ensures Decodes(x) <==> x.address.Some? && |x.address.value| <= 33
    ensures Decodes(x) ==> (AddressOf(x) == a <==> Names(x, a))
    ensures Names(x, a) ==> Decodes(x)
    ensures x.address.Some? && |x.address.value| == 33 ==> (Names(x, a) <==> x.address.value == a)
  {
    if Decodes(x) && Names(x, a) {
      assert AddressOf(x) == a;
    }
  }

  /** What an allocation gives to one address. */
  function Share(x: Allocation, a: Address): nat {
    if Decodes(x) && AddressOf(x) == a then x.amount else 0
  }

  function ShareTo(a: Address): Allocation -> nat {
    x => Share(x, a)
  }

  function AmountOf(): Allocation -> nat {
    (x: Allocation) => x.amount
  }

  /** Everything the list allocates to one address. */
  function Given(xs: seq<Allocation>, a: Address): nat {
    Total(xs, ShareTo(a))
  }

  function GrandTotal(xs: seq<Allocation>): nat {
    Total(xs, AmountOf())
  }

  function Recipients(xs: seq<Allocation>): set<Address>
    requires AllDecode(xs)
  {
    set i | 0 <= i < |xs| :: AddressOf(xs[i])
  }

  /** The address has been credited, and the sum of its allocations is zero modulo 2^64. */
  predicate AtZero(xs: seq<Allocation>, a: Address)
    requires AllDecode(xs)
  {
    a in Recipients(xs) && Wrap(Given(xs, a)) == 0
  }

  /** No address is credited again while the running sum of its allocations is zero modulo 2^64. */
  predicate NeverAtZero(xs: seq<Allocation>)
    requires AllDecode(xs)
  {
    forall i :: 0 <= i < |xs| ==> !AtZero(xs[..i], AddressOf(xs[i]))
  }

  /** Each recipient's sum, modulo 2^64. */
  function Allotted(xs: seq<Allocation>, rest: map<Bytes, Bytes>): Ledger
    requires AllDecode(xs)
  {
    Ledger(map a | a in Recipients(xs) :: Wrap(Given(xs, a)), map[], map[], rest)
  }

  lemma {:induction false} AllotAppend(v: View, xs: seq<Allocation>, x: Allocation)
    ensures Allot(v, xs + [x]) ==
            if Allot(v, xs).result.Err? then Allot(v, xs) else Allot(Allot(v, xs).view, [x])
    decreases |xs|
  {
    if xs == [] {
      assert xs + [x] == [x];
    } else {
      assert (xs + [x])[1..] == xs[1..] + [x];
      if Decodes(xs[0]) {
        var e := Raise(v, Layout(Balance(AddressOf(xs[0]))), xs[0].amount);
        AllotAppend(e.view, xs[1..], x);
      }
    }
  }

  lemma RecipientsAppend(xs: seq<Allocation>, x: Allocation)
    requires AllDecode(xs) && Decodes(x)
    ensures AllDecode(xs + [x]) && Recipients(xs + [x]) == Recipients(xs) + {AddressOf(x)}
  {
    var all := xs + [x];
    forall a | a in Recipients(xs) + {AddressOf(x)}
      ensures a in Recipients(all)
    {
      if a in Recipients(xs) {
        var i :| 0 <= i < |xs| && AddressOf(xs[i]) == a;
        assert all[i] == xs[i];
      } else {
        assert all[|xs|] == x;
      }
    }
  }

  lemma {:induction false} GivenToOthers(xs: seq<Allocation>, a: Address)
    requires AllDecode(xs) && a !in Recipients(xs)
    ensures Given(xs, a) == 0
  {
    if xs != [] {
      var init, last := xs[..|xs| - 1], xs[|xs| - 1];
      assert xs == init + [last];
      RecipientsAppend(init, last);
      GivenToOthers(init, a);
    }
  }

  lemma NeverAtZeroAppend(xs: seq<Allocation>, x: Allocation)
    requires AllDecode(xs) && Decodes(x)
    ensures AllDecode(xs + [x])
    ensures NeverAtZero(xs + [x]) <==> NeverAtZero(xs) && !AtZero(xs, AddressOf(x))
  {
    var all := xs + [x];
    assert all[..|xs|] == xs && all[|xs|] == x;
    assert forall i :: 0 <= i < |xs| ==> all[i] == xs[i] && all[..i] == xs[..i];
  }

  lemma GivenAppend(xs: seq<Allocation>, x: Allocation, b: Address)
    requires AllDecode(xs) && Decodes(x)
    ensures AllDecode(xs + [x]) && Given(xs + [x], b) == Given(xs, b) + Share(x, b)
  {
    assert (xs + [x])[..|xs|] == xs;
  }

  /** One more allocation on top of a list that went through. */
  lemma AllottedAppend(xs: seq<Allocation>, x: Allocation, rest: map<Bytes, Bytes>)
    requires AllDecode(xs) && Decodes(x)
    ensures AllDecode(xs + [x])
    ensures var l, a := Allotted(xs, rest), AddressOf(x);
            var m := ApplyCredit(l, a, x.amount);
            && (m.result.Ok? <==> !AtZero(xs, a))
            && (m.result.Ok? ==> m.ledger == Allotted(xs + [x], rest))
  {
    hide Wrap, AddressOf, Recipients, Given;
    var l, a, all := Allotted(xs, rest), AddressOf(x), xs + [x];
    RecipientsAppend(xs, x);
    if a !in Recipients(xs) {
      GivenToOthers(xs, a);
    }
    WrapAdd(Given(xs, a), x.amount);
    WrapZero();
    var after := l.bal[a := Wrap(Wrap(Given(xs, a)) + x.amount)];
    forall b | b in Recipients(all)
      ensures after[b] == Wrap(Given(all, b))
    {
      GivenAppend(xs, x, b);
    }
    assert after == Allotted(all, rest).bal;
  }

  /** Genesis on a store without ledger entries, for every list whose addresses decode: it goes through
      exactly when no address comes up again at a zero sum, and then every recipient has the sum of its
      allocations modulo 2^64 and nothing else is stored. */
  lemma {:induction false} GenesisOutcome(rest: Data, xs: seq<Allocation>)
    requires Apart(rest) && AllDecode(xs)
    ensures var e := Allot(Healthy(rest), xs);
            && (e.result.Ok? <==> NeverAtZero(xs))
            && (e.result.Ok? ==> e.view == Healthy(e.view.data) && Holds(e.view.data, Allotted(xs, rest)))
    decreases |xs|
  {
    hide Layout, Holds, Raise, Padded, Wrap;
    if xs == [] {
      EmptyHolds(rest);
      assert Allotted(xs, rest) == Empty(rest);
    } else {
      var init, x := xs[..|xs| - 1], xs[|xs| - 1];
      assert xs == init + [x];
      GenesisOutcome(rest, init);
      AllotAppend(Healthy(rest), init, x);
      NeverAtZeroAppend(init, x);
      var e := Allot(Healthy(rest), init);
      if e.result.Ok? {
        RaiseBalance(e.view, Allotted(init, rest), AddressOf(x), x.amount);
        AllottedAppend(init, x, rest);
        AllotOne(e.view, x);
      }
    }
  }

  /** What any genesis leaves, failed ones included: the allocations up to the first one that is too long or did not
      decode, or whose account stands at a zero sum; all of them exactly when there is none. */
  lemma {:induction false} GenesisKeepsPrefix(rest: Data, xs: seq<Allocation>) returns (n: nat)
    requires Apart(rest)
    ensures n <= |xs| && AllDecode(xs[..n]) && NeverAtZero(xs[..n])
    ensures var e := Allot(Healthy(rest), xs);
            && e.view == Healthy(e.view.data) && Holds(e.view.data, Allotted(xs[..n], rest))
            && (e.result.Ok? <==> n == |xs|)
            && (n < |xs| ==>
                  if xs[n].address.Some? && |xs[n].address.value| <= 33
                  then e.result == Err(Malformed) && AtZero(xs[..n], AddressOf(xs[n]))
                  else e.result == Err(BadAddress))
    decreases |xs|
  {
    hide Layout, Holds, Raise, Padded, Wrap, Allotted;
    if xs == [] {
      EmptyHolds(rest);
      NothingAllotted(rest);
      n := 0;
      assert xs[..0] == [];
    } else {
      var init, x := xs[..|xs| - 1], xs[|xs| - 1];
      assert xs == init + [x];
      n := GenesisKeepsPrefix(rest, init);
      assert init[..n] == xs[..n];
      AllotAppend(Healthy(rest), init, x);
      var e := Allot(Healthy(rest), init);
      if e.result.Ok? {
        assert init[..n] == init;
        if Decodes(x) {
          RaiseBalance(e.view, Allotted(init, rest), AddressOf(x), x.amount);
          AllottedAppend(init, x, rest);
          NeverAtZeroAppend(init, x);
          AllotOne(e.view, x);
          if Allot(Healthy(rest), xs).result.Ok? {
            n := |xs|;
            assert xs[..n] == xs;
          }
        }
      }
    }
  }

  /** The sum of the allocations that name an account. */
  function NamedSum(xs: seq<Allocation>, a: Address): nat {
    if xs == [] then 0
    else NamedSum(xs[..|xs| - 1], a) + if Names(xs[|xs| - 1], a) then xs[|xs| - 1].amount else 0
  }

  lemma {:induction false} NamedSumIsGiven(xs: seq<Allocation>, a: Address)
    ensures NamedSum(xs, a) == Given(xs, a)
  {
    if xs != [] {
      NamedSumIsGiven(xs[..|xs| - 1], a);
      AddressOfIff(xs[|xs| - 1], a);
    }
  }

  lemma RecipientIff(xs: seq<Allocation>, a: Address)
    requires AllDecode(xs)
    ensures a in Recipients(xs) <==> exists i :: 0 <= i < |xs| && Names(xs[i], a)
  {
    hide AddressOf, Names;
    forall i | 0 <= i < |xs|
      ensures AddressOf(xs[i]) == a <==> Names(xs[i], a)
    {
      AddressOfIff(xs[i], a);
    }
  }

  /** On the bytes: after a genesis that goes through, the entry under 3, an address, 0 and 1 is there exactly when some
      allocation names that address, and is the sum of those that do, modulo 2^64. */
  lemma GenesisOnBytes(rest: Data, xs: seq<Allocation>, a: Address)
    requires Apart(rest) && Allot(Healthy(rest), xs).result.Ok?
    ensures Lookup(Allot(Healthy(rest), xs).view.data, [3] + a + [0, 1]) ==
            if exists i :: 0 <= i < |xs| && Names(xs[i], a)
            then Some(Pack64(NamedSum(xs, a) % 0x1_0000_0000_0000_0000)) else None
  {
    hide Layout, Allot, Allotted, Pack64, Names, NamedSum, Given, Recipients;
    var n := GenesisKeepsPrefix(rest, xs);
    assert xs[..n] == xs;
    var d, l := Allot(Healthy(rest), xs).view.data, Allotted(xs, rest);
    BalanceKeyBytes(a);
    EntryAt(l, Balance(a));
    assert Lookup(d, Layout(Balance(a))) == Entry(l, Layout(Balance(a)));
    NamedSumIsGiven(xs, a);
    RecipientIff(xs, a);
    AllottedAt(xs, rest, a);
  }

  lemma AllottedAt(xs: seq<Allocation>, rest: map<Bytes, Bytes>, a: Address)
    requires AllDecode(xs)
    ensures a in Allotted(xs, rest).bal <==> a in Recipients(xs)
    ensures a in Recipients(xs) ==> Allotted(xs, rest).bal[a] == Wrap(Given(xs, a))
  {
    hide Recipients, Given, Wrap;
  }

  lemma NothingAllotted(rest: map<Bytes, Bytes>)
    ensures Allotted([], rest) == Empty(rest)
  {
  }

  lemma AllotOne(v: View, x: Allocation)
    requires Decodes(x)
    ensures Allot(v, [x]).result.Ok? == Raise(v, Layout(Balance(AddressOf(x))), x.amount).result.Ok?
    ensures Allot(v, [x]).view == Raise(v, Layout(Balance(AddressOf(x))), x.amount).view
  {
    var e := Raise(v, Layout(Balance(AddressOf(x))), x.amount);
    assert [x][1..] == [];
    assert Allot(e.view, []) == Effect(e.view, Ok(Nothing));
  }

  lemma {:induction false} GivenWithinTotal(xs: seq<Allocation>, a: Address)
    requires AllDecode(xs)
    ensures Given(xs, a) <= GrandTotal(xs)
  {
    if xs != [] {
      GivenWithinTotal(xs[..|xs| - 1], a);
    }
  }

  lemma {:induction false} TotalOfPrefix(xs: seq<Allocation>, i: nat)
    requires i <= |xs|
    ensures GrandTotal(xs[..i]) <= GrandTotal(xs)
    decreases |xs|
  {
    if i < |xs| {
      assert xs[..|xs| - 1][..i] == xs[..i];
      TotalOfPrefix(xs[..|xs| - 1], i);
    } else {
      assert xs[..i] == xs;
    }
  }

  lemma {:induction false} GivenPositive(xs: seq<Allocation>, a: Address)
    requires AllDecode(xs) && a in Recipients(xs)
    requires forall i :: 0 <= i < |xs| ==> xs[i].amount > 0
    ensures Given(xs, a) > 0
  {
    var init, last := xs[..|xs| - 1], xs[|xs| - 1];
    assert xs == init + [last];
    RecipientsAppend(init, last);
    if a != AddressOf(last) {
      GivenPositive(init, a);
    }
  }

  lemma AllottedGrows(xs: seq<Allocation>, x: Allocation, rest: map<Bytes, Bytes>)
    requires AllDecode(xs) && Decodes(x)
    ensures AllDecode(xs + [x])
    ensures var a := AddressOf(x);
            Allotted(xs + [x], rest).bal == Allotted(xs, rest).bal[a := Wrap(Given(xs + [x], a))]
  {
    hide Wrap, AddressOf, Recipients, Given;
    RecipientsAppend(xs, x);
    forall b | b in Recipients(xs) && b != AddressOf(x)
      ensures Given(xs + [x], b) == Given(xs, b)
    {
      GivenAppend(xs, x, b);
    }
    assert Allotted(xs + [x], rest).bal == Allotted(xs, rest).bal[AddressOf(x) := Wrap(Given(xs + [x], AddressOf(x)))];
  }

  lemma {:induction false} AllottedSupply(xs: seq<Allocation>, rest: map<Bytes, Bytes>)
    requires AllDecode(xs) && GrandTotal(xs) < TWO_64
    ensures Supply(Allotted(xs, rest)) == GrandTotal(xs)
  {
    hide Wrap, AddressOf, Given, Sum;
    if xs == [] {
      EmptySound(rest);
      assert Allotted(xs, rest) == Empty(rest);
    } else {
      var init, x := xs[..|xs| - 1], xs[|xs| - 1];
      var k, a := Allotted(init, rest), AddressOf(x);
      assert xs == init + [x];
      AllottedSupply(init, rest);
      AllottedGrows(init, x, rest);
      GivenAppend(init, x, a);
      GivenWithinTotal(xs, a);
      WrapSmall(Given(xs, a));
      WrapSmall(Given(init, a));
      if a !in Recipients(init) {
        GivenToOthers(init, a);
      }
      SumUpdate(k.bal, a, Given(xs, a));
    }
  }

  lemma PositiveNeverAtZero(xs: seq<Allocation>)
    requires AllDecode(xs)
    requires (forall i :: 0 <= i < |xs| ==> xs[i].amount > 0) && GrandTotal(xs) < TWO_64
    ensures NeverAtZero(xs)
  {
    hide Wrap, AddressOf, Recipients, Given, GrandTotal;
    forall i | 0 <= i < |xs| && AddressOf(xs[i]) in Recipients(xs[..i])
      ensures !AtZero(xs[..i], AddressOf(xs[i]))
    {
      var a := AddressOf(xs[i]);
      GivenPositive(xs[..i], a);
      GivenWithinTotal(xs[..i], a);
      TotalOfPrefix(xs, i);
      WrapSmall(Given(xs[..i], a));
    }
  }

  /** With positive amounts that sum to less than 2^64 genesis always goes through, gives every address the
      exact sum of its allocations, and issues exactly the sum of all of them. */
  lemma GenesisExact(rest: Data, xs: seq<Allocation>)
    requires Apart(rest) && AllDecode(xs)
    requires (forall i :: 0 <= i < |xs| ==> xs[i].amount > 0) && GrandTotal(xs) < TWO_64
    ensures var e := Allot(Healthy(rest), xs);
            e.result.Ok? && Holds(e.view.data, Allotted(xs, rest))
    ensures forall a :: a in Recipients(xs) ==> Allotted(xs, rest).bal[a] == Given(xs, a)
    ensures Supply(Allotted(xs, rest)) == GrandTotal(xs)
  {
    hide Wrap, AddressOf, Recipients, Given, GrandTotal, Allot, Holds, Supply;
    PositiveNeverAtZero(xs);
    GenesisOutcome(rest, xs);
    AllottedSupply(xs, rest);
    forall a | a in Recipients(xs)
      ensures Allotted(xs, rest).bal[a] == Given(xs, a)
    {
      GivenWithinTotal(xs, a);
      WrapSmall(Given(xs, a));
    }
  }

  /** The same on the bytes: the entry of every address that is named reads as the exact sum of what names it. */
  lemma GenesisExactOnBytes(rest: Data, xs: seq<Allocation>, a: Address)
    requires Apart(rest) && AllDecode(xs)
    requires (forall i :: 0 <= i < |xs| ==> xs[i].amount > 0) && GrandTotal(xs) < TWO_64
    ensures var d, k := Allot(Healthy(rest), xs).view.data, [3] + a + [0, 1];
            && (k in d <==> exists i :: 0 <= i < |xs| && Names(xs[i], a))
            && (k in d ==> |d[k]| == 8 && FromBE(d[k]) == NamedSum(xs, a))
  {
    hide Allot, Pack64, Names, NamedSum, Given, GrandTotal;
    GenesisExact(rest, xs);
    GenesisOnBytes(rest, xs, a);
    NamedSumIsGiven(xs, a);
    GivenWithinTotal(xs, a);
    Parse64OfPack64(NamedSum(xs, a));
  }

  /** A list of positive amounts that sum to less than 2^64 goes through in every order, and every order leaves
      the same store. */
  lemma GenesisAnyOrder(rest: Data, xs: seq<Allocation>, ys: seq<Allocation>)
    requires Apart(rest) && AllDecode(xs) && multiset(xs) == multiset(ys)
    requires (forall i :: 0 <= i < |xs| ==> xs[i].amount > 0) && GrandTotal(xs) < TWO_64
    ensures Allot(Healthy(rest), xs).result.Ok?
    ensures Allot(Healthy(rest), xs) == Allot(Healthy(rest), ys)
  {
    hide Allot, Decodes, Total, Holds, Allotted;
    forall i | 0 <= i < |ys|
      ensures Decodes(ys[i]) && ys[i].amount > 0
    {
      var _ := FindIn(ys, xs, ys[i]);
    }
    TotalReordered(xs, ys, AmountOf());
    GenesisExact(rest, xs);
    GenesisExact(rest, ys);
    GenesisOrderIndependent(rest, xs, ys);
  }

  /** With zero or wrapping sums too: two orders of one list that both go through end in the same store. */
  lemma GenesisOrderIndependent(rest: Data, xs: seq<Allocation>, ys: seq<Allocation>)
    requires Apart(rest) && AllDecode(xs) && AllDecode(ys) && multiset(xs) == multiset(ys)
    requires Allot(Healthy(rest), xs).result.Ok? && Allot(Healthy(rest), ys).result.Ok?
    ensures Allot(Healthy(rest), xs) == Allot(Healthy(rest), ys)
  {
    hide Allot, Padded, Layout, Wrap, Holds;
    GenesisOutcome(rest, xs);
    GenesisOutcome(rest, ys);
    forall a: Address
      ensures Given(xs, a) == Given(ys, a)
      ensures a in Recipients(xs) <==> a in Recipients(ys)
    {
      TotalReordered(xs, ys, ShareTo(a));
      SameRecipients(xs, ys, a);
      SameRecipients(ys, xs, a);
    }
    assert Allotted(xs, rest).bal == Allotted(ys, rest).bal;
    StoreUnique(Allot(Healthy(rest), xs).view.data, Allot(Healthy(rest), ys).view.data, Allotted(xs, rest));
    OkIsNothing(Healthy(rest), xs);
    OkIsNothing(Healthy(rest), ys);
  }

  lemma SameRecipients(xs: seq<Allocation>, ys: seq<Allocation>, a: Address)
    requires AllDecode(xs) && AllDecode(ys) && multiset(xs) == multiset(ys)
    ensures a in Recipients(xs) ==> a in Recipients(ys)
  {
    if a in Recipients(xs) {
      var i :| 0 <= i < |xs| && AddressOf(xs[i]) == a;
      assert xs[i] in multiset(ys);
    }
  }

  lemma {:induction false} OkIsNothing(v: View, xs: seq<Allocation>)
    ensures Allot(v, xs).result.Ok? ==> Allot(v, xs).result == Ok(Nothing)
    decreases |xs|
  {
    if xs != [] && Decodes(xs[0]) {
      OkIsNothing(Raise(v, Layout(Balance(AddressOf(xs[0]))), xs[0].amount).view, xs[1..]);
    }
  }
}
