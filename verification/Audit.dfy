/** The accounts read straight off the bytes of a store. */
module Audit {
  import opened Words
  import opened Outcomes
  import opened Keys
  import opened Sums
  import opened MarketStorage
  import opened Orders
  import opened Ledgers
  import opened Refinement
  import opened Accounting
  import opened Lifecycle

  predicate ShareKeyOf(k: Bytes, i: U64, side: Side) {
    Classify(k).Shares? && Classify(k).holding.market == i && Classify(k).holding.shareType == side.ShareType()
  }

  /** The share entries of one side of one market, by state key. */
  function ShareCells(d: Data, i: U64, side: Side): map<Bytes, nat> {
    map k | k in d && ShareKeyOf(k, i, side) && |d[k]| == 8 :: Parse64(d[k])
  }

  function BalanceCells(d: Data): map<Bytes, nat> {
    map k | k in d && Classify(k).Balance? && |d[k]| == 8 :: Parse64(d[k])
  }

  ghost function StoredShares(d: Data, i: U64, side: Side): nat {
    Sum(ShareCells(d, i, side))
  }

  ghost function StoredSupply(d: Data): nat {
    Sum(BalanceCells(d))
  }

  lemma ShareCell(d: Data, l: Ledger, h: Holding)
    requires Holds(d, l)
    ensures h in l.shares <==> Layout(Shares(h)) in d
    ensures h in l.shares ==>
              d[Layout(Shares(h))] == Pack64(l.shares[h]) && Parse64(d[Layout(Shares(h))]) == l.shares[h]
    ensures Classify(Layout(Shares(h))) == Shares(h)
  {
    hide Layout;
    EntryAt(l, Shares(h));
    ClassifyOfLayout(Shares(h));
    assert Lookup(d, Layout(Shares(h))) == Entry(l, Layout(Shares(h)));
    if h in l.shares {
      Parse64OfPack64(l.shares[h]);
    }
  }

  lemma BalanceCell(d: Data, l: Ledger, a: Address)
    requires Holds(d, l)
    ensures a in l.bal <==> Layout(Balance(a)) in d
    ensures a in l.bal ==> d[Layout(Balance(a))] == Pack64(l.bal[a]) && Parse64(d[Layout(Balance(a))]) == l.bal[a]
    ensures Classify(Layout(Balance(a))) == Balance(a)
  {
    hide Layout;
    EntryAt(l, Balance(a));
    ClassifyOfLayout(Balance(a));
    assert Lookup(d, Layout(Balance(a))) == Entry(l, Layout(Balance(a)));
    if a in l.bal {
      Parse64OfPack64(l.bal[a]);
    }
  }

  /** The share entries of a store add up to the ledger's holdings. */
  lemma StoredSharesAre(d: Data, l: Ledger, i: U64, side: Side)
    requires Holds(d, l)
    ensures StoredShares(d, i, side) == Held(l, i, side)
  {
    hide Layout, Classify, Holds, Pack64, Parse64, Sum;
    var m, n := HoldingsOf(l.shares, i, side.ShareType()), ShareCells(d, i, side);
    var f := (h: Holding) => Layout(Shares(h));
    forall h | h in m
      ensures f(h) in n && n[f(h)] == m[h]
    {
      ShareCell(d, l, h);
    }
    forall h, g | h in m && g in m && f(h) == f(g)
      ensures h == g
    {
      ShareCell(d, l, h);
      ShareCell(d, l, g);
    }
    forall k | k in n
      ensures exists h :: h in m && f(h) == k
    {
      LayoutOfClassify(k);
      var h := Classify(k).holding;
      ShareCell(d, l, h);
      assert f(h) == k;
    }
    SumRenamed(m, n, f);
  }

  lemma StoredSupplyIs(d: Data, l: Ledger)
    requires Holds(d, l)
    ensures StoredSupply(d) == Supply(l)
  {
    hide Layout, Classify, Holds, Pack64, Parse64, Sum;
    var n := BalanceCells(d);
    var f := (a: Address) => Layout(Balance(a));
    forall a | a in l.bal
      ensures f(a) in n && n[f(a)] == l.bal[a]
    {
      BalanceCell(d, l, a);
    }
    forall a, b | a in l.bal && b in l.bal && f(a) == f(b)
      ensures a == b
    {
      BalanceCell(d, l, a);
      BalanceCell(d, l, b);
    }
    forall k | k in n
      ensures exists a :: a in l.bal && f(a) == k
    {
      LayoutOfClassify(k);
      var a := Classify(k).owner;
      BalanceCell(d, l, a);
      assert f(a) == k;
    }
    SumRenamed(l.bal, n, f);
  }

  lemma MarketCell(d: Data, l: Ledger, i: U64)
    requires Holds(d, l)
    ensures Layout(Market(i)) in d <==> i in l.markets
    ensures i in l.markets ==> Decode(d[Layout(Market(i))]) == Some(l.markets[i])
  {
    EntryAt(l, Market(i));
    assert Lookup(d, Layout(Market(i))) == Entry(l, Layout(Market(i)));
    if i in l.markets {
      StorableIff(l.markets[i]);
      DecodeOfEncode(l.markets[i]);
    }
  }

  /** Share accounting on bytes.  After any run with fresh IDs from a store whose tallies are right, each market
      key holds a record whose totals are the sums of the share entries stored for it: modulo 2^64 whatever
      happened, and exactly if they were exact before and nothing wrapped. */
  lemma TotalsMatchShares(d: Data, l: Ledger, ss: seq<Step>, i: U64, side: Side)
    requires Holds(d, l) && Tallied(l) && FreshRun(l, ss) && Layout(Market(i)) in RunBytes(d, ss)
    ensures var d' := RunBytes(d, ss);
            var m := Decode(d'[Layout(Market(i))]);
            && m.Some?
            && side.Total(m.value) == Wrap(StoredShares(d', i, side))
            && (Sound(l) && NoWrapRun(l, ss) ==> side.Total(m.value) == StoredShares(d', i, side))
  {
    hide Layout, Decode, Holds, RunBytes, Run, Wrap, StoredShares, Held, FreshRun, NoWrapRun;
    RunSimulates(d, l, ss);
    TalliedRun(l, ss);
    MarketCell(RunBytes(d, ss), Run(l, ss), i);
    StoredSharesAre(RunBytes(d, ss), Run(l, ss), i, side);
    if Sound(l) && NoWrapRun(l, ss) {
      SoundRun(l, ss);
    }
  }

  /** Each market record that a run adds to a store decodes with its key's ID, open and pending, and goes back to
      a creation in the run, made strictly before its end time, which precedes its resolution time. */
  lemma StoredMarkets(d: Data, l: Ledger, ss: seq<Step>, i: U64) returns (j: nat)
    requires Holds(d, l) && FreshRun(l, ss)
    requires Layout(Market(i)) !in d && Layout(Market(i)) in RunBytes(d, ss)
    ensures var m := Decode(RunBytes(d, ss)[Layout(Market(i))]);
            && m.Some? && Proper(i, m.value)
            && j < |ss| && Creates(ss[j], i, Terms(m.value)) && ss[j].time < m.value.endTime
  {
    hide Layout, Decode, Holds, RunBytes, Run, FreshRun, Proper, Creates;
    RunSimulates(d, l, ss);
    MarketCell(d, l, i);
    MarketCell(RunBytes(d, ss), Run(l, ss), i);
    j := AddedMarkets(l, ss, i);
  }
}
