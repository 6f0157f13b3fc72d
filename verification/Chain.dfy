/** The chain as a whole: genesis, and then any run of transactions on the bytes it leaves. */
module Chain {
  import opened Words
  import opened Keys
  import opened State
  import opened MarketStorage
  import opened Orders
  import opened Ledgers
  import opened Refinement
  import opened Accounting
  import opened Lifecycle
  import opened Atomicity
  import opened Genesis
  import opened Audit

  /** A genesis list that issues a supply exactly. */
  predicate ProperGenesis(xs: seq<Allocation>) {
    && AllDecode(xs) && (forall i :: 0 <= i < |xs| ==> xs[i].amount > 0) && GrandTotal(xs) < TWO_64
  }

  /** The store that genesis leaves. */
  ghost function GenesisStore(rest: Data, xs: seq<Allocation>): Data {
    Allot(Healthy(rest), xs).view.data
  }

  lemma GenesisSound(rest: Data, xs: seq<Allocation>)
    requires AllDecode(xs)
    ensures var l := Allotted(xs, rest); Sound(l) && Tallied(l) && l.markets == map[] && AllTotals(l) == 0
  {
    assert TotalsOf(map[]) == map[];
  }

  /** From a proper genesis, for any transactions whose creations draw unused IDs, whose products fit in 64 bits
      and whose credits keep the issued supply below 2^64, the store ends up holding a ledger in which nothing
      has ever wrapped, totals are exactly what holders have, every token is accounted for, balances and totals
      together stay within the issued supply, and a failing transaction changes no byte. */
  lemma ChainTheorem(rest: Data, xs: seq<Allocation>, ss: seq<Step>, s: Step)
    requires Apart(rest) && ProperGenesis(xs)
    requires FreshRun(Allotted(xs, rest), ss) && CostsFit(ss)
    requires GrandTotal(xs) + Issued(Allotted(xs, rest), ss) < TWO_64
    ensures var start := Allotted(xs, rest);
            var d := RunBytes(GenesisStore(rest, xs), ss);
            var l := Run(start, ss);
            && Holds(d, l) && NoWrapRun(start, ss) && Sound(l)
            && StoredSupply(d) + Fees(start, ss) + Spent(start, ss) == GrandTotal(xs) + Issued(start, ss)
            && StoredSupply(d) + AllTotals(l) <= GrandTotal(xs) + Issued(start, ss)
            && (ApplyBytes(d, s).result.Err? ==> ApplyBytes(d, s).view.data == d)
  {
    hide Holds, NoOrphans, PositiveShares, Held, Allot, ApplyBytes, RunBytes, Supply, StoredSupply,
      AllTotals, GrandTotal, FreshRun, Apply;
    var start := Allotted(xs, rest);
    GenesisExact(rest, xs);
    GenesisSound(rest, xs);
    RunSimulates(GenesisStore(rest, xs), start, ss);
    Solvency(start, ss);
    NeverExceedsIssued(start, ss);
    CreditsAreExact(start, ss);
    ConservedIff(start, ss);
    ChargedIsProduct(start, ss);
    StoredSupplyIs(RunBytes(GenesisStore(rest, xs), ss), Run(start, ss));
    if ApplyBytes(RunBytes(GenesisStore(rest, xs), ss), s).result.Err? {
      FailureAtomic(RunBytes(GenesisStore(rest, xs), ss), Run(start, ss), s);
    }
  }

  /** Without the bounds on the supply.  After any genesis that goes through and any run with fresh IDs, every
      market key decodes to a proper record that goes back to a creation in the run, and its totals are the
      sums of the stored share entries modulo 2^64. */
  lemma ChainMarkets(rest: Data, xs: seq<Allocation>, ss: seq<Step>, i: U64) returns (j: nat)
    requires Apart(rest) && AllDecode(xs) && NeverAtZero(xs) && FreshRun(Allotted(xs, rest), ss)
    requires Layout(Market(i)) in RunBytes(GenesisStore(rest, xs), ss)
    ensures var d := RunBytes(GenesisStore(rest, xs), ss);
            var m := Decode(d[Layout(Market(i))]);
            && m.Some? && Proper(i, m.value)
            && j < |ss| && Creates(ss[j], i, Terms(m.value)) && ss[j].time < m.value.endTime
            && forall side: Side :: side.Total(m.value) == Wrap(StoredShares(d, i, side))
  {
    hide Layout, Decode, Holds, RunBytes, Allot, NeverAtZero, FreshRun, Tallied, Sound, Wrap, StoredShares,
      Proper, Creates;
    var start, d := Allotted(xs, rest), GenesisStore(rest, xs);
    GenesisOutcome(rest, xs);
    GenesisSound(rest, xs);
    MarketCell(d, start, i);
    j := StoredMarkets(d, start, ss, i);
    forall side: Side
      ensures side.Total(Decode(RunBytes(d, ss)[Layout(Market(i))]).value)
           == Wrap(StoredShares(RunBytes(d, ss), i, side))
    {
      TotalsMatchShares(d, start, ss, i, side);
    }
  }

  lemma {:induction false} CreditsAreExact(l: Ledger, ss: seq<Step>)
    requires NoWrapRun(l, ss)
    ensures CreditsFit(l, ss)
    decreases |ss|
  {
    if ss != [] {
      CreditsAreExact(Apply(l, ss[0]).ledger, ss[1..]);
    }
  }

  /** The bytes of one market and the share entries in it. */
  predicate BelongsTo(k: Bytes, i: U64) {
    match Classify(k)
    case Market(j) => i == j
    case Shares(h) => h.market == i
    case _ => false
  }

  /** After a market's end time its record and all share entries in it are frozen byte for byte. */
  lemma FreezeOnBytes(d: Data, l: Ledger, ss: seq<Step>, i: U64, now: I64, k: Bytes)
    requires Holds(d, l) && i in l.markets && l.markets[i].endTime < now
    requires FreshRun(l, ss) && Ordered(now, ss) && BelongsTo(k, i)
    ensures Lookup(RunBytes(d, ss), k) == Lookup(d, k)
  {
    hide Classify, RunBytes, Run, FreshRun;
    RunSimulates(d, l, ss);
    FreezeAfterEnd(l, ss, i, now);
    assert Lookup(d, k) == Entry(l, k);
    assert Lookup(RunBytes(d, ss), k) == Entry(Run(l, ss), k);
  }
}
