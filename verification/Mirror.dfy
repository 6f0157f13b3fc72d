/** YES and NO are mirror images: exchanging the sides of a ledger and of every order changes nothing else. */
module Mirror {
  import opened Words
  import opened Outcomes
  import opened Keys
  import opened MarketStorage
  import opened Orders
  import opened CreateMarkets
  import opened Ledgers
  import opened Refinement

  function FlipType(t: Byte): Byte {
    if t == Yes.ShareType() then No.ShareType() else if t == No.ShareType() then Yes.ShareType() else t
  }

  function FlipHolding(h: Holding): Holding {
    h.(shareType := FlipType(h.shareType))
  }

  function FlipRecord(m: Record): Record {
    m.(totalYes := m.totalNo, totalNo := m.totalYes)
  }

  function FlipShares(shares: map<Holding, U64>): map<Holding, U64> {
    map h | h in (set g | g in shares :: FlipHolding(g)) :: shares[FlipHolding(h)]
  }

  function FlipMarkets(markets: map<U64, Record>): map<U64, Record> {
    map i | i in markets :: FlipRecord(markets[i])
  }

  function Flip(l: Ledger): Ledger {
    l.(markets := FlipMarkets(l.markets), shares := FlipShares(l.shares))
  }

  function FlipStep(s: Step): Step {
    if s.Buy? then s.(side := s.side.Other()) else s
  }

  function FlipSteps(ss: seq<Step>): (r: seq<Step>)
    ensures |r| == |ss|
  {
    seq(|ss|, i requires 0 <= i < |ss| => FlipStep(ss[i]))
  }

  lemma FlippedShares(shares: map<Holding, U64>, h: Holding)
    ensures FlipHolding(FlipHolding(h)) == h
    ensures h in FlipShares(shares) <==> FlipHolding(h) in shares
    ensures h in FlipShares(shares) ==> FlipShares(shares)[h] == shares[FlipHolding(h)]
  {
    if FlipHolding(h) in shares {
      assert h == FlipHolding(FlipHolding(h));
    }
  }

  lemma FlipSharesTwice(shares: map<Holding, U64>)
    ensures FlipShares(FlipShares(shares)) == shares
  {
    hide FlipShares, FlipHolding;
    var twice := FlipShares(FlipShares(shares));
    forall h: Holding
      ensures h in twice <==> h in shares
      ensures h in shares ==> twice[h] == shares[h]
    {
      FlippedShares(FlipShares(shares), h);
      FlippedShares(shares, FlipHolding(h));
    }
  }

  /** Flipping twice gives the ledger back. */
  lemma FlipTwice(l: Ledger)
    ensures Flip(Flip(l)) == l
  {
    FlipSharesTwice(l.shares);
    hide FlipShares;
    assert FlipMarkets(FlipMarkets(l.markets)) == l.markets;
  }

  lemma FlipUpdate(shares: map<Holding, U64>, h: Holding, x: U64)
    ensures FlipShares(shares[h := x]) == FlipShares(shares)[FlipHolding(h) := x]
  {
    var a, b := FlipShares(shares[h := x]), FlipShares(shares)[FlipHolding(h) := x];
    forall g: Holding
      ensures g in a <==> g in b
      ensures g in a ==> a[g] == b[g]
    {
      FlippedShares(shares, g);
      FlippedShares(shares[h := x], g);
      FlippedShares(shares, h);
    }
  }

  lemma FlipMarketUpdate(markets: map<U64, Record>, i: U64, m: Record)
    ensures FlipMarkets(markets[i := m]) == FlipMarkets(markets)[i := FlipRecord(m)]
  {
  }

  lemma FlipRefusal(l: Ledger, b: Order, t: I64, buyer: Address)
    ensures Refusal(Flip(l), b, t, buyer) == Refusal(l, b, t, buyer)
  {
    hide FlipShares, Order.Cost;
  }

  lemma FlipAmount(shares: map<Holding, U64>, h: Holding)
    ensures AmountIn(FlipShares(shares), FlipHolding(h)) == AmountIn(shares, h)
  {
    FlippedShares(shares, FlipHolding(h));
    FlippedShares(shares, h);
  }

  lemma FlipBump(m: Record, side: Side, amount: U64)
    ensures FlipRecord(side.Bump(m, amount)) == side.Other().Bump(FlipRecord(m), amount)
  {
    hide Wrap;
  }

  lemma FlippedHolding(b: Order, side: Side, buyer: Address)
    ensures b.Holding(side.Other(), buyer) == FlipHolding(b.Holding(side, buyer))
  {
  }

  lemma FlipTrade(l: Ledger, side: Side, b: Order, buyer: Address, n: U64)
    requires buyer in l.bal && b.Cost() <= l.bal[buyer] && b.marketId in l.markets
    ensures b.marketId in FlipMarkets(l.markets)
    ensures Trade(Flip(l), side.Other(), b, buyer, n) == Flip(Trade(l, side, b, buyer, n))
  {
    hide Order.Cost, Wrap, FlipShares, FlipMarkets, FlipHolding, FlipRecord, Order.Holding, Side.Bump, Side.Other;
    var m, h := l.markets[b.marketId], b.Holding(side, buyer);
    FlippedMarket(l.markets, b.marketId);
    FlippedHolding(b, side, buyer);
    FlipUpdate(l.shares, h, Wrap(n + b.amount));
    FlipMarketUpdate(l.markets, b.marketId, side.Bump(m, b.amount));
    FlipBump(m, side, b.amount);
    var f, g := Trade(Flip(l), side.Other(), b, buyer, n), Flip(Trade(l, side, b, buyer, n));
    assert f.markets == g.markets;
    assert f.shares == g.shares;
    assert f.bal == g.bal;
  }

  lemma FlipBuy(l: Ledger, side: Side, b: Order, t: I64, buyer: Address)
    ensures ApplyBuy(Flip(l), side.Other(), b, t, buyer)
         == Moved(Flip(ApplyBuy(l, side, b, t, buyer).ledger), ApplyBuy(l, side, b, t, buyer).result)
  {
    var h := b.Holding(side, buyer);
    assert b.Holding(side.Other(), buyer) == FlipHolding(h);
    FlipRefusal(l, b, t, buyer);
    FlipAmount(l.shares, h);
    if Refusal(l, b, t, buyer) == None {
      assert Pay(Flip(l), b, buyer) == Flip(Pay(l, b, buyer)) by { hide FlipShares, FlipMarkets, Order.Cost; }
      if AmountIn(l.shares, h).Ok? {
        FlipTrade(l, side, b, buyer, AmountIn(l.shares, h).value);
      }
    }
  }

  lemma FlippedMarket(markets: map<U64, Record>, i: U64)
    ensures i in FlipMarkets(markets) <==> i in markets
    ensures i in markets ==> FlipMarkets(markets)[i] == FlipRecord(markets[i])
  {
  }

  lemma FlipCreate(l: Ledger, cm: Proposal, draw: Option<Draw>, creator: Address, t: I64)
    ensures ApplyCreate(Flip(l), cm, draw, creator, t)
         == Moved(Flip(ApplyCreate(l, cm, draw, creator, t).ledger), ApplyCreate(l, cm, draw, creator, t).result)
  {
    hide FlipShares, FlipMarkets, Validate;
    if draw.Some? {
      FlipMarketUpdate(l.markets, IdOf(draw.value), NewRecord(cm, IdOf(draw.value), creator));
    }
  }

  /** BuyYes on a ledger and BuyNo on the flipped one accept the same orders and end in flipped ledgers;
      the other transactions do not see the difference. */
  lemma MirrorStep(l: Ledger, s: Step)
    ensures Apply(Flip(l), FlipStep(s)) == Moved(Flip(Apply(l, s).ledger), Apply(l, s).result)
  {
    hide ApplyBuy, ApplyCreate, FlipShares, FlipMarkets;
    match s
    case Credit(_, _) =>
    case Fee(_, _) =>
    case Create(cm, draw, creator, t) => FlipCreate(l, cm, draw, creator, t);
    case Buy(side, b, buyer, t) => FlipBuy(l, side, b, t, buyer);
  }

  /** Whole runs mirror. */
  lemma {:induction false} MirrorRun(l: Ledger, ss: seq<Step>)
    ensures Run(Flip(l), FlipSteps(ss)) == Flip(Run(l, ss))
    ensures Results(Flip(l), FlipSteps(ss)) == Results(l, ss)
    decreases |ss|
  {
    if ss != [] {
      MirrorStep(l, ss[0]);
      MirrorRun(Apply(l, ss[0]).ledger, ss[1..]);
      assert FlipSteps(ss)[1..] == FlipSteps(ss[1..]);
    }
  }

  /** On bytes: a store that holds the flipped ledger gives the flipped run the same answers. */
  lemma MirrorOnBytes(d: Data, e: Data, l: Ledger, ss: seq<Step>)
    requires Holds(d, l) && Holds(e, Flip(l))
    ensures ResultsBytes(e, FlipSteps(ss)) == ResultsBytes(d, ss)
    ensures Holds(RunBytes(e, FlipSteps(ss)), Flip(Run(l, ss)))
  {
    RunSimulates(d, l, ss);
    RunSimulates(e, Flip(l), FlipSteps(ss));
    MirrorRun(l, ss);
  }
}
