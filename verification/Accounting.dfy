/** What every run keeps about shares and tokens: holdings match totals, tokens are accounted for, and a
    bound on the issued supply rules out every wrap-around. */
module Accounting {
  import opened Words
  import opened Outcomes
  import opened Keys
  import opened MarketStorage
  import opened Orders
  import opened CreateMarkets
  import opened Ledgers
  import opened Sums

  /** The shares of one side of one market, by holder. */
  function HoldingsOf(shares: map<Holding, U64>, i: U64, shareType: Byte): map<Holding, nat> {
    map h | h in shares && h.market == i && h.shareType == shareType :: shares[h]
  }

  ghost function Held(l: Ledger, i: U64, side: Side): nat {
    Sum(HoldingsOf(l.shares, i, side.ShareType()))
  }

  /** Nobody holds shares of a market that does not exist. */
  ghost predicate NoOrphans(l: Ledger) {
    forall h :: h in l.shares ==> h.market in l.markets
  }

  /** Modulo 2^64, each side's total is the sum of what its holders have. */
  ghost predicate Tallied(l: Ledger) {
    && NoOrphans(l)
    && forall i, side: Side :: i in l.markets ==> side.Total(l.markets[i]) == Wrap(Held(l, i, side))
  }

  ghost predicate PositiveShares(l: Ledger) {
    forall h :: h in l.shares ==> l.shares[h] > 0
  }

  /** Without the modulus, and with every share entry positive. */
  ghost predicate Sound(l: Ledger) {
    && NoOrphans(l) && PositiveShares(l)
    && forall i, side: Side :: i in l.markets ==> side.Total(l.markets[i]) == Held(l, i, side)
  }

  /** A creation draws an ID that is not in use.  The source draws at random and does not check. */
  predicate Fresh(l: Ledger, s: Step) {
    s.Create? && s.draw.Some? ==> IdOf(s.draw.value) !in l.markets
  }

  predicate FreshRun(l: Ledger, ss: seq<Step>)
    decreases |ss|
  {
    ss == [] || (Fresh(l, ss[0]) && FreshRun(Apply(l, ss[0]).ledger, ss[1..]))
  }

  /** No uint64 operation that the step carries out wraps around. */
  predicate NoWrap(l: Ledger, s: Step) {
    match s
    case Credit(a, amount) => AmountIn(l.bal, a).Ok? ==> AmountIn(l.bal, a).value + amount < TWO_64
    case Fee(_, _) => true
    case Create(_, _, _, _) => true
    case Buy(side, b, buyer, t) =>
      && b.amount * b.maxPrice < TWO_64
      && (Refusal(l, b, t, buyer) == None ==>
            && side.Total(l.markets[b.marketId]) + b.amount < TWO_64
            && At(l.shares, b.Holding(side, buyer)) + b.amount < TWO_64)
  }

  predicate NoWrapRun(l: Ledger, ss: seq<Step>)
    decreases |ss|
  {
    ss == [] || (NoWrap(l, ss[0]) && NoWrapRun(Apply(l, ss[0]).ledger, ss[1..]))
  }

  lemma HeldUpdate(shares: map<Holding, U64>, h: Holding, x: U64, i: U64, side: Side)
    ensures var before, after := Sum(HoldingsOf(shares, i, side.ShareType())),
                                 Sum(HoldingsOf(shares[h := x], i, side.ShareType()));
            if h.market == i && h.shareType == side.ShareType()
            then At(shares, h) <= before && after == before - At(shares, h) + x
            else after == before
  {
    var before, after := HoldingsOf(shares, i, side.ShareType()), HoldingsOf(shares[h := x], i, side.ShareType());
    if h.market == i && h.shareType == side.ShareType() {
      assert after == before[h := x];
      SumUpdate(before, h, x);
    } else {
      assert after == before;
    }
  }

  lemma HeldOfAbsent(l: Ledger, i: U64, side: Side)
    requires NoOrphans(l) && i !in l.markets
    ensures Held(l, i, side) == 0
  {
    assert HoldingsOf(l.shares, i, side.ShareType()) == map[];
  }

  lemma HoldingBound(l: Ledger, h: Holding, side: Side)
    requires h.shareType == side.ShareType()
    ensures At(l.shares, h) <= Held(l, h.market, side)
  {
    SumUpdate(HoldingsOf(l.shares, h.market, side.ShareType()), h, 0);
  }

  /** A completed buy changes one side's holdings and total, and nobody else's. */
  lemma BuyHoldings(l: Ledger, side: Side, b: Order, t: I64, buyer: Address, i: U64, sd: Side)
    requires ApplyBuy(l, side, b, t, buyer).result.Ok?
    ensures var l' := ApplyBuy(l, side, b, t, buyer).ledger;
            var n := At(l.shares, b.Holding(side, buyer));
            if i == b.marketId && sd == side
            then n <= Held(l, i, sd) && Held(l', i, sd) == Held(l, i, sd) - n + Wrap(n + b.amount)
            else Held(l', i, sd) == Held(l, i, sd)
  {
    hide Wrap, Order.Cost, Side.Bump, HoldingsOf, Sum;
    var h := b.Holding(side, buyer);
    HeldUpdate(l.shares, h, Wrap(At(l.shares, h) + b.amount), i, sd);
  }

  /** What a step adds to a holding: the amount of a successful buy on it. */
  function BoughtBy(l: Ledger, s: Step, h: Holding): nat {
    if s.Buy? && s.order.Holding(s.side, s.buyer) == h && Apply(l, s).result.Ok? then s.order.amount else 0
  }

  function Bought(l: Ledger, ss: seq<Step>, h: Holding): nat
    decreases |ss|
  {
    if ss == [] then 0 else BoughtBy(l, ss[0], h) + Bought(Apply(l, ss[0]).ledger, ss[1..], h)
  }

  lemma HoldingStep(l: Ledger, s: Step, h: Holding)
    ensures At(Apply(l, s).ledger.shares, h) == Wrap(At(l.shares, h) + BoughtBy(l, s, h))
  {
    hide Order.Cost, Tradable, Validate, NewRecord, Side.Bump, Wrap;
    WrapSmall(At(l.shares, h));
  }

  /** Every holding is what was there and what its owner bought, modulo 2^64, in every run whatever. */
  lemma {:induction false} HoldingIsBought(l: Ledger, ss: seq<Step>, h: Holding)
    ensures At(Run(l, ss).shares, h) == Wrap(At(l.shares, h) + Bought(l, ss, h))
    decreases |ss|
  {
    hide Apply, BoughtBy, Wrap;
    if ss == [] {
      WrapSmall(At(l.shares, h));
    } else {
      var l' := Apply(l, ss[0]).ledger;
      HoldingStep(l, ss[0], h);
      HoldingIsBought(l', ss[1..], h);
      WrapAdd(At(l.shares, h) + BoughtBy(l, ss[0], h), Bought(l', ss[1..], h));
    }
  }

  lemma WrapReplace(s: nat, n: nat, x: nat)
    requires n <= s
    ensures Wrap(s - n + Wrap(n + x)) == Wrap(Wrap(s) + x)
  {
    WrapAdd(n + x, s - n);
    WrapAdd(s, x);
  }

  /** A completed buy raises holdings and total of its side by the same amount, modulo 2^64. */
  lemma TalliedBuy(l: Ledger, side: Side, b: Order, t: I64, buyer: Address, i: U64, sd: Side)
    requires Tallied(l) && i in l.markets
    ensures var l' := ApplyBuy(l, side, b, t, buyer).ledger;
            i in l'.markets && sd.Total(l'.markets[i]) == Wrap(Held(l', i, sd))
  {
    hide Wrap, Sum, Held, Order.Cost;
    if ApplyBuy(l, side, b, t, buyer).result.Ok? {
      BuyHoldings(l, side, b, t, buyer, i, sd);
      if i == b.marketId && sd == side {
        WrapReplace(Held(l, i, sd), At(l.shares, b.Holding(side, buyer)), b.amount);
      }
    } else {
      SharesAside(l, ApplyBuy(l, side, b, t, buyer).ledger, i, sd);
    }
  }

  lemma SharesAside(l: Ledger, l': Ledger, i: U64, side: Side)
    requires l'.shares == l.shares
    ensures Held(l', i, side) == Held(l, i, side)
  {
  }

  /** Without wrap-around, by exactly the amount bought. */
  lemma SoundBuy(l: Ledger, side: Side, b: Order, t: I64, buyer: Address, i: U64, sd: Side)
    requires Sound(l) && NoWrap(l, Buy(side, b, buyer, t)) && i in l.markets
    ensures var l' := ApplyBuy(l, side, b, t, buyer).ledger;
            i in l'.markets && sd.Total(l'.markets[i]) == Held(l', i, sd)
  {
    hide Sum, Held, Order.Cost, Wrap;
    if ApplyBuy(l, side, b, t, buyer).result.Ok? {
      BuyHoldings(l, side, b, t, buyer, i, sd);
      WrapSmall(At(l.shares, b.Holding(side, buyer)) + b.amount);
      WrapSmall(side.Total(l.markets[b.marketId]) + b.amount);
    } else {
      SharesAside(l, ApplyBuy(l, side, b, t, buyer).ledger, i, sd);
    }
  }

  lemma TalliedStep(l: Ledger, s: Step)
    requires Tallied(l) && Fresh(l, s)
    ensures Tallied(Apply(l, s).ledger)
  {
    var l' := Apply(l, s).ledger;
    KeepsNoOrphans(l, s);
    hide NoOrphans, Wrap, Sum, IdOf, Validate, ApplyBuy, ApplyCreate;
    forall i, sd: Side | i in l'.markets
      ensures sd.Total(l'.markets[i]) == Wrap(Held(l', i, sd))
    {
      match s
      case Credit(_, _) =>
      case Fee(_, _) =>
      case Create(cm, draw, creator, t) =>
        CreateTotals(l, cm, draw, creator, t, i, sd);
        WrapZero();
      case Buy(side, b, buyer, t) =>
        BuyKeepsMarkets(l, side, b, t, buyer);
        TalliedBuy(l, side, b, t, buyer, i, sd);
    }
  }

  lemma KeepsNoOrphans(l: Ledger, s: Step)
    requires NoOrphans(l)
    ensures NoOrphans(Apply(l, s).ledger)
  {
    hide Wrap, Order.Cost, Validate;
  }

  lemma BuyKeepsMarkets(l: Ledger, side: Side, b: Order, t: I64, buyer: Address)
    ensures ApplyBuy(l, side, b, t, buyer).ledger.markets.Keys == l.markets.Keys
  {
    hide Wrap, Order.Cost;
  }

  lemma WrapZero()
    ensures Wrap(0) == 0
  {
  }

  lemma WrapSmall(x: nat)
    requires x < TWO_64
    ensures Wrap(x) == x
  {
  }

  lemma CreateTotals(l: Ledger, cm: Proposal, draw: Option<Draw>, creator: Address, t: I64, i: U64, sd: Side)
    requires NoOrphans(l) && Fresh(l, Create(cm, draw, creator, t))
    ensures var l' := ApplyCreate(l, cm, draw, creator, t).ledger;
            && NoOrphans(l') && Held(l', i, sd) == Held(l, i, sd)
            && (i in l.markets ==> i in l'.markets && l'.markets[i] == l.markets[i])
            && (i in l'.markets && i !in l.markets ==> sd.Total(l'.markets[i]) == 0 && Held(l, i, sd) == 0)
  {
    if i !in l.markets {
      HeldOfAbsent(l, i, sd);
    }
  }

  /** In every run with fresh IDs, whatever wraps, each side's total is the sum of its holdings modulo 2^64. */
  lemma {:induction false} TalliedRun(l: Ledger, ss: seq<Step>)
    requires Tallied(l) && FreshRun(l, ss)
    ensures Tallied(Run(l, ss))
    decreases |ss|
  {
    if ss != [] {
      TalliedStep(l, ss[0]);
      TalliedRun(Apply(l, ss[0]).ledger, ss[1..]);
    }
  }

  /** Freshness is needed: a creation on an ID in use resets the record's totals but not the holdings.  The
      tally survives exactly when the ID is unused or both of its totals were zero. */
  lemma CreateTalliedIff(l: Ledger, cm: Proposal, draw: Draw, creator: Address, t: I64)
    requires Tallied(l) && ApplyCreate(l, cm, Some(draw), creator, t).result.Ok?
    ensures var i := IdOf(draw);
            Tallied(ApplyCreate(l, cm, Some(draw), creator, t).ledger) <==>
              (i in l.markets ==> l.markets[i].totalYes == 0 && l.markets[i].totalNo == 0)
  {
    hide Wrap, Sum, IdOf, Validate;
    var i, l' := IdOf(draw), ApplyCreate(l, cm, Some(draw), creator, t).ledger;
    WrapZero();
    forall j, sd: Side
      ensures Held(l', j, sd) == Held(l, j, sd)
      ensures j !in l.markets ==> Held(l, j, sd) == 0
    {
      SharesAside(l, l', j, sd);
      if j !in l.markets {
        HeldOfAbsent(l, j, sd);
      }
    }
    if i in l.markets && Tallied(l') {
      assert Yes.Total(l'.markets[i]) == Wrap(Held(l', i, Yes)) == Yes.Total(l.markets[i]);
      assert No.Total(l'.markets[i]) == Wrap(Held(l', i, No)) == No.Total(l.markets[i]);
    }
  }

  lemma SoundStep(l: Ledger, s: Step)
    requires Sound(l) && Fresh(l, s) && NoWrap(l, s)
    ensures Sound(Apply(l, s).ledger)
  {
    var l' := Apply(l, s).ledger;
    KeepsNoOrphans(l, s);
    KeepsPositive(l, s);
    hide NoOrphans, Wrap, Sum, IdOf, Validate, ApplyBuy, ApplyCreate, NoWrap;
    forall i, sd: Side | i in l'.markets
      ensures sd.Total(l'.markets[i]) == Held(l', i, sd)
    {
      match s
      case Credit(_, _) =>
      case Fee(_, _) =>
      case Create(cm, draw, creator, t) =>
        CreateTotals(l, cm, draw, creator, t, i, sd);
      case Buy(side, b, buyer, t) =>
        BuyKeepsMarkets(l, side, b, t, buyer);
        SoundBuy(l, side, b, t, buyer, i, sd);
    }
  }

  lemma KeepsPositive(l: Ledger, s: Step)
    requires PositiveShares(l) && NoWrap(l, s)
    ensures PositiveShares(Apply(l, s).ledger)
  {
    hide Order.Cost, Validate, Wrap, Side.Bump, Tradable, NewRecord;
    if s.Buy? && Apply(l, s).result.Ok? {
      WrapSmall(At(l.shares, s.order.Holding(s.side, s.buyer)) + s.order.amount);
    }
  }

  /** In every run with fresh IDs in which nothing wraps, the sums are exact. */
  lemma {:induction false} SoundRun(l: Ledger, ss: seq<Step>)
    requires Sound(l) && FreshRun(l, ss) && NoWrapRun(l, ss)
    ensures Sound(Run(l, ss))
    decreases |ss|
  {
    if ss != [] {
      SoundStep(l, ss[0]);
      SoundRun(Apply(l, ss[0]).ledger, ss[1..]);
    }
  }

  lemma EmptySound(rest: map<Bytes, Bytes>)
    ensures Sound(Empty(rest)) && Tallied(Empty(rest))
    ensures Supply(Empty(rest)) == 0 && AllTotals(Empty(rest)) == 0
  {
    assert TotalsOf(map[]) == map[];
  }

  /** All balances together. */
  ghost function Supply(l: Ledger): nat {
    Sum(l.bal)
  }

  function TotalsOf(markets: map<U64, Record>): map<U64, nat> {
    map i | i in markets :: markets[i].totalYes + markets[i].totalNo
  }

  /** All market totals together. */
  ghost function AllTotals(l: Ledger): nat {
    Sum(TotalsOf(l.markets))
  }

  /** Tokens that a step brings in, takes as a fee, and takes as the cost of a buy. */
  function IssuedBy(l: Ledger, s: Step): nat {
    if s.Credit? && Apply(l, s).result.Ok? then s.amount else 0
  }

  function FeesBy(l: Ledger, s: Step): nat {
    if s.Fee? && Apply(l, s).result.Ok? then s.amount else 0
  }

  /** A buy that passes its checks is charged, even if it then fails on the buyer's share entry. */
  function ChargedBy(l: Ledger, s: Step): nat {
    if s.Buy? && Refusal(l, s.order, s.time, s.buyer) == None then s.order.Cost() else 0
  }

  function Issued(l: Ledger, ss: seq<Step>): nat
    decreases |ss|
  {
    if ss == [] then 0 else IssuedBy(l, ss[0]) + Issued(Apply(l, ss[0]).ledger, ss[1..])
  }

  function Fees(l: Ledger, ss: seq<Step>): nat
    decreases |ss|
  {
    if ss == [] then 0 else FeesBy(l, ss[0]) + Fees(Apply(l, ss[0]).ledger, ss[1..])
  }

  function Charged(l: Ledger, ss: seq<Step>): nat
    decreases |ss|
  {
    if ss == [] then 0 else ChargedBy(l, ss[0]) + Charged(Apply(l, ss[0]).ledger, ss[1..])
  }

  /** No credit of the run wraps a balance around. */
  predicate CreditsFit(l: Ledger, ss: seq<Step>)
    decreases |ss|
  {
    ss == [] || ((ss[0].Credit? ==> NoWrap(l, ss[0])) && CreditsFit(Apply(l, ss[0]).ledger, ss[1..]))
  }

  lemma SupplyBuy(l: Ledger, side: Side, b: Order, t: I64, buyer: Address)
    ensures var l' := ApplyBuy(l, side, b, t, buyer).ledger;
            Supply(l') + ChargedBy(l, Buy(side, b, buyer, t)) == Supply(l)
  {
    hide Order.Cost, Wrap, Sum;
    if Refusal(l, b, t, buyer) == None {
      SumUpdate(l.bal, buyer, l.bal[buyer] - b.Cost());
    }
  }

  /** 1 for a credit that wraps a balance around, which loses 2^64 tokens. */
  function LostBy(l: Ledger, s: Step): nat {
    if s.Credit? && !NoWrap(l, s) then 1 else 0
  }

  function Lost(l: Ledger, ss: seq<Step>): nat
    decreases |ss|
  {
    if ss == [] then 0 else LostBy(l, ss[0]) + Lost(Apply(l, ss[0]).ledger, ss[1..])
  }

  lemma SupplyCredit(l: Ledger, a: Address, amount: U64)
    ensures var m := ApplyCredit(l, a, amount);
            Supply(m.ledger) + TWO_64 * LostBy(l, Credit(a, amount))
              == Supply(l) + (if m.result.Ok? then amount else 0)
  {
    hide Sum;
    if AmountIn(l.bal, a).Ok? {
      SumUpdate(l.bal, a, Wrap(At(l.bal, a) + amount));
    }
  }

  lemma SupplyFee(l: Ledger, a: Address, amount: U64)
    ensures var m := ApplyFee(l, a, amount);
            Supply(m.ledger) + (if m.result.Ok? then amount else 0) == Supply(l)
  {
    hide Sum;
    if amount <= At(l.bal, a) {
      SumUpdate(l.bal, a, At(l.bal, a) - amount);
    }
  }

  lemma SupplyStep(l: Ledger, s: Step)
    ensures Supply(Apply(l, s).ledger) + FeesBy(l, s) + ChargedBy(l, s) + TWO_64 * LostBy(l, s)
         == Supply(l) + IssuedBy(l, s)
  {
    hide ApplyCredit, ApplyFee, ApplyBuy, Refusal, Validate, NewRecord, Sum, NoWrap;
    match s
    case Credit(a, amount) => SupplyCredit(l, a, amount);
    case Fee(a, amount) => SupplyFee(l, a, amount);
    case Create(_, _, _, _) =>
    case Buy(side, b, buyer, t) => SupplyBuy(l, side, b, t, buyer);
  }

  /** Tokens are accounted for in every run: what was there and what was issued is what is left, plus fees and
      charges, plus 2^64 for every credit that wrapped. */
  lemma {:induction false} Conservation(l: Ledger, ss: seq<Step>)
    ensures Supply(Run(l, ss)) + Fees(l, ss) + Charged(l, ss) + TWO_64 * Lost(l, ss) == Supply(l) + Issued(l, ss)
    decreases |ss|
  {
    hide Supply, Apply, FeesBy, ChargedBy, LostBy, IssuedBy;
    if ss != [] {
      SupplyStep(l, ss[0]);
      Conservation(Apply(l, ss[0]).ledger, ss[1..]);
    }
  }

  lemma {:induction false} LostIffUnfit(l: Ledger, ss: seq<Step>)
    ensures CreditsFit(l, ss) <==> Lost(l, ss) == 0
    decreases |ss|
  {
    hide Apply, NoWrap;
    if ss != [] {
      LostIffUnfit(Apply(l, ss[0]).ledger, ss[1..]);
    }
  }

  /** So tokens are conserved exactly when no credit wraps. */
  lemma ConservedIff(l: Ledger, ss: seq<Step>)
    ensures Supply(Run(l, ss)) + Fees(l, ss) + Charged(l, ss) == Supply(l) + Issued(l, ss) <==> CreditsFit(l, ss)
  {
    hide Supply, Run, Fees, Charged, Issued, CreditsFit;
    Conservation(l, ss);
    LostIffUnfit(l, ss);
  }

  /** Every order's product stays below 2^64. */
  predicate CostsFit(ss: seq<Step>) {
    forall i :: 0 <= i < |ss| && ss[i].Buy? ==> ss[i].order.amount * ss[i].order.maxPrice < TWO_64
  }

  lemma AmountWithinCost(b: Order)
    requires b.maxPrice > 0 && b.amount * b.maxPrice < TWO_64
    ensures b.amount <= b.Cost() == b.amount * b.maxPrice
  {
    assert b.amount * b.maxPrice == b.amount + b.amount * (b.maxPrice - 1);
    assert b.amount * (b.maxPrice - 1) >= 0;
  }

  /** What accepted buys cost as exact products. */
  function Spent(l: Ledger, ss: seq<Step>): nat
    decreases |ss|
  {
    if ss == [] then 0
    else
      var s := ss[0];
      (if s.Buy? && Refusal(l, s.order, s.time, s.buyer) == None then s.order.amount * s.order.maxPrice else 0)
      + Spent(Apply(l, s).ledger, ss[1..])
  }

  /** Without overflow in a product, what is charged is the product. */
  lemma {:induction false} ChargedIsProduct(l: Ledger, ss: seq<Step>)
    requires CostsFit(ss)
    ensures Charged(l, ss) == Spent(l, ss)
    decreases |ss|
  {
    hide Apply, Refusal;
    if ss != [] {
      if ss[0].Buy? {
        WrapSmall(ss[0].order.amount * ss[0].order.maxPrice);
      }
      ChargedIsProduct(Apply(l, ss[0]).ledger, ss[1..]);
    }
  }

  lemma TotalsUpdate(markets: map<U64, Record>, i: U64, m: Record)
    ensures Sum(TotalsOf(markets[i := m]))
         == Sum(TotalsOf(markets)) - At(TotalsOf(markets), i) + m.totalYes + m.totalNo
    ensures At(TotalsOf(markets), i) <= Sum(TotalsOf(markets))
  {
    assert TotalsOf(markets[i := m]) == TotalsOf(markets)[i := m.totalYes + m.totalNo];
    SumUpdate(TotalsOf(markets), i, m.totalYes + m.totalNo);
  }

  /** In a solvent ledger nothing in a buy wraps. */
  lemma SolventBuy(l: Ledger, side: Side, b: Order, t: I64, buyer: Address)
    requires Sound(l) && Supply(l) + AllTotals(l) < TWO_64 && b.amount * b.maxPrice < TWO_64
    ensures NoWrap(l, Buy(side, b, buyer, t))
  {
    hide Sum, Order.Cost, TotalsOf, Tradable, Held, Wrap;
    if Refusal(l, b, t, buyer) == None {
      var m := l.markets[b.marketId];
      AmountWithinCost(b);
      SumUpdate(l.bal, buyer, 0);
      HoldingBound(l, b.Holding(side, buyer), side);
      TotalsUpdate(l.markets, b.marketId, m);
      TotalAt(l.markets, b.marketId);
    }
  }

  lemma TotalAt(markets: map<U64, Record>, i: U64)
    requires i in markets
    ensures At(TotalsOf(markets), i) == markets[i].totalYes + markets[i].totalNo
  {
  }

  lemma SolventStep(l: Ledger, s: Step)
    requires Sound(l) && Supply(l) + AllTotals(l) + IssuedBy(l, s) < TWO_64 && CostsFit([s])
    ensures NoWrap(l, s)
  {
    hide Sum, TotalsOf, ApplyBuy, Sound;
    match s
    case Credit(a, amount) => SumUpdate(l.bal, a, 0);
    case Fee(_, _) =>
    case Create(_, _, _, _) =>
    case Buy(side, b, buyer, t) =>
      assert [s][0] == s;
      SolventBuy(l, side, b, t, buyer);
  }

  lemma BumpAtMost(m: Record, side: Side, amount: U64)
    ensures var n := side.Bump(m, amount); n.totalYes + n.totalNo <= m.totalYes + m.totalNo + amount
  {
  }

  /** A buy never adds more to the totals than it takes from the buyer, whatever wraps on the way. */
  lemma BuyWithinPayment(l: Ledger, side: Side, b: Order, t: I64, buyer: Address)
    requires b.amount * b.maxPrice < TWO_64
    ensures var l' := ApplyBuy(l, side, b, t, buyer).ledger;
            Supply(l') + AllTotals(l') <= Supply(l) + AllTotals(l)
  {
    hide Sum, Order.Cost, TotalsOf, Tradable, Wrap, Side.Bump;
    if Refusal(l, b, t, buyer) == None {
      var m := l.markets[b.marketId];
      AmountWithinCost(b);
      SumUpdate(l.bal, buyer, l.bal[buyer] - b.Cost());
      TotalsUpdate(l.markets, b.marketId, side.Bump(m, b.amount));
      TotalAt(l.markets, b.marketId);
      BumpAtMost(m, side, b.amount);
    }
  }

  /** A creation never adds to the totals; on an ID in use it drops what was there. */
  lemma CreateAddsNothing(l: Ledger, cm: Proposal, draw: Option<Draw>, creator: Address, t: I64)
    ensures AllTotals(ApplyCreate(l, cm, draw, creator, t).ledger) <= AllTotals(l)
    ensures Supply(ApplyCreate(l, cm, draw, creator, t).ledger) == Supply(l)
  {
    if draw.Some? {
      TotalsUpdate(l.markets, IdOf(draw.value), NewRecord(cm, IdOf(draw.value), creator));
    }
  }

  lemma WithinIssuedStep(l: Ledger, s: Step)
    requires CostsFit([s])
    ensures var l' := Apply(l, s).ledger;
            Supply(l') + AllTotals(l') <= Supply(l) + AllTotals(l) + IssuedBy(l, s)
  {
    hide Sum, TotalsOf, ApplyBuy, ApplyCreate, NoWrap;
    match s
    case Credit(a, amount) => SupplyCredit(l, a, amount);
    case Fee(a, amount) => SupplyFee(l, a, amount);
    case Create(cm, draw, creator, t) => CreateAddsNothing(l, cm, draw, creator, t);
    case Buy(side, b, buyer, t) =>
      assert [s][0] == s;
      BuyWithinPayment(l, side, b, t, buyer);
  }

  /** In every run whose products fit in 64 bits, balances and totals together never exceed what was there and
      what was issued.  A wrap or a creation on an ID in use can only lose value. */
  lemma {:induction false} NeverExceedsIssued(l: Ledger, ss: seq<Step>)
    requires CostsFit(ss)
    ensures Supply(Run(l, ss)) + AllTotals(Run(l, ss)) <= Supply(l) + AllTotals(l) + Issued(l, ss)
    decreases |ss|
  {
    hide Supply, AllTotals, Apply, IssuedBy;
    if ss != [] {
      WithinIssuedStep(l, ss[0]);
      NeverExceedsIssued(Apply(l, ss[0]).ledger, ss[1..]);
    }
  }

  /** Solvency rules out overflow.  If every order's product and all that is ever issued fit in 64 bits, then
      nothing in the run wraps, and holdings and totals agree exactly at its end. */
  lemma {:induction false} Solvency(l: Ledger, ss: seq<Step>)
    requires Sound(l) && FreshRun(l, ss) && CostsFit(ss)
    requires Supply(l) + AllTotals(l) + Issued(l, ss) < TWO_64
    ensures NoWrapRun(l, ss) && Sound(Run(l, ss))
    decreases |ss|
  {
    hide Supply, AllTotals, Sound, NoWrap, Apply, IssuedBy;
    if ss != [] {
      SolventStep(l, ss[0]);
      SoundStep(l, ss[0]);
      WithinIssuedStep(l, ss[0]);
      Solvency(Apply(l, ss[0]).ledger, ss[1..]);
    }
  }
}
