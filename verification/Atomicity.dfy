/** When a failing transaction leaves its store unchanged, and when it does not. */
module Atomicity {
  import opened Words
  import opened Outcomes
  import opened Keys
  import opened State
  import opened Storage
  import opened MarketStorage
  import opened Orders
  import opened CreateMarkets
  import opened Sums
  import opened Ledgers
  import opened Refinement
  import opened Accounting
  import opened Controllers

  /** The order passes every check that `Execute` makes before its first write. */
  predicate Accepted(v: View, l: Ledger, b: Order, t: I64, buyer: Address) {
    && Layout(Market(b.marketId)) !in v.noRead && Layout(Balance(buyer)) !in v.noRead
    && Refusal(l, b, t, buyer) == None
  }

  /** The buyer's share entry cannot be raised: the store refuses it, or it holds a stored zero. */
  predicate SharesStuck(v: View, l: Ledger, h: Holding) {
    Layout(Shares(h)) in v.noRead || Layout(Shares(h)) in v.noWrite || (h in l.shares && l.shares[h] == 0)
  }

  lemma RefusedReads(v: View, l: Ledger, b: Order, t: I64, buyer: Address)
    requires Holds(v.data, l)
    ensures Check(v, b, t, buyer).Ok? <==> Accepted(v, l, b, t, buyer)
    ensures Check(v, b, t, buyer).Ok? ==> Check(v, b, t, buyer).value == Quote(l.markets[b.marketId], l.bal[buyer])
  {
    hide Layout, Holds, Tradable, Order.Cost;
    if Layout(Market(b.marketId)) !in v.noRead {
      LoadMarketRecord(v, l, b.marketId);
      if Layout(Balance(buyer)) !in v.noRead {
        LoadBalance(v, l, buyer);
      }
    }
  }

  /** Adding a nonzero word never gives the same word back. */
  lemma WrapMoves(n: U64, x: U64)
    requires x > 0
    ensures Wrap(n + x) != n
  {
  }

  /** Raising an entry by a nonzero amount always changes its bytes, whatever they were. */
  lemma RaiseChanges(v: View, k: Bytes, amount: U64)
    requires amount > 0
    ensures var e := Raise(v, k, amount);
            && (e.result.Ok? <==> LoadAmount(v, k).Ok? && k !in v.noWrite)
            && e.view == v.(data := e.view.data)
            && (e.result.Err? ==> e.view == v)
            && (e.result.Ok? ==> Lookup(e.view.data, k) != Lookup(v.data, k))
  {
    hide Pack64, Parse64, Wrap;
    if LoadAmount(v, k).Ok? {
      var n := LoadAmount(v, k).value;
      WrapMoves(n, amount);
      Parse64OfPack64(Wrap(n + amount));
      if k in v.data && |v.data[k]| == 8 {
        assert v.data[k][..8] == v.data[k];
      }
    }
  }

  /** Paying changes the balance bytes exactly when the cost is not zero. */
  lemma PaymentChanges(v: View, b: Order, t: I64, buyer: Address)
    requires Check(v, b, t, buyer).Ok?
    ensures var q := Check(v, b, t, buyer).value;
            && b.amount > 0 && b.Cost() <= q.balance
            && (Lookup(v.data, Layout(Balance(buyer))) == Some(Pack64(q.balance - b.Cost())) <==> b.Cost() == 0)
  {
    hide Layout, LoadMarket, Tradable, Pack64, Parse64, Order.Cost;
    var k, q := Layout(Balance(buyer)), Check(v, b, t, buyer).value;
    Pack64OfParse64(v.data[k]);
    Parse64OfPack64(q.balance - b.Cost());
  }

  lemma BalanceIsNotShares(a: Address, h: Holding)
    ensures Layout(Balance(a)) != Layout(Shares(h))
  {
    assert Layout(Balance(a))[0] == BALANCE_PREFIX && Layout(Shares(h))[0] == SHARE_PREFIX;
  }

  lemma BumpStorable(m: Record, side: Side, amount: U64)
    ensures side.Bump(m, amount).Storable() <==> m.TextLength() <= 940
    ensures side.Bump(m, amount).id == m.id
  {
    StorableIff(side.Bump(m, amount));
  }

  /** The exact outcome of a buy on any store whatever, refusals and malformed entries included.  It succeeds
      exactly when its checks pass, its three writes are allowed, the share entry can be read and the record
      fits.  When it fails it has changed the store exactly when its checks passed, its payment went through,
      and either the shares could not be raised and the payment was not zero, or the shares were raised and the
      market could not be written. */
  lemma BuyOutcomeAnywhere(v: View, side: Side, b: Order, t: I64, buyer: Address)
    ensures var e := Orders.Buy(v, side, b, t, buyer);
            var ks := Layout(Shares(b.Holding(side, buyer)));
            var charged := Check(v, b, t, buyer).Ok? && Layout(Balance(buyer)) !in v.noWrite;
            var stuck := LoadAmount(v, ks).Err? || ks in v.noWrite;
            var barred := charged &&
              var m := Check(v, b, t, buyer).value.market; m.TextLength() > 940 || Layout(Market(m.id)) in v.noWrite;
            && (e.result.Ok? <==> charged && !stuck && !barred)
            && (e.result.Err? ==>
                  (e.view.data != v.data <==> charged && (if stuck then b.Cost() > 0 else barred)))
  {
    hide Layout, LoadAmount, Pack64, Record.Encode, Record.Storable, Raise, Check, Order.Cost, Side.Bump;
    if Check(v, b, t, buyer).Ok? && Layout(Balance(buyer)) !in v.noWrite {
      var q, h := Check(v, b, t, buyer).value, b.Holding(side, buyer);
      var kb, ks := Layout(Balance(buyer)), Layout(Shares(h));
      PaymentChanges(v, b, t, buyer);
      BalanceIsNotShares(buyer, h);
      var value := Pack64(q.balance - b.Cost());
      var v1 := v.(data := v.data[kb := value]);
      LoadAfter(v, kb, value, ks);
      RaiseChanges(v1, ks, b.amount);
      BumpStorable(q.market, side, b.amount);
      SameOrNot(v.data, kb, value);
      assert Lookup(v1.data, ks) == Lookup(v.data, ks);
    }
  }

  lemma LoadAfter(v: View, k: Bytes, value: Bytes, other: Bytes)
    requires k != other
    ensures LoadAmount(v.(data := v.data[k := value]), other) == LoadAmount(v, other)
  {
  }

  lemma SameOrNot(d: Data, k: Bytes, value: Bytes)
    ensures d[k := value] == d <==> Lookup(d, k) == Some(value)
  {
  }

  /** The same on a store that holds a ledger.  There a record always fits, so only refusals and a stored zero of
      shares stand in the way of an accepted order. */
  lemma BuyOutcome(v: View, l: Ledger, side: Side, b: Order, t: I64, buyer: Address)
    requires Holds(v.data, l)
    ensures var e := Orders.Buy(v, side, b, t, buyer);
            var charged := Accepted(v, l, b, t, buyer) && Layout(Balance(buyer)) !in v.noWrite;
            var stuck := SharesStuck(v, l, b.Holding(side, buyer));
            var barred := Layout(Market(b.marketId)) in v.noWrite;
            && (e.result.Ok? <==> charged && !stuck && !barred)
            && (e.result.Err? ==>
                  (e.view.data != v.data <==> charged && (if stuck then b.Cost() > 0 else barred)))
  {
    hide Layout, LoadAmount, Orders.Buy, Check, Order.Cost;
    RefusedReads(v, l, b, t, buyer);
    StuckIff(v, l, b.Holding(side, buyer));
    BuyOutcomeAnywhere(v, side, b, t, buyer);
  }

  lemma StuckIff(v: View, l: Ledger, h: Holding)
    requires Holds(v.data, l)
    ensures SharesStuck(v, l, h) <==> LoadAmount(v, Layout(Shares(h))).Err? || Layout(Shares(h)) in v.noWrite
  {
    hide Layout;
    if Layout(Shares(h)) !in v.noRead {
      LoadShares(v, l, h);
    }
  }

  /** A stored market can always be stored again with a larger total. */
  lemma MarketStorable(d: Data, l: Ledger, i: U64, side: Side, amount: U64)
    requires Holds(d, l) && i in l.markets
    ensures side.Bump(l.markets[i], amount).Storable() && side.Bump(l.markets[i], amount).id == i
    ensures |side.Bump(l.markets[i], amount).Encode()| == |l.markets[i].Encode()|
  {
    StorableIff(side.Bump(l.markets[i], amount));
    EncodedLength(side.Bump(l.markets[i], amount));
    EncodedLength(l.markets[i]);
  }

  /** On a store that refuses nothing, a failing transaction changes bytes exactly when it is an accepted buy
      of nonzero cost by someone whose shares are stored as zero. */
  lemma FailureAtomicIff(d: Data, l: Ledger, s: Step)
    requires Holds(d, l)
    ensures var e := ApplyBytes(d, s);
            e.result.Err? ==>
              (e.view.data != d <==>
                 && s.Buy? && Refusal(l, s.order, s.time, s.buyer) == None && s.order.Cost() > 0
                 && var h := s.order.Holding(s.side, s.buyer); h in l.shares && l.shares[h] == 0)
  {
    hide Layout, LoadAmount, Holds, Orders.Buy, Refusal, Order.Cost, StoreMarket;
    match s
    case Credit(_, _) =>
    case Fee(_, _) =>
    case Create(cm, draw, creator, t) => CreateAtomic(Healthy(d), cm, draw, creator, t);
    case Buy(side, b, buyer, t) => BuyOutcome(Healthy(d), l, side, b, t, buyer);
  }

  lemma CreateAtomic(v: View, cm: Proposal, draw: Option<Draw>, creator: Address, t: I64)
    ensures var e := CreateMarkets.Create(v, cm, draw, creator, t); e.result.Err? ==> e.view == v
  {
    hide Record.Storable, Record.Encode, Layout;
  }

  /** Where share entries are positive, a failing transaction leaves the store byte for byte as it was. */
  lemma FailureAtomic(d: Data, l: Ledger, s: Step)
    requires Holds(d, l) && PositiveShares(l) && ApplyBytes(d, s).result.Err?
    ensures ApplyBytes(d, s).view.data == d
  {
    hide Holds, ApplyBytes, Refusal, Order.Cost;
    FailureAtomicIff(d, l, s);
  }

  /** An account without a balance record and one with a stored zero get different answers to a buy exactly when
      the order is well formed, its market is tradable, and its cost has wrapped to zero. */
  lemma AbsentLikeZeroIff(l: Ledger, side: Side, b: Order, t: I64, buyer: Address)
    requires buyer !in l.bal
    ensures var zero := l.(bal := l.bal[buyer := 0]);
            ApplyBuy(l, side, b, t, buyer).result != ApplyBuy(zero, side, b, t, buyer).result <==>
              && b.amount > 0 && b.maxPrice > 0
              && b.marketId in l.markets && Tradable(l.markets[b.marketId], t) && b.Cost() == 0
  {
    hide Order.Cost, Tradable, Order.Holding;
  }

  /** Without overflow in the product that never happens. */
  lemma AbsentLikeZero(l: Ledger, side: Side, b: Order, t: I64, buyer: Address)
    requires buyer !in l.bal && b.amount * b.maxPrice < TWO_64
    ensures var zero := l.(bal := l.bal[buyer := 0]);
            && ApplyBuy(l, side, b, t, buyer).result == ApplyBuy(zero, side, b, t, buyer).result
            && ApplyBuy(zero, side, b, t, buyer).ledger == zero && ApplyBuy(l, side, b, t, buyer).ledger == l
  {
    AbsentLikeZeroIff(l, side, b, t, buyer);
    if b.maxPrice > 0 {
      AmountWithinCost(b);
    }
  }

  predicate Locked(l: Ledger, h: Holding) {
    h in l.shares && l.shares[h] == 0
  }

  /** A step stores a zero of shares exactly when it is a successful buy whose sum wraps to zero. */
  lemma LocksIff(l: Ledger, s: Step, h: Holding)
    requires !Locked(l, h)
    ensures Locked(Apply(l, s).ledger, h) <==>
              && s.Buy? && s.order.Holding(s.side, s.buyer) == h
              && Refusal(l, s.order, s.time, s.buyer) == None && Wrap(At(l.shares, h) + s.order.amount) == 0
  {
    hide Order.Cost, Tradable, Validate, NewRecord, Side.Bump, Wrap;
  }

  /** Once stored, it stays: every later buy on the holding fails, charged or not. */
  lemma {:induction false} LockedForever(l: Ledger, ss: seq<Step>, h: Holding)
    requires Locked(l, h)
    ensures Locked(Run(l, ss), h)
    ensures forall i :: 0 <= i < |ss| && ss[i].Buy? && ss[i].order.Holding(ss[i].side, ss[i].buyer) == h ==>
              Results(l, ss)[i].Err?
    decreases |ss|
  {
    hide Order.Holding;
    if ss != [] {
      var l' := Apply(l, ss[0]).ledger;
      LockedStep(l, ss[0], h);
      hide Apply;
      LockedForever(l', ss[1..], h);
      assert forall i :: 1 <= i < |ss| ==> ss[i] == ss[1..][i - 1] && Results(l, ss)[i] == Results(l', ss[1..])[i - 1];
    }
  }

  lemma LockedStep(l: Ledger, s: Step, h: Holding)
    requires Locked(l, h)
    ensures Locked(Apply(l, s).ledger, h)
    ensures s.Buy? && s.order.Holding(s.side, s.buyer) == h ==> Apply(l, s).result.Err?
  {
    hide Order.Cost, Tradable, Validate, NewRecord, Side.Bump, Wrap, Order.Holding;
  }

  /** Such a store can be reached: two buys of 2^63 shares at price 2 cost nothing, since 2^64 wraps to 0, and
      leave the buyer with shares stored as zero.  The next buy is charged and then fails. */
  lemma HalfBuyReachable(l: Ledger, cm: Proposal, draw: Draw, a: Address, t: I64)
    requires a !in l.bal && IdOf(draw) !in l.markets
    requires Holding(IdOf(draw), a, Yes.ShareType()) !in l.shares
    requires Validate(cm, t) == None && cm.TextLength() <= 940
    ensures var id := IdOf(draw);
            var ss := [ Credit(a, 5), Create(cm, Some(draw), a, t),
                        Buy(Yes, Order(id, TWO_63, 2), a, t), Buy(Yes, Order(id, TWO_63, 2), a, t) ];
            var last := Buy(Yes, Order(id, 1, 1), a, t);
            && AllOk(Results(l, ss)) && FreshRun(l, ss)
            && Apply(Run(l, ss), last).result == Err(Malformed)
            && Run(l, ss).bal[a] == 5 && Apply(Run(l, ss), last).ledger.bal[a] == 4
  {
    hide Validate, IdOf;
    var id, big := IdOf(draw), Order(IdOf(draw), TWO_63, 2);
    var s0, s1, s2 := Credit(a, 5), Create(cm, Some(draw), a, t), Buy(Yes, big, a, t);
    var l1 := l.(bal := l.bal[a := 5]);
    assert Apply(l, s0) == Moved(l1, Ok(Nothing));
    var m := NewRecord(cm, id, a);
    var l2 := l1.(markets := l1.markets[id := m]);
    assert Apply(l1, s1) == Moved(l2, Ok(Created(id)));
    EndAfter(cm, t);
    assert big.Cost() == 0;
    var h := big.Holding(Yes, a);
    var l3 := Trade(l2, Yes, big, a, 0);
    assert Apply(l2, s2) == Moved(l3, Ok(Nothing));
    assert l3.bal[a] == 5 && l3.shares[h] == TWO_63;
    var l4 := Trade(l3, Yes, big, a, TWO_63);
    assert Apply(l3, s2) == Moved(l4, Ok(Nothing));
    FourSteps(l, s0, s1, s2, s2);
  }

  lemma EndAfter(cm: Proposal, t: I64)
    requires Validate(cm, t) == None
    ensures t < cm.endTime
  {
  }

  lemma FourSteps(l: Ledger, s0: Step, s1: Step, s2: Step, s3: Step)
    ensures var m0 := Apply(l, s0);
            var m1 := Apply(m0.ledger, s1);
            var m2 := Apply(m1.ledger, s2);
            var m3 := Apply(m2.ledger, s3);
            var ss := [s0, s1, s2, s3];
            && Run(l, ss) == m3.ledger
            && Results(l, ss) == [m0.result, m1.result, m2.result, m3.result]
            && (FreshRun(l, ss) <==>
                  Fresh(l, s0) && Fresh(m0.ledger, s1) && Fresh(m1.ledger, s2) && Fresh(m2.ledger, s3))
  {
    hide Apply, Fresh;
    var m0 := Apply(l, s0);
    var m1 := Apply(m0.ledger, s1);
    var m2 := Apply(m1.ledger, s2);
    OneStep(m2.ledger, s3, []);
    OneStep(m1.ledger, s2, [s3]);
    OneStep(m0.ledger, s1, [s2, s3]);
    OneStep(l, s0, [s1, s2, s3]);
  }

  lemma OneStep(l: Ledger, s: Step, ss: seq<Step>)
    ensures var m := Apply(l, s);
            && Run(l, [s] + ss) == Run(m.ledger, ss)
            && Results(l, [s] + ss) == [m.result] + Results(m.ledger, ss)
            && (FreshRun(l, [s] + ss) <==> Fresh(l, s) && FreshRun(m.ledger, ss))
  {
    assert ([s] + ss)[1..] == ss;
  }
}
