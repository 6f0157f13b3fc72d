/** The keys a transaction declares against the keys it touches. */
module Footprint {
  import opened Words
  import opened Outcomes
  import opened Keys
  import opened State
  import opened Storage
  import opened MarketStorage
  import opened Orders
  import opened Ledgers
  import opened Refinement
  import opened Interleaving
  import CreateMarkets

  /** The record under a market's key, if it can be read, carries that market's ID. */
  predicate FiledRight(v: View, id: U64) {
    LoadMarket(v, id).Ok? ==> LoadMarket(v, id).value.id == id
  }

  lemma CheckedMarket(v: View, b: Order, t: I64, buyer: Address)
    requires Check(v, b, t, buyer).Ok?
    ensures LoadMarket(v, b.marketId) == Ok(Check(v, b, t, buyer).value.market)
    ensures b.Cost() <= Check(v, b, t, buyer).value.balance
  {
    hide Layout, Decode, Tradable, Order.Cost;
  }

  lemma WriteElsewhere(v: View, k: Bytes, value: Bytes, other: Bytes)
    requires k != other
    ensures Lookup(v.Write(k, value).view.data, other) == Lookup(v.data, other)
  {
  }

  lemma RaiseElsewhere(v: View, k: Bytes, amount: U64, other: Bytes)
    requires k != other
    ensures Lookup(Raise(v, k, amount).view.data, other) == Lookup(v.data, other)
  {
    hide LoadAmount, Pack64, Wrap;
  }

  lemma StoreElsewhere(v: View, m: Record, other: Bytes)
    requires Layout(Market(m.id)) != other
    ensures Lookup(StoreMarket(v, m).view.data, other) == Lookup(v.data, other)
  {
    hide Layout, Record.Encode, Record.Storable;
  }

  /** A buy writes no key but the three it declares, on any store, whatever else is in it. */
  lemma BuyWritesDeclaredKeys(v: View, side: Side, b: Order, t: I64, buyer: Address, k: Bytes)
    requires FiledRight(v, b.marketId) && k !in Orders.StateKeys(side, b, buyer)
    ensures Lookup(Orders.Buy(v, side, b, t, buyer).view.data, k) == Lookup(v.data, k)
  {
    hide Layout, Check, LoadMarket, Raise, StoreMarket, Pack64, Order.Cost, Wrap;
    if Check(v, b, t, buyer).Ok? {
      CheckedMarket(v, b, t, buyer);
      var q := Check(v, b, t, buyer).value;
      var paid := v.Write(Layout(Balance(buyer)), Pack64(q.balance - b.Cost()));
      WriteElsewhere(v, Layout(Balance(buyer)), Pack64(q.balance - b.Cost()), k);
      if paid.result.Ok? {
        var credited := Raise(paid.view, Layout(Shares(b.Holding(side, buyer))), b.amount);
        RaiseElsewhere(paid.view, Layout(Shares(b.Holding(side, buyer))), b.amount, k);
        if credited.result.Ok? {
          StoreElsewhere(credited.view, side.Bump(q.market, b.amount), k);
        }
      }
    }
  }

  /** Without the right ID in the record the claim fails: a successful buy keeps to its declared keys exactly when
      the record is filed under its own ID or the bytes it writes elsewhere were already there. */
  lemma DeclaredKeysIff(v: View, side: Side, b: Order, t: I64, buyer: Address)
    requires Orders.Buy(v, side, b, t, buyer).result.Ok?
    ensures LoadMarket(v, b.marketId).Ok?
    ensures var m := LoadMarket(v, b.marketId).value;
            var after := Orders.Buy(v, side, b, t, buyer).view.data;
            (forall k :: k !in Orders.StateKeys(side, b, buyer) ==> Lookup(after, k) == Lookup(v.data, k)) <==>
              m.id == b.marketId ||
              Lookup(v.data, Layout(Market(m.id))) == Some(side.Bump(m, b.amount).Encode())
  {
    hide Layout, Check, LoadMarket, Raise, Pack64, Order.Cost, Wrap, Record.Encode, Record.Storable;
    CheckedMarket(v, b, t, buyer);
    var q := Check(v, b, t, buyer).value;
    var kb, ks := Layout(Balance(buyer)), Layout(Shares(b.Holding(side, buyer)));
    var v1 := v.Write(kb, Pack64(q.balance - b.Cost())).view;
    var v2 := Raise(v1, ks, b.amount).view;
    var m := side.Bump(q.market, b.amount);
    var after := Orders.Buy(v, side, b, t, buyer).view.data;
    forall k | k !in Orders.StateKeys(side, b, buyer) && k != Layout(Market(m.id))
      ensures Lookup(after, k) == Lookup(v.data, k)
    {
      WriteElsewhere(v, kb, Pack64(q.balance - b.Cost()), k);
      RaiseElsewhere(v1, ks, b.amount, k);
      StoreElsewhere(v2, m, k);
    }
    assert Lookup(after, Layout(Market(m.id))) == Some(m.Encode());
    if m.id != b.marketId {
      KeysDiffer(buyer, m.id, b.Holding(side, buyer));
      MarketKeysDiffer(m.id, b.marketId);
      assert Layout(Market(m.id)) !in Orders.StateKeys(side, b, buyer);
    }
  }

  lemma MarketKeysDiffer(i: U64, j: U64)
    requires i != j
    ensures Layout(Market(i)) != Layout(Market(j))
  {
    ClassifyOfLayout(Market(i));
    ClassifyOfLayout(Market(j));
  }

  /** What a successful buy has found and what it has written, on any store: the market was open for the order,
      the balance fell by the cost, the shares and the total of the order's side rose by the amount. */
  lemma Settlement(v: View, side: Side, b: Order, t: I64, buyer: Address)
    requires FiledRight(v, b.marketId) && Orders.Buy(v, side, b, t, buyer).result.Ok?
    ensures var d, d' := v.data, Orders.Buy(v, side, b, t, buyer).view.data;
            var kb, km := [3] + buyer + [0, 1], [1] + Pack64(b.marketId);
            var ks := [2] + Pack64(b.marketId) + buyer + [if side.Yes? then 0 else 1];
            && b.amount > 0 && b.maxPrice > 0
            && kb in d && |d[kb]| == 8 && b.Cost() <= Parse64(d[kb])
            && Lookup(d', kb) == Some(Pack64(Parse64(d[kb]) - b.Cost()))
            && LoadAmount(v, ks).Ok?
            && Lookup(d', ks) == Some(Pack64(Wrap(LoadAmount(v, ks).value + b.amount)))
            && km in d && km in d' && Decode(d[km]).Some?
            && var m := Decode(d[km]).value;
               && t <= m.endTime && m.status != 1 && m.status != 2 && m.status != 3
               && Decode(d'[km]) ==
                    Some(if side.Yes? then m.(totalYes := (m.totalYes + b.amount) % 0x1_0000_0000_0000_0000)
                         else m.(totalNo := (m.totalNo + b.amount) % 0x1_0000_0000_0000_0000))
  {
    hide Layout, Decode, Record.Encode, Record.Storable, LoadAmount, Pack64, Order.Cost;
    var kb, ks := Layout(Balance(buyer)), Layout(Shares(b.Holding(side, buyer)));
    KeysOfBuy(side, b, buyer);
    KeysDiffer(buyer, b.marketId, b.Holding(side, buyer));
    CheckedMarket(v, b, t, buyer);
    var q := Check(v, b, t, buyer).value;
    var v1 := v.Write(kb, Pack64(q.balance - b.Cost())).view;
    LoadElsewhere(v, kb, Pack64(q.balance - b.Cost()), ks);
    var v2 := Raise(v1, ks, b.amount).view;
    assert Lookup(v2.data, kb) == Some(Pack64(q.balance - b.Cost()));
    DecodeOfEncode(side.Bump(q.market, b.amount));
  }

  lemma KeysDiffer(a: Address, i: U64, h: Holding)
    ensures Layout(Balance(a)) != Layout(Market(i)) && Layout(Balance(a)) != Layout(Shares(h))
    ensures Layout(Market(i)) != Layout(Shares(h))
  {
    assert Layout(Balance(a))[0] == BALANCE_PREFIX && Layout(Market(i))[0] == MARKET_PREFIX;
    assert Layout(Shares(h))[0] == SHARE_PREFIX;
  }

  lemma LoadElsewhere(v: View, k: Bytes, value: Bytes, other: Bytes)
    requires k != other
    ensures LoadAmount(v.Write(k, value).view, other) == LoadAmount(v, other)
  {
  }

  /** What a successful creation has written: the proposal as an open, pending market with zero totals under the
      drawn ID, and nothing else. */
  lemma CreationWrites(v: View, cm: CreateMarkets.Proposal, draw: CreateMarkets.Draw, creator: Address, t: I64)
    requires CreateMarkets.Create(v, cm, Some(draw), creator, t).result.Ok?
    ensures var e := CreateMarkets.Create(v, cm, Some(draw), creator, t);
            var i, km := Parse64(draw[..8]), [1] + draw[..8];
            && e.result == Ok(Created(i)) && km in e.view.data
            && t < cm.endTime < cm.resolutionTime
            && (forall k :: k != km ==> Lookup(e.view.data, k) == Lookup(v.data, k))
            && Decode(e.view.data[km]) ==
                 Some(Record(i, cm.description, 0, creator, cm.endTime, cm.resolutionTime, 0, 0,
                             cm.oracleType, cm.oracleSource, cm.oracleParameters, 0))
  {
    hide Layout, Decode, Record.Encode, Record.Storable;
    CreateMarkets.DrawnKey(draw);
    DecodeOfEncode(CreateMarkets.NewRecord(cm, CreateMarkets.IdOf(draw), creator));
  }

  /** Two stores that agree on a set of keys, and on what they refuse there. */
  ghost predicate Agree(v: View, w: View, keys: set<Bytes>) {
    forall k :: k in keys ==>
      && Lookup(v.data, k) == Lookup(w.data, k)
      && (k in v.noRead <==> k in w.noRead) && (k in v.noWrite <==> k in w.noWrite)
  }

  lemma AgreeRead(v: View, w: View, keys: set<Bytes>, k: Bytes)
    requires Agree(v, w, keys) && k in keys
    ensures v.Read(k) == w.Read(k)
  {
    assert Lookup(v.data, k) == Lookup(w.data, k);
  }

  lemma AgreeLoad(v: View, w: View, keys: set<Bytes>, k: Bytes)
    requires Agree(v, w, keys) && k in keys
    ensures LoadAmount(v, k) == LoadAmount(w, k)
  {
    AgreeRead(v, w, keys, k);
  }

  lemma AgreeWrite(v: View, w: View, keys: set<Bytes>, k: Bytes, value: Bytes)
    requires Agree(v, w, keys) && k in keys
    ensures v.Write(k, value).result == w.Write(k, value).result
    ensures Agree(v.Write(k, value).view, w.Write(k, value).view, keys)
  {
    var v', w' := v.Write(k, value).view, w.Write(k, value).view;
    forall j | j in keys
      ensures Lookup(v'.data, j) == Lookup(w'.data, j)
    {
      assert Lookup(v.data, j) == Lookup(w.data, j);
    }
  }

  lemma AgreeRaise(v: View, w: View, keys: set<Bytes>, k: Bytes, amount: U64)
    requires Agree(v, w, keys) && k in keys
    ensures Raise(v, k, amount).result == Raise(w, k, amount).result
    ensures Agree(Raise(v, k, amount).view, Raise(w, k, amount).view, keys)
  {
    hide LoadAmount, Pack64, Wrap, Agree;
    AgreeLoad(v, w, keys, k);
    if LoadAmount(v, k).Ok? {
      AgreeWrite(v, w, keys, k, Pack64(Wrap(LoadAmount(v, k).value + amount)));
    }
  }

  lemma AgreeCheck(v: View, w: View, keys: set<Bytes>, b: Order, t: I64, buyer: Address)
    requires Agree(v, w, keys) && Layout(Market(b.marketId)) in keys && Layout(Balance(buyer)) in keys
    ensures Check(v, b, t, buyer) == Check(w, b, t, buyer)
    ensures LoadMarket(v, b.marketId) == LoadMarket(w, b.marketId)
  {
    hide Layout, Decode, Tradable, Order.Cost, Agree;
    AgreeRead(v, w, keys, Layout(Market(b.marketId)));
    AgreeRead(v, w, keys, Layout(Balance(buyer)));
  }

  /** A buy reads no key but the three it declares: stores that agree there give it the same answer and still
      agree there afterwards. */
  lemma BuyReadsDeclaredKeys(v: View, w: View, side: Side, b: Order, t: I64, buyer: Address)
    requires FiledRight(v, b.marketId) && Agree(v, w, Orders.StateKeys(side, b, buyer))
    ensures var e, f := Orders.Buy(v, side, b, t, buyer), Orders.Buy(w, side, b, t, buyer);
            e.result == f.result && Agree(e.view, f.view, Orders.StateKeys(side, b, buyer))
  {
    hide Layout, Check, LoadMarket, Raise, Pack64, Order.Cost, Wrap, Agree, Record.Encode, Record.Storable;
    var keys := Orders.StateKeys(side, b, buyer);
    AgreeCheck(v, w, keys, b, t, buyer);
    if Check(v, b, t, buyer).Ok? {
      CheckedMarket(v, b, t, buyer);
      var q := Check(v, b, t, buyer).value;
      var kb, ks := Layout(Balance(buyer)), Layout(Shares(b.Holding(side, buyer)));
      AgreeWrite(v, w, keys, kb, Pack64(q.balance - b.Cost()));
      var p, r := v.Write(kb, Pack64(q.balance - b.Cost())).view, w.Write(kb, Pack64(q.balance - b.Cost())).view;
      AgreeRaise(p, r, keys, ks, b.amount);
      var m := side.Bump(q.market, b.amount);
      AgreeWrite(Raise(p, ks, b.amount).view, Raise(r, ks, b.amount).view, keys, Layout(Market(m.id)), m.Encode());
    }
  }

  /** A store that holds a ledger files every record right, whatever it refuses. */
  lemma HeldIsFiledRight(v: View, l: Ledger, i: U64)
    requires Holds(v.data, l)
    ensures FiledRight(v, i)
  {
    hide Layout, Decode;
    if Layout(Market(i)) !in v.noRead {
      LoadMarketRecord(v, l, i);
    }
  }

  /** So in every run, from any store that holds a ledger, a buy keeps to its declared keys: it writes no other,
      and what the store has under other keys does not matter to it. */
  lemma ReachableFootprint(d: Data, l: Ledger, ss: seq<Step>, side: Side, b: Order, t: I64, buyer: Address, w: View)
    requires Holds(d, l) && Agree(Healthy(RunBytes(d, ss)), w, Orders.StateKeys(side, b, buyer))
    ensures var v := Healthy(RunBytes(d, ss));
            var e, f := Orders.Buy(v, side, b, t, buyer), Orders.Buy(w, side, b, t, buyer);
            && (forall k :: k !in Orders.StateKeys(side, b, buyer) ==> Lookup(e.view.data, k) == Lookup(v.data, k))
            && e.result == f.result && Agree(e.view, f.view, Orders.StateKeys(side, b, buyer))
  {
    hide Holds, RunBytes, Agree, FiledRight, Orders.StateKeys, Orders.Buy;
    var v := Healthy(RunBytes(d, ss));
    RunSimulates(d, l, ss);
    HeldIsFiledRight(v, Run(l, ss), b.marketId);
    BuyReadsDeclaredKeys(v, w, side, b, t, buyer);
    forall k | k !in Orders.StateKeys(side, b, buyer)
      ensures Lookup(Orders.Buy(v, side, b, t, buyer).view.data, k) == Lookup(v.data, k)
    {
      BuyWritesDeclaredKeys(v, side, b, t, buyer, k);
    }
  }

  /** A store that refuses none of the declared keys, new entries included, does with a buy what a store that
      refuses nothing does. */
  lemma BuyNeedsOnlyDeclaredKeys(v: View, l: Ledger, side: Side, b: Order, t: I64, buyer: Address)
    requires Holds(v.data, l)
    requires forall k :: k in Orders.StateKeys(side, b, buyer) ==> k !in v.noRead && k !in v.noWrite
    ensures Orders.Buy(v, side, b, t, buyer).result == Orders.Buy(Healthy(v.data), side, b, t, buyer).result
    ensures Orders.Buy(v, side, b, t, buyer).view.data == Orders.Buy(Healthy(v.data), side, b, t, buyer).view.data
  {
    hide Orders.Buy, Holds, ApplyBuy, Orders.StateKeys;
    BuySimulates(v, l, side, b, t, buyer);
    BuySimulates(Healthy(v.data), l, side, b, t, buyer);
    StoreUnique(Orders.Buy(v, side, b, t, buyer).view.data,
                Orders.Buy(Healthy(v.data), side, b, t, buyer).view.data,
                ApplyBuy(l, side, b, t, buyer).ledger);
  }

  /** CreateMarket does not declare the key it writes, for any creator and any draw. */
  lemma CreateUndeclared(id: U64, creator: Address)
    ensures Layout(Market(id)) !in CreateMarkets.StateKeys(creator)
  {
    assert |Layout(Market(id))| == 9;
    assert |Layout(Sponsor(creator))| == 34;
  }

  /** So on a store that grants exactly the declared keys it never succeeds, and changes nothing. */
  lemma CreateNeverWithinItsKeys(v: View, cm: CreateMarkets.Proposal, draw: Option<CreateMarkets.Draw>,
                                 creator: Address, t: I64)
    requires forall k: Bytes :: k !in CreateMarkets.StateKeys(creator) ==> k in v.noWrite
    ensures var e := CreateMarkets.Create(v, cm, draw, creator, t); e.result.Err? && e.view == v
  {
    hide Layout, Record.Encode, Record.Storable;
    if draw.Some? {
      CreateUndeclared(CreateMarkets.IdOf(draw.value), creator);
    }
  }

  predicate AllBuys(ss: seq<Step>) {
    forall i :: 0 <= i < |ss| ==> ss[i].Buy?
  }

  function KeysOf(s: Step): set<Bytes>
    requires s.Buy?
  {
    Orders.StateKeys(s.side, s.order, s.buyer)
  }

  /** No two buys of the batch declare a common key. */
  predicate Disjoint(ss: seq<Step>)
    requires AllBuys(ss)
  {
    forall i, j :: 0 <= i < j < |ss| ==> KeysOf(ss[i]) !! KeysOf(ss[j])
  }

  lemma DisjointBuyers(ss: seq<Step>, i: nat, j: nat)
    requires AllBuys(ss) && Disjoint(ss) && i < |ss| && j < |ss| && i != j
    ensures ss[i].buyer != ss[j].buyer
  {
    hide Layout;
    assert Layout(Balance(ss[i].buyer)) in KeysOf(ss[i]);
    assert Layout(Balance(ss[j].buyer)) in KeysOf(ss[j]);
  }

  /** In a batch without common keys an account has at most one buy. */
  lemma {:induction false} OwnInBatch(ss: seq<Step>, i: nat)
    requires AllBuys(ss) && i < |ss|
    requires forall j :: 0 <= j < |ss| && j != i ==> ss[j].buyer != ss[i].buyer
    ensures Own(ss, ss[i].buyer) == [ss[i]]
  {
    var a := ss[i].buyer;
    assert ss == ss[..i] + ([ss[i]] + ss[i + 1..]);
    OwnMiddle(ss[..i], ss[i], ss[i + 1..], a);
    OwnSkips(ss[..i], a);
    OwnSkips(ss[i + 1..], a);
  }

  lemma {:induction false} AnswersSkip(ss: seq<Step>, rs: seq<Result<Output>>, a: Address)
    requires AllBuys(ss) && |ss| == |rs| && forall i :: 0 <= i < |ss| ==> ss[i].buyer != a
    ensures Answers(ss, rs, a) == []
    decreases |ss|
  {
    if ss != [] {
      AnswersSkip(ss[1..], rs[1..], a);
    }
  }

  lemma {:induction false} AnswerInBatch(ss: seq<Step>, rs: seq<Result<Output>>, i: nat)
    requires AllBuys(ss) && |ss| == |rs| && i < |ss|
    requires forall j :: 0 <= j < |ss| && j != i ==> ss[j].buyer != ss[i].buyer
    ensures Answers(ss, rs, ss[i].buyer) == [rs[i]]
    decreases |ss|
  {
    if i == 0 {
      AnswersSkip(ss[1..], rs[1..], ss[0].buyer);
    } else {
      AnswerInBatch(ss[1..], rs[1..], i - 1);
    }
  }

  lemma DistinctBuyers(ss: seq<Step>, i: nat)
    requires AllBuys(ss) && Disjoint(ss) && i < |ss|
    ensures forall j :: 0 <= j < |ss| && j != i ==> ss[j].buyer != ss[i].buyer
  {
    hide Disjoint;
    forall j | 0 <= j < |ss| && j != i
      ensures ss[j].buyer != ss[i].buyer
    {
      DisjointBuyers(ss, j, i);
    }
  }

  /** One batch, two orders: every account has the same buys. */
  lemma SameOwn(ss: seq<Step>, tt: seq<Step>, a: Address)
    requires AllBuys(ss) && AllBuys(tt) && Disjoint(ss) && Disjoint(tt) && multiset(ss) == multiset(tt)
    ensures Own(ss, a) == Own(tt, a)
  {
    hide Disjoint;
    if i :| 0 <= i < |ss| && ss[i].buyer == a {
      assert ss[i] in multiset(tt);
      var j :| 0 <= j < |tt| && tt[j] == ss[i];
      DistinctBuyers(ss, i);
      DistinctBuyers(tt, j);
      OwnInBatch(ss, i);
      OwnInBatch(tt, j);
    } else {
      forall j | 0 <= j < |tt|
        ensures tt[j].buyer != a
      {
        assert tt[j] in multiset(ss);
      }
      OwnSkips(ss, a);
      OwnSkips(tt, a);
    }
  }

  lemma Twice<T>(xs: seq<T>, i: nat, j: nat)
    requires i < j < |xs| && xs[i] == xs[j]
    ensures multiset(xs)[xs[i]] >= 2
  {
    assert xs == xs[..i] + ([xs[i]] + (xs[i + 1..j] + ([xs[j]] + xs[j + 1..])));
  }

  lemma {:induction false} AtTwoPlaces<T>(xs: seq<T>, x: T) returns (p: nat, q: nat)
    requires multiset(xs)[x] >= 2
    ensures p < q < |xs| && xs[p] == x && xs[q] == x
  {
    assert xs == [xs[0]] + xs[1..];
    if xs[0] == x {
      assert x in multiset(xs[1..]);
      p := 0;
      q :| p < q < |xs| && xs[q] == x;
    } else {
      p, q := AtTwoPlaces(xs[1..], x);
      p, q := p + 1, q + 1;
    }
  }

  lemma DisjointReordered(ss: seq<Step>, tt: seq<Step>)
    requires AllBuys(ss) && AllBuys(tt) && multiset(ss) == multiset(tt) && Disjoint(ss)
    ensures Disjoint(tt)
  {
    hide KeysOf;
    forall i, j | 0 <= i < j < |tt|
      ensures KeysOf(tt[i]) !! KeysOf(tt[j])
    {
      if tt[i] == tt[j] {
        Twice(tt, i, j);
        var p, q := AtTwoPlaces(ss, tt[i]);
        DisjointBuyers(ss, p, q);
      } else {
        assert tt[i] in multiset(ss) && tt[j] in multiset(ss);
        var p :| 0 <= p < |ss| && ss[p] == tt[i];
        var q :| 0 <= q < |ss| && ss[q] == tt[j];
        if p < q {
          assert KeysOf(ss[p]) !! KeysOf(ss[q]);
        } else {
          assert KeysOf(ss[q]) !! KeysOf(ss[p]);
        }
      }
    }
  }

  /** Any order of a batch of buys without common keys gives the same store and every buy the same answer. */
  lemma BatchReorder(d: Data, l: Ledger, ss: seq<Step>, tt: seq<Step>)
    requires Holds(d, l) && AllBuys(ss) && AllBuys(tt) && multiset(ss) == multiset(tt)
    requires Disjoint(ss)
    ensures RunBytes(d, ss) == RunBytes(d, tt)
    ensures forall i, j :: 0 <= i < |ss| && 0 <= j < |tt| && ss[i] == tt[j] ==>
              ResultsBytes(d, ss)[i] == ResultsBytes(d, tt)[j]
  {
    hide Holds, Disjoint, RunBytes, ResultsBytes;
    DisjointReordered(ss, tt);
    forall a: Address
      ensures Own(ss, a) == Own(tt, a)
    {
      SameOwn(ss, tt, a);
    }
    InterleavingsAgreeOnBytes(d, l, ss, tt);
    forall i, j | 0 <= i < |ss| && 0 <= j < |tt| && ss[i] == tt[j]
      ensures ResultsBytes(d, ss)[i] == ResultsBytes(d, tt)[j]
    {
      DistinctBuyers(ss, i);
      DistinctBuyers(tt, j);
      AnswerInBatch(ss, ResultsBytes(d, ss), i);
      AnswerInBatch(tt, ResultsBytes(d, tt), j);
      var a := ss[i].buyer;
      assert Answers(ss, ResultsBytes(d, ss), a) == Answers(tt, ResultsBytes(d, tt), a);
    }
  }
}
