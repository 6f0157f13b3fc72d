/** The byte store and the ledger are the same machine: each operation on bytes does what the ledger
    operation says, and bytes and ledger determine each other. */
module Refinement {
  import opened Words
  import opened Outcomes
  import opened Keys
  import opened State
  import opened Storage
  import opened MarketStorage
  import opened Orders
  import opened CreateMarkets
  import opened Ledgers

  type Data = map<Bytes, Bytes>

  function Lookup(d: Data, k: Bytes): Option<Bytes> {
    if k in d then Some(d[k]) else None
  }

  /** The bytes a ledger keeps under a key. */
  function Entry(l: Ledger, k: Bytes): Option<Bytes> {
    match Classify(k)
    case Balance(a) => if a in l.bal then Some(Pack64(l.bal[a])) else None
    case Market(i) => if i in l.markets then Some(l.markets[i].Encode()) else None
    case Shares(h) => if h in l.shares then Some(Pack64(l.shares[h])) else None
    case Sponsor(_) => Lookup(l.rest, k)
    case Foreign(_) => Lookup(l.rest, k)
  }

  /** The store holds exactly the ledger. */
  ghost predicate Holds(d: Data, l: Ledger) {
    WellFormed(l) && forall k: Bytes :: Lookup(d, k) == Entry(l, k)
  }

  lemma EntryAt(l: Ledger, c: Cell)
    requires Canonical(c)
    ensures Entry(l, Layout(c)) ==
            match c
            case Balance(a) => if a in l.bal then Some(Pack64(l.bal[a])) else None
            case Market(i) => if i in l.markets then Some(l.markets[i].Encode()) else None
            case Shares(h) => if h in l.shares then Some(Pack64(l.shares[h])) else None
            case Sponsor(_) => Lookup(l.rest, Layout(c))
            case Foreign(_) => Lookup(l.rest, Layout(c))
  {
    ClassifyOfLayout(c);
  }

  /** One ledger, one store. */
  lemma StoreUnique(d: Data, e: Data, l: Ledger)
    requires Holds(d, l) && Holds(e, l)
    ensures d == e
  {
    forall k
      ensures k in d <==> k in e
      ensures k in d ==> d[k] == e[k]
    {
      assert Lookup(d, k) == Lookup(e, k);
    }
  }

  /** One store, one ledger. */
  lemma LedgerUnique(d: Data, l: Ledger, m: Ledger)
    requires Holds(d, l) && Holds(d, m)
    ensures l == m
  {
    forall a: Address
      ensures a in l.bal <==> a in m.bal
      ensures a in l.bal ==> l.bal[a] == m.bal[a]
    {
      EntryAt(l, Balance(a));
      EntryAt(m, Balance(a));
      assert Entry(l, Layout(Balance(a))) == Lookup(d, Layout(Balance(a))) == Entry(m, Layout(Balance(a)));
      if a in l.bal {
        Parse64OfPack64(l.bal[a]);
        Parse64OfPack64(m.bal[a]);
      }
    }
    forall h: Holding
      ensures h in l.shares <==> h in m.shares
      ensures h in l.shares ==> l.shares[h] == m.shares[h]
    {
      EntryAt(l, Shares(h));
      EntryAt(m, Shares(h));
      assert Entry(l, Layout(Shares(h))) == Lookup(d, Layout(Shares(h))) == Entry(m, Layout(Shares(h)));
      if h in l.shares {
        Parse64OfPack64(l.shares[h]);
        Parse64OfPack64(m.shares[h]);
      }
    }
    forall i: U64
      ensures i in l.markets <==> i in m.markets
      ensures i in l.markets ==> l.markets[i] == m.markets[i]
    {
      EntryAt(l, Market(i));
      EntryAt(m, Market(i));
      assert Entry(l, Layout(Market(i))) == Lookup(d, Layout(Market(i))) == Entry(m, Layout(Market(i)));
      if i in l.markets {
        StorableIff(l.markets[i]);
        StorableIff(m.markets[i]);
        DecodeOfEncode(l.markets[i]);
        DecodeOfEncode(m.markets[i]);
      }
    }
    forall k
      ensures k in l.rest <==> k in m.rest
      ensures k in l.rest ==> l.rest[k] == m.rest[k]
    {
      assert Entry(l, k) == Lookup(d, k) == Entry(m, k);
    }
    assert l.bal == m.bal && l.shares == m.shares && l.markets == m.markets && l.rest == m.rest;
  }

  /** Writing one cell's bytes changes one entry. */
  lemma WriteHolds(d: Data, l: Ledger, c: Cell, value: Bytes, l': Ledger)
    requires Holds(d, l) && WellFormed(l') && !c.Foreign?
    requires Entry(l', Layout(c)) == Some(value)
    requires forall k: Bytes :: Classify(k) != c ==> Entry(l', k) == Entry(l, k)
    ensures Holds(d[Layout(c) := value], l')
  {
    var d' := d[Layout(c) := value];
    forall k: Bytes
      ensures Lookup(d', k) == Entry(l', k)
    {
      LayoutOfClassify(k);
      if k != Layout(c) {
        assert Lookup(d', k) == Lookup(d, k);
        assert Classify(k) != c;
      }
    }
  }

  lemma WriteBalance(d: Data, l: Ledger, a: Address, x: U64)
    requires Holds(d, l)
    ensures Holds(d[Layout(Balance(a)) := Pack64(x)], l.(bal := l.bal[a := x]))
  {
    var l' := l.(bal := l.bal[a := x]);
    EntryAt(l', Balance(a));
    WriteHolds(d, l, Balance(a), Pack64(x), l');
  }

  lemma WriteShares(d: Data, l: Ledger, h: Holding, x: U64)
    requires Holds(d, l)
    ensures Holds(d[Layout(Shares(h)) := Pack64(x)], l.(shares := l.shares[h := x]))
  {
    var l' := l.(shares := l.shares[h := x]);
    EntryAt(l', Shares(h));
    WriteHolds(d, l, Shares(h), Pack64(x), l');
  }

  lemma WriteMarket(d: Data, l: Ledger, m: Record)
    requires Holds(d, l) && m.TextLength() <= 940
    ensures Holds(d[Layout(Market(m.id)) := m.Encode()], l.(markets := l.markets[m.id := m]))
  {
    var l' := l.(markets := l.markets[m.id := m]);
    EntryAt(l', Market(m.id));
    WriteHolds(d, l, Market(m.id), m.Encode(), l');
  }

  /** Whether a view has refused a key is no concern of the data it holds. */
  lemma ReadEntry(v: View, l: Ledger, c: Cell)
    requires Holds(v.data, l) && !c.Foreign? && Layout(c) !in v.noRead
    ensures v.Read(Layout(c)) == match Entry(l, Layout(c)) case None => Err(NotFound) case Some(bs) => Ok(bs)
  {
    assert Lookup(v.data, Layout(c)) == Entry(l, Layout(c));
  }

  lemma LoadPacked(v: View, k: Bytes, x: U64)
    requires v.Read(k) == Ok(Pack64(x))
    ensures LoadAmount(v, k) == if x == 0 then Err(Malformed) else Ok(x)
  {
    Parse64OfPack64(x);
    assert Pack64(x)[..8] == Pack64(x);
  }

  lemma LoadBalance(v: View, l: Ledger, a: Address)
    requires Holds(v.data, l) && Layout(Balance(a)) !in v.noRead
    ensures LoadAmount(v, Layout(Balance(a))) == AmountIn(l.bal, a)
    ensures Funds(v, a) == if a in l.bal then Ok(l.bal[a]) else Err(InsufficientFunds)
  {
    EntryAt(l, Balance(a));
    ReadEntry(v, l, Balance(a));
    if a in l.bal {
      LoadPacked(v, Layout(Balance(a)), l.bal[a]);
      Parse64OfPack64(l.bal[a]);
    }
  }

  lemma LoadShares(v: View, l: Ledger, h: Holding)
    requires Holds(v.data, l) && Layout(Shares(h)) !in v.noRead
    ensures LoadAmount(v, Layout(Shares(h))) == AmountIn(l.shares, h)
  {
    EntryAt(l, Shares(h));
    ReadEntry(v, l, Shares(h));
    if h in l.shares {
      LoadPacked(v, Layout(Shares(h)), l.shares[h]);
    }
  }

  lemma LoadMarketRecord(v: View, l: Ledger, i: U64)
    requires Holds(v.data, l) && Layout(Market(i)) !in v.noRead
    ensures LoadMarket(v, i) == if i in l.markets then Ok(l.markets[i]) else Err(NotFound)
  {
    EntryAt(l, Market(i));
    ReadEntry(v, l, Market(i));
    if i in l.markets {
      StorableIff(l.markets[i]);
      DecodeOfEncode(l.markets[i]);
    }
  }

  /** AddBalance on bytes is a credit on the ledger, DeductBalance a fee; a refused call writes nothing. */
  lemma RaiseBalance(v: View, l: Ledger, a: Address, amount: U64)
    requires Holds(v.data, l) && Layout(Balance(a)) !in v.noRead + v.noWrite
    ensures var e := Raise(v, Layout(Balance(a)), amount);
            var m := ApplyCredit(l, a, amount);
            Holds(e.view.data, m.ledger) && e.result == m.result && e.view == v.(data := e.view.data)
  {
    hide Layout, LoadAmount, Entry;
    LoadBalance(v, l, a);
    var n := AmountIn(l.bal, a);
    if n.Ok? {
      WriteBalance(v.data, l, a, Wrap(n.value + amount));
    }
  }

  lemma DebitBalance(v: View, l: Ledger, a: Address, amount: U64)
    requires Holds(v.data, l) && Layout(Balance(a)) !in v.noRead + v.noWrite
    ensures var e := Debit(v, Layout(Balance(a)), amount, InsufficientBalance);
            var m := ApplyFee(l, a, amount);
            Holds(e.view.data, m.ledger) && e.result == m.result && e.view == v.(data := e.view.data)
  {
    hide Layout, LoadAmount, Entry;
    LoadBalance(v, l, a);
    var n := AmountIn(l.bal, a);
    if n.Ok? && amount <= n.value {
      WriteBalance(v.data, l, a, n.value - amount);
    }
  }

  /** AddShares, and the share credit inside a buy. */
  lemma RaiseShares(v: View, l: Ledger, h: Holding, amount: U64)
    requires Holds(v.data, l) && Layout(Shares(h)) !in v.noRead + v.noWrite
    ensures var e := Raise(v, Layout(Shares(h)), amount);
            match AmountIn(l.shares, h)
            case Err(err) => e == Effect(v, Err(err))
            case Ok(n) =>
              && e.result == Ok(Nothing) && e.view == v.(data := e.view.data)
              && Holds(e.view.data, l.(shares := l.shares[h := Wrap(n + amount)]))
  {
    hide Layout, LoadAmount, Entry;
    LoadShares(v, l, h);
    var n := AmountIn(l.shares, h);
    if n.Ok? {
      WriteShares(v.data, l, h, Wrap(n.value + amount));
    }
  }

  lemma DebitShares(v: View, l: Ledger, h: Holding, amount: U64)
    requires Holds(v.data, l) && Layout(Shares(h)) !in v.noRead + v.noWrite
    ensures var e := Debit(v, Layout(Shares(h)), amount, InsufficientShares);
            match AmountIn(l.shares, h)
            case Err(err) => e == Effect(v, Err(err))
            case Ok(n) =>
              if n < amount then e == Effect(v, Err(InsufficientShares))
              else
                && e.result == Ok(Nothing) && e.view == v.(data := e.view.data)
                && Holds(e.view.data, l.(shares := l.shares[h := n - amount]))
  {
    hide Layout, LoadAmount, Entry;
    LoadShares(v, l, h);
    var n := AmountIn(l.shares, h);
    if n.Ok? && amount <= n.value {
      WriteShares(v.data, l, h, n.value - amount);
    }
  }

  /** SetMarket on a record, whatever ID it carries. */
  lemma StoreRecord(v: View, l: Ledger, m: Record)
    requires Holds(v.data, l) && Layout(Market(m.id)) !in v.noWrite
    ensures var e := StoreMarket(v, m);
            if m.TextLength() <= 940 then
              && e.result == Ok(Nothing) && e.view == v.(data := e.view.data)
              && Holds(e.view.data, l.(markets := l.markets[m.id := m]))
            else e == Effect(v, Err(TooLarge))
  {
    StorableIff(m);
    if m.TextLength() <= 940 {
      WriteMarket(v.data, l, m);
    }
  }

  lemma CheckAgrees(v: View, l: Ledger, b: Order, t: I64, buyer: Address)
    requires Holds(v.data, l) && Layout(Market(b.marketId)) !in v.noRead && Layout(Balance(buyer)) !in v.noRead
    ensures Check(v, b, t, buyer) ==
            match Refusal(l, b, t, buyer)
            case Some(e) => Err(e)
            case None => Ok(Quote(l.markets[b.marketId], l.bal[buyer]))
  {
    LoadMarketRecord(v, l, b.marketId);
    LoadBalance(v, l, buyer);
  }

  /** A buy on bytes is a buy on the ledger, as long as the store does not refuse one of the order's keys. */
  lemma BuySimulates(v: View, l: Ledger, side: Side, b: Order, t: I64, buyer: Address)
    requires Holds(v.data, l)
    requires forall k :: k in Orders.StateKeys(side, b, buyer) ==> k !in v.noRead && k !in v.noWrite
    ensures var e := Orders.Buy(v, side, b, t, buyer);
            var m := ApplyBuy(l, side, b, t, buyer);
            Holds(e.view.data, m.ledger) && e.result == m.result && e.view == v.(data := e.view.data)
  {
    hide Layout, Record.Encode, Raise, StoreMarket, Check, Entry;
    CheckAgrees(v, l, b, t, buyer);
    if Refusal(l, b, t, buyer) == None {
      var h := b.Holding(side, buyer);
      var funds := l.bal[buyer] - b.Cost();
      var paid := Pay(l, b, buyer);
      WriteBalance(v.data, l, buyer, funds);
      var v1 := v.Write(Layout(Balance(buyer)), Pack64(funds)).view;
      assert Holds(v1.data, paid);
      RaiseShares(v1, paid, h, b.amount);
      var n := AmountIn(paid.shares, h);
      if n.Ok? {
        var v2 := Raise(v1, Layout(Shares(h)), b.amount).view;
        var credited := paid.(shares := paid.shares[h := Wrap(n.value + b.amount)]);
        StoreRecord(v2, credited, side.Bump(l.markets[b.marketId], b.amount));
      }
    }
  }

  lemma CreateSimulates(v: View, l: Ledger, cm: Proposal, draw: Option<Draw>, creator: Address, t: I64)
    requires Holds(v.data, l)
    requires draw.Some? ==> Layout(Market(IdOf(draw.value))) !in v.noWrite
    ensures var e := CreateMarkets.Create(v, cm, draw, creator, t);
            var m := ApplyCreate(l, cm, draw, creator, t);
            Holds(e.view.data, m.ledger) && e.result == m.result && e.view == v.(data := e.view.data)
  {
    if draw.Some? {
      StoreRecord(v, l, NewRecord(cm, IdOf(draw.value), creator));
    }
  }

  /** One transaction on the bytes of a store that refuses nothing. */
  ghost function ApplyBytes(d: Data, s: Step): Effect {
    match s
    case Credit(a, amount) => Raise(Healthy(d), Layout(Balance(a)), amount)
    case Fee(a, amount) => Debit(Healthy(d), Layout(Balance(a)), amount, InsufficientBalance)
    case Create(cm, draw, creator, t) => CreateMarkets.Create(Healthy(d), cm, draw, creator, t)
    case Buy(side, b, buyer, t) => Orders.Buy(Healthy(d), side, b, t, buyer)
  }

  ghost function RunBytes(d: Data, ss: seq<Step>): Data
    decreases |ss|
  {
    if ss == [] then d else RunBytes(ApplyBytes(d, ss[0]).view.data, ss[1..])
  }

  ghost function ResultsBytes(d: Data, ss: seq<Step>): (rs: seq<Result<Output>>)
    ensures |rs| == |ss|
    decreases |ss|
  {
    if ss == [] then []
    else [ApplyBytes(d, ss[0]).result] + ResultsBytes(ApplyBytes(d, ss[0]).view.data, ss[1..])
  }

  lemma ApplySimulates(d: Data, l: Ledger, s: Step)
    requires Holds(d, l)
    ensures Holds(ApplyBytes(d, s).view.data, Apply(l, s).ledger)
    ensures ApplyBytes(d, s).result == Apply(l, s).result
  {
    hide Layout, Holds, ApplyBuy, ApplyCreate, ApplyCredit, ApplyFee, Orders.Buy, Raise, Debit, CreateMarkets.Create;
    var v := Healthy(d);
    match s
    case Credit(a, amount) => RaiseBalance(v, l, a, amount);
    case Fee(a, amount) => DebitBalance(v, l, a, amount);
    case Create(cm, draw, creator, t) => CreateSimulates(v, l, cm, draw, creator, t);
    case Buy(side, b, buyer, t) => BuySimulates(v, l, side, b, t, buyer);
  }

  /** Whole runs on bytes are runs on the ledger, with the same answer to every transaction. */
  lemma {:induction false} RunSimulates(d: Data, l: Ledger, ss: seq<Step>)
    requires Holds(d, l)
    ensures Holds(RunBytes(d, ss), Run(l, ss))
    ensures ResultsBytes(d, ss) == Results(l, ss)
    decreases |ss|
  {
    if ss != [] {
      ApplySimulates(d, l, ss[0]);
      RunSimulates(ApplyBytes(d, ss[0]).view.data, Apply(l, ss[0]).ledger, ss[1..]);
    }
  }

  /** Before genesis the store holds the empty ledger. */
  lemma EmptyHolds(rest: Data)
    requires Apart(rest)
    ensures Holds(rest, Empty(rest))
  {
  }
}
