/** What every operation answers, in terms of the stored bytes and of its inputs: exact conditions of success, and the
    error of each refused case, in numbers that a reader can hold against the documentation. */
module Answers {
  import opened Words
  import opened Outcomes
  import opened Codec
  import opened Keys
  import opened State
  import opened Storage
  import opened MarketStorage
  import opened Orders
  import opened Ledgers
  import opened Controllers
  import opened Refinement
  import opened Atomicity

  /** The entry under `k` counts as the amount `n`: no bytes for zero, otherwise n itself and perhaps more bytes.
      A stored zero and fewer than eight bytes count as nothing. */
  predicate CountsAs(d: Data, k: Bytes, n: U64) {
    if n == 0 then k !in d || d[k] == [] else k in d && Pack64(n) <= d[k]
  }

  lemma AmountIff(v: View, k: Bytes, n: U64)
    requires k !in v.noRead
    ensures LoadAmount(v, k) == Ok(n) <==> CountsAs(v.data, k, n)
    ensures LoadAmount(v, k).Err? ==> LoadAmount(v, k) == Err(Malformed)
  {
    hide Pack64, Parse64;
    if k in v.data && |v.data[k]| >= 8 {
      var head := v.data[k][..8];
      Pack64OfParse64(head);
      Parse64OfPack64(n);
      assert Pack64(n) <= v.data[k] <==> Pack64(n) == head;
    }
  }

  /** Taking from an entry that counts as `n`. */
  lemma DebitAnswer(v: View, k: Bytes, amount: U64, short: Error, n: U64)
    requires k !in v.noRead && CountsAs(v.data, k, n)
    ensures Debit(v, k, amount, short) ==
            if n < amount then Effect(v, Err(short))
            else if k in v.noWrite then Effect(v, Err(StoreFault))
            else Effect(v.(data := v.data[k := Pack64(n - amount)]), Ok(Nothing))
  {
    hide CountsAs, LoadAmount;
    AmountIff(v, k, n);
  }

  /** Adding to it, modulo 2^64. */
  lemma RaiseAnswer(v: View, k: Bytes, amount: U64, n: U64)
    requires k !in v.noRead && CountsAs(v.data, k, n)
    ensures Raise(v, k, amount) ==
            if k in v.noWrite then Effect(v, Err(StoreFault))
            else Effect(v.(data := v.data[k := Pack64((n + amount) % 0x1_0000_0000_0000_0000)]), Ok(Nothing))
  {
    hide CountsAs, LoadAmount;
    AmountIff(v, k, n);
  }

  /** An entry that counts as no amount refuses both. */
  lemma MalformedAnswer(v: View, k: Bytes, amount: U64, short: Error)
    requires k !in v.noRead && forall n: U64 :: !CountsAs(v.data, k, n)
    ensures Debit(v, k, amount, short) == Effect(v, Err(Malformed))
    ensures Raise(v, k, amount) == Effect(v, Err(Malformed))
  {
    hide CountsAs, LoadAmount;
    AmountIff(v, k, 0);
    if LoadAmount(v, k).Ok? {
      AmountIff(v, k, LoadAmount(v, k).value);
    }
  }

  /** CanDeduct, for a balance entry that counts as `n`. */
  lemma CanDeductAnswer(v: View, a: Address, amount: U64, n: U64)
    requires Layout(Balance(a)) !in v.noRead && CountsAs(v.data, [3] + a + [0, 1], n)
    ensures Deductible(LoadAmount(v, Layout(Balance(a))), amount) ==
            if amount <= n then Ok(Nothing) else Err(InsufficientBalance)
  {
    hide Layout, CountsAs, LoadAmount;
    BalanceKeyBytes(a);
    AmountIff(v, Layout(Balance(a)), n);
  }

  /** CanDeduct answers what Deduct answers on a store that lets the balance be written. */
  lemma CanDeductAnswersAsDeduct(v: View, a: Address, amount: U64)
    requires Layout(Balance(a)) !in v.noWrite
    ensures Deductible(LoadAmount(v, Layout(Balance(a))), amount) ==
            Debit(v, Layout(Balance(a)), amount, InsufficientBalance).result
  {
    hide Layout, LoadAmount;
  }

  /** The balance as a buy reads it: exactly the eight bytes of the amount. */
  lemma FundsIff(v: View, a: Address, n: U64)
    requires Layout(Balance(a)) !in v.noRead
    ensures Funds(v, a) == Ok(n) <==> Lookup(v.data, [3] + a + [0, 1]) == Some(Pack64(n))
    ensures Funds(v, a).Err? ==>
              Funds(v, a) == Err(if [3] + a + [0, 1] in v.data then Malformed else InsufficientFunds)
  {
    hide Layout, Pack64, Parse64;
    BalanceKeyBytes(a);
    Parse64OfPack64(n);
    if Layout(Balance(a)) in v.data && |v.data[Layout(Balance(a))]| == 8 {
      Pack64OfParse64(v.data[Layout(Balance(a))]);
    }
  }

  /** The RPC balance query: nothing stored is zero, and eight bytes are their amount. */
  lemma QueryIff(v: View, a: Address, n: U64)
    requires Layout(Sponsor(a)) !in v.noRead
    ensures QueriedBalance(v, a) == Ok(n) <==>
            Lookup(v.data, [0] + a) == Some(Pack64(n)) || ([0] + a !in v.data && n == 0)
    ensures QueriedBalance(v, a).Err? ==> QueriedBalance(v, a) == Err(Malformed)
  {
    hide Layout, Pack64, Parse64;
    SponsorKeyBytes(a);
    Parse64OfPack64(n);
    if Layout(Sponsor(a)) in v.data && |v.data[Layout(Sponsor(a))]| == 8 {
      Pack64OfParse64(v.data[Layout(Sponsor(a))]);
    }
  }

  /** A market is read exactly from bytes that begin with its encoding. */
  lemma MarketIff(v: View, id: U64, m: Record)
    requires Layout(Market(id)) !in v.noRead
    ensures LoadMarket(v, id) == Ok(m) <==>
            && [1] + Pack64(id) in v.data && m.Encode() <= v.data[[1] + Pack64(id)]
            && |m.description| < 0x1_0000 && |m.oracleSource| < 0x1_0000 && |m.oracleParameters| < 0x8000_0000
    ensures LoadMarket(v, id).Err? ==>
              LoadMarket(v, id) == Err(if [1] + Pack64(id) in v.data then Malformed else NotFound)
  {
    hide Layout, Pack64, Record.Encode, Record.Fields, Codec.Encodable, Decode;
    MarketKeyBytes(id);
    RecordEncodableIff(m);
    if Layout(Market(id)) in v.data {
      DecodeIff(v.data[Layout(Market(id))], m);
    }
  }

  /** The checks of a buy, in order, with the error that each failing one gives. */
  lemma CheckAnswer(v: View, b: Order, t: I64, buyer: Address)
    ensures var d, kb, km := v.data, [3] + buyer + [0, 1], [1] + Pack64(b.marketId);
            Check(v, b, t, buyer) ==
            if b.amount == 0 then Err(AmountCannotBeZero)
            else if b.maxPrice == 0 then Err(MaxPriceCannotBeZero)
            else if km in v.noRead then Err(StoreFault)
            else if km !in d then Err(MarketNotFound)
            else
              match Decode(d[km])
              case None => Err(Malformed)
              case Some(m) =>
                if m.status == 1 || m.status == 2 || m.status == 3 || t > m.endTime then Err(MarketInteraction)
                else if kb in v.noRead then Err(StoreFault)
                else if kb !in d then Err(InsufficientFunds)
                else if |d[kb]| != 8 then Err(Malformed)
                else if FromBE(d[kb]) < b.amount * b.maxPrice % 0x1_0000_0000_0000_0000 then Err(InsufficientFunds)
                else Ok(Quote(m, Parse64(d[kb])))
  {
    hide Layout, Pack64, Decode;
    KeysOfBuy(Yes, b, buyer);
  }

  /** The same on a ledger: which buys are not refused, and why the others are. */
  lemma RefusalAnswer(l: Ledger, b: Order, t: I64, buyer: Address)
    ensures Refusal(l, b, t, buyer) == None <==>
              && b.amount > 0 && b.maxPrice > 0 && b.marketId in l.markets && buyer in l.bal
              && (var m := l.markets[b.marketId]; m.status != 1 && m.status != 2 && m.status != 3 && t <= m.endTime)
              && b.amount * b.maxPrice % 0x1_0000_0000_0000_0000 <= l.bal[buyer]
    ensures Refusal(l, b, t, buyer) != None ==>
              Refusal(l, b, t, buyer) == Some(
                if b.amount == 0 then AmountCannotBeZero
                else if b.maxPrice == 0 then MaxPriceCannotBeZero
                else if b.marketId !in l.markets then MarketNotFound
                else if l.markets[b.marketId].status in {1, 2, 3} || t > l.markets[b.marketId].endTime
                  then MarketInteraction
                else InsufficientFunds)
  {
  }

  /** The answer of every buy on every store: the checks, then the three writes, and what stops each of them. */
  lemma BuyAnswer(v: View, side: Side, b: Order, t: I64, buyer: Address)
    ensures var d, kb := v.data, [3] + buyer + [0, 1];
            var ks := [2] + Pack64(b.marketId) + buyer + [if side.Yes? then 0 else 1];
            Orders.Buy(v, side, b, t, buyer).result ==
            match Check(v, b, t, buyer)
            case Err(e) => Err(e)
            case Ok(q) =>
              if kb in v.noWrite || ks in v.noRead then Err(StoreFault)
              else if ks in d && d[ks] != [] && (|d[ks]| < 8 || FromBE(d[ks][..8]) == 0) then Err(Malformed)
              else if ks in v.noWrite then Err(StoreFault)
              else if |q.market.description| + |q.market.oracleSource| + |q.market.oracleParameters| > 940
                then Err(TooLarge)
              else if [1] + Pack64(q.market.id) in v.noWrite then Err(StoreFault)
              else Ok(Nothing)
  {
    hide Layout, Pack64, Check, Order.Cost, Record.Encode, Record.Storable, Side.Bump;
    KeysOfBuy(side, b, buyer);
    if Check(v, b, t, buyer).Ok? {
      var q := Check(v, b, t, buyer).value;
      PaymentChanges(v, b, t, buyer);
      BumpStorable(q.market, side, b.amount);
      MarketKeyBytes(q.market.id);
      LoadAfter(v, Layout(Balance(buyer)), Pack64(q.balance - b.Cost()), Layout(Shares(b.Holding(side, buyer))));
    }
  }

  /** On a store that refuses nothing a buy is accepted exactly when amount and price are positive, the market's record
      is there and open for trading up to its end time, the balance covers the product modulo 2^64, the share entry can
      be read, and the record fits.  Nothing else matters. */
  lemma BuyAcceptedIff(d: Data, side: Side, b: Order, t: I64, buyer: Address)
    ensures var kb, km := [3] + buyer + [0, 1], [1] + Pack64(b.marketId);
            var ks := [2] + Pack64(b.marketId) + buyer + [if side.Yes? then 0 else 1];
            Orders.Buy(Healthy(d), side, b, t, buyer).result == Ok(Nothing) <==>
              && b.amount > 0 && b.maxPrice > 0
              && km in d && Decode(d[km]).Some?
              && (var m := Decode(d[km]).value;
                  && m.status != 1 && m.status != 2 && m.status != 3 && t <= m.endTime
                  && |m.description| + |m.oracleSource| + |m.oracleParameters| <= 940)
              && kb in d && |d[kb]| == 8 && b.amount * b.maxPrice % 0x1_0000_0000_0000_0000 <= FromBE(d[kb])
              && (ks in d && d[ks] != [] ==> |d[ks]| >= 8 && FromBE(d[ks][..8]) > 0)
  {
    hide Pack64, Check, Orders.Buy, Decode;
    CheckAnswer(Healthy(d), b, t, buyer);
    BuyAnswer(Healthy(d), side, b, t, buyer);
  }
}
