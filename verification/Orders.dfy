/** What the two buy actions have in common: their fields, the keys they declare, and one specification
    of a buy that both `Execute` methods are proved against. */
module Orders {
  import opened Words
  import opened Outcomes
  import opened Codec
  import opened Keys
  import opened State
  import opened Storage
  import opened MarketStorage

  const MAX_ACTION_SIZE: nat := 1024

  datatype Side = Yes | No {
    function Other(): Side {
      if Yes? then No else Yes
    }

    /** consts.YesShareType and consts.NoShareType. */
    function ShareType(): Byte {
      if Yes? then 0 else 1
    }

    function Total(m: Record): U64 {
      if Yes? then m.totalYes else m.totalNo
    }

    /** The record with this side's total raised, modulo 2^64. */
    function Bump(m: Record, amount: U64): Record {
      if Yes? then m.(totalYes := Wrap(m.totalYes + amount)) else m.(totalNo := Wrap(m.totalNo + amount))
    }
  }

  datatype Order = Order(marketId: U64, amount: U64, maxPrice: U64) {
    function Fields(): seq<Field> {
      [FLong(marketId), FLong(amount), FLong(maxPrice)]
    }

    /** The uint64 product, wrap-around included. */
    function Cost(): U64 {
      Wrap(amount * maxPrice)
    }

    function Holding(side: Side, actor: Address): Holding {
      Keys.Holding(marketId, actor, side.ShareType())
    }
  }

  const ORDER_KINDS: seq<Kind> := [KLong, KLong, KLong]

  function FromFields(fs: seq<Field>): Order
    requires OfKinds(fs, ORDER_KINDS)
  {
    Order(fs[0].v, fs[1].v, fs[2].v)
  }

  function DecodeOrder(bs: Bytes): Option<Order> {
    match DecodeFields(ORDER_KINDS, bs)
    case None => None
    case Some(p) => FieldsCanonical(ORDER_KINDS, bs); Some(FromFields(p.value))
  }

  /** Unmarshal gives back an order exactly from that order's bytes and their extensions. */
  lemma DecodeOrderIff(bs: Bytes, b: Order)
    ensures DecodeOrder(bs) == Some(b) <==> EncodeFields(b.Fields()) <= bs
  {
    if DecodeOrder(bs) == Some(b) {
      FieldsCanonical(ORDER_KINDS, bs);
      assert DecodeFields(ORDER_KINDS, bs).value.value == b.Fields();
    }
    if EncodeFields(b.Fields()) <= bs {
      var rest := bs[|EncodeFields(b.Fields())|..];
      assert bs == EncodeFields(b.Fields()) + rest;
      FieldsRoundTrip(ORDER_KINDS, b.Fields(), rest);
    }
  }

  /** An order is its market ID and then its amount and price, 24 bytes in all. */
  lemma OrderLayout(b: Order)
    ensures EncodeFields(b.Fields()) == Pack64(b.marketId) + Pack64(b.amount) + Pack64(b.maxPrice)
  {
    var fs := b.Fields();
    assert fs[0..] == fs && fs[3..] == [];
    EncodeStep(fs, 0); EncodeStep(fs, 1); EncodeStep(fs, 2);
  }

  /** The keys a buy declares, all three for reading and writing. */
  function StateKeys(side: Side, b: Order, actor: Address): set<Bytes> {
    { Layout(Balance(actor)), Layout(Market(b.marketId)), Layout(Shares(b.Holding(side, actor))) }
  }

  /** The three keys of a buy, byte for byte, and that it declares these and no others. */
  lemma KeysOfBuy(side: Side, b: Order, buyer: Address)
    ensures Layout(Balance(buyer)) == [3] + buyer + [0, 1]
    ensures Layout(Market(b.marketId)) == [1] + Pack64(b.marketId)
    ensures Layout(Shares(b.Holding(side, buyer))) ==
            [2] + Pack64(b.marketId) + buyer + [if side.Yes? then 0 else 1]
    ensures StateKeys(side, b, buyer) ==
            { [3] + buyer + [0, 1], [1] + Pack64(b.marketId),
              [2] + Pack64(b.marketId) + buyer + [if side.Yes? then 0 else 1] }
    ensures [3] + buyer + [0, 1] != [2] + Pack64(b.marketId) + buyer + [if side.Yes? then 0 else 1]
  {
    hide Layout, Pack64;
    BalanceKeyBytes(buyer);
    MarketKeyBytes(b.marketId);
    ShareKeyBytes(b.Holding(side, buyer));
  }

  /** When a market takes orders.  Unknown status bytes pass, as they do in the source. */
  predicate Tradable(m: Record, t: I64) {
    && m.status !in {STATUS_TRADING_CLOSED, STATUS_RESOLVED_YES, STATUS_RESOLVED_NO}
    && t <= m.endTime
  }

  /** When a market takes orders: any status but closed, resolved YES and resolved NO, up to and including the end. */
  lemma TradableIff(m: Record, t: I64)
    ensures Tradable(m, t) <==> m.status != 1 && m.status != 2 && m.status != 3 && t <= m.endTime
  {
  }

  /** A buyer's stored balance, as the buy actions read it. */
  function Funds(v: View, actor: Address): Result<U64> {
    match v.Read(Layout(Balance(actor)))
    case Err(e) => Err(if e == NotFound then InsufficientFunds else e)
    case Ok(bs) => ParseAmount(bs)
  }

  /** An order that passed every check: the market as read, and the buyer's balance. */
  datatype Quote = Quote(market: Record, balance: U64)

  function CheckMarket(v: View, b: Order, t: I64): Result<Record> {
    if b.amount == 0 then Err(AmountCannotBeZero)
    else if b.maxPrice == 0 then Err(MaxPriceCannotBeZero)
    else
      match LoadMarket(v, b.marketId)
      case Err(e) => Err(if e == NotFound then MarketNotFound else e)
      case Ok(m) => if Tradable(m, t) then Ok(m) else Err(MarketInteraction)
  }

  function Check(v: View, b: Order, t: I64, actor: Address): Result<Quote> {
    match CheckMarket(v, b, t)
    case Err(e) => Err(e)
    case Ok(m) =>
      match Funds(v, actor)
      case Err(e) => Err(e)
      case Ok(funds) => if funds < b.Cost() then Err(InsufficientFunds) else Ok(Quote(m, funds))
  }

  /** A buy on the byte store: the checks, and then three writes in this order. */
  function Buy(v: View, side: Side, b: Order, t: I64, actor: Address): Effect {
    match Check(v, b, t, actor)
    case Err(e) => Effect(v, Err(e))
    case Ok(q) =>
      var paid := v.Write(Layout(Balance(actor)), Pack64(q.balance - b.Cost()));
      if paid.result.Err? then paid
      else
        var credited := Raise(paid.view, Layout(Shares(b.Holding(side, actor))), b.amount);
        if credited.result.Err? then credited
        else StoreMarket(credited.view, side.Bump(q.market, b.amount))
  }

  /** Bytes of either buy action: a packer of at most MaxActionSize; a failure yields no bytes. */
  method Marshal(b: Order) returns (r: Option<Bytes>)
    ensures r == Some(EncodeFields(b.Fields()))
  {
    OrderLayout(b);
    var packer := new Packers.Packer.Writer(MAX_ACTION_SIZE);
    var ok := MarshalInto(b.Fields(), packer);
    if !ok {
      return None;
    }
    assert [] + EncodeFields(b.Fields()) == EncodeFields(b.Fields());
    r := Some(packer.bytes);
  }

  method Unmarshal(d: Bytes) returns (r: Result<Order>)
    ensures r == match DecodeOrder(d) case None => Err(Malformed) case Some(b) => Ok(b)
  {
    var packer := new Packers.Packer.Reader(d, MAX_ACTION_SIZE);
    assert packer.bytes[packer.offset..] == d;
    var fs := UnmarshalFrom(ORDER_KINDS, packer);
    if fs == None {
      return Err(Malformed);
    }
    FieldsCanonical(ORDER_KINDS, d);
    r := Ok(FromFields(fs.value));
  }
}
