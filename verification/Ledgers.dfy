/** The ledger without bytes: balances, markets and shares as maps, and the machine that runs on it.
    `rest` is whatever else the store holds; no step looks at it. */
module Ledgers {
  import opened Words
  import opened Outcomes
  import opened Keys
  import opened MarketStorage
  import opened Orders
  import opened CreateMarkets

  datatype Ledger = Ledger(
    bal: map<Address, U64>,
    markets: map<U64, Record>,
    shares: map<Holding, U64>,
    rest: map<Bytes, Bytes>)

  /** One transaction.  `Credit` and `Fee` are the balance handler's AddBalance and Deduct. */
  datatype Step =
    | Credit(account: Address, amount: U64)
    | Fee(account: Address, amount: U64)
    | Create(proposal: Proposal, draw: Option<Draw>, creator: Address, time: I64)
    | Buy(side: Side, order: Order, buyer: Address, time: I64)

  datatype Moved = Moved(ledger: Ledger, result: Result<Output>)

  /** An amount as GetBalance and GetShareBalance report it: absent is zero, a stored zero is an error. */
  function AmountIn<K>(m: map<K, U64>, k: K): Result<U64> {
    if k !in m then Ok(0) else if m[k] == 0 then Err(Malformed) else Ok(m[k])
  }

  function ApplyCredit(l: Ledger, a: Address, amount: U64): Moved {
    match AmountIn(l.bal, a)
    case Err(e) => Moved(l, Err(e))
    case Ok(n) => Moved(l.(bal := l.bal[a := Wrap(n + amount)]), Ok(Nothing))
  }

  function ApplyFee(l: Ledger, a: Address, amount: U64): Moved {
    match AmountIn(l.bal, a)
    case Err(e) => Moved(l, Err(e))
    case Ok(n) =>
      if n < amount then Moved(l, Err(InsufficientBalance))
      else Moved(l.(bal := l.bal[a := n - amount]), Ok(Nothing))
  }

  function ApplyCreate(l: Ledger, cm: Proposal, draw: Option<Draw>, creator: Address, t: I64): Moved {
    match Validate(cm, t)
    case Some(e) => Moved(l, Err(e))
    case None =>
      if draw == None then Moved(l, Err(NoEntropy))
      else if cm.TextLength() > 940 then Moved(l, Err(TooLarge))
      else
        var id := IdOf(draw.value);
        Moved(l.(markets := l.markets[id := NewRecord(cm, id, creator)]), Ok(Created(id)))
  }

  /** Why a buy is turned away before it touches anything. */
  function Refusal(l: Ledger, b: Order, t: I64, buyer: Address): Option<Error> {
    if b.amount == 0 then Some(AmountCannotBeZero)
    else if b.maxPrice == 0 then Some(MaxPriceCannotBeZero)
    else if b.marketId !in l.markets then Some(MarketNotFound)
    else if !Tradable(l.markets[b.marketId], t) then Some(MarketInteraction)
    else if buyer !in l.bal || l.bal[buyer] < b.Cost() then Some(InsufficientFunds)
    else None
  }

  /** The buyer's payment, made before the shares are looked at. */
  function Pay(l: Ledger, b: Order, buyer: Address): Ledger
    requires buyer in l.bal && b.Cost() <= l.bal[buyer]
  {
    l.(bal := l.bal[buyer := l.bal[buyer] - b.Cost()])
  }

  /** A completed trade, for a buyer who held `n` shares. */
  function Trade(l: Ledger, side: Side, b: Order, buyer: Address, n: U64): Ledger
    requires buyer in l.bal && b.Cost() <= l.bal[buyer] && b.marketId in l.markets
  {
    Pay(l, b, buyer).(
      shares := l.shares[b.Holding(side, buyer) := Wrap(n + b.amount)],
      markets := l.markets[b.marketId := side.Bump(l.markets[b.marketId], b.amount)])
  }

  function ApplyBuy(l: Ledger, side: Side, b: Order, t: I64, buyer: Address): Moved {
    match Refusal(l, b, t, buyer)
    case Some(e) => Moved(l, Err(e))
    case None =>
      match AmountIn(l.shares, b.Holding(side, buyer))
      case Err(e) => Moved(Pay(l, b, buyer), Err(e))
      case Ok(n) => Moved(Trade(l, side, b, buyer, n), Ok(Nothing))
  }

  function Apply(l: Ledger, s: Step): Moved {
    match s
    case Credit(a, amount) => ApplyCredit(l, a, amount)
    case Fee(a, amount) => ApplyFee(l, a, amount)
    case Create(cm, draw, creator, t) => ApplyCreate(l, cm, draw, creator, t)
    case Buy(side, b, buyer, t) => ApplyBuy(l, side, b, t, buyer)
  }

  function Run(l: Ledger, ss: seq<Step>): Ledger
    decreases |ss|
  {
    if ss == [] then l else Run(Apply(l, ss[0]).ledger, ss[1..])
  }

  function Results(l: Ledger, ss: seq<Step>): (rs: seq<Result<Output>>)
    ensures |rs| == |ss|
    decreases |ss|
  {
    if ss == [] then [] else [Apply(l, ss[0]).result] + Results(Apply(l, ss[0]).ledger, ss[1..])
  }

  /** A ledger before genesis. */
  function Empty(rest: map<Bytes, Bytes>): Ledger {
    Ledger(map[], map[], map[], rest)
  }

  /** No key of the ledger's own families hides in `rest`. */
  predicate Apart(rest: map<Bytes, Bytes>) {
    forall k :: k in rest ==> Classify(k).Foreign? || Classify(k).Sponsor?
  }

  /** Every market sits under its own ID and fits its record limit. */
  ghost predicate WellFormed(l: Ledger) {
    && Apart(l.rest)
    && forall i :: i in l.markets ==> l.markets[i].id == i && l.markets[i].TextLength() <= 940
  }
}
