/** actions/buy_yes_action.go.  The source's `Execute` is one method; here its read-only half is `Examine`
    and its share credit is `CreditShares`. */
module BuyYes {
  import opened Words
  import opened Outcomes
  import opened Keys
  import opened State
  import opened Storage
  import opened MarketStorage
  import opened Orders

  /** The order and the market it names: steps up to the market's status and end time. */
  method ExamineMarket(b: Order, mu: Store, txTimestamp: I64) returns (r: Result<Record>)
    ensures r == CheckMarket(mu.Snapshot(), b, txTimestamp)
  {
    if b.amount == 0 {
      return Err(AmountCannotBeZero);
    }
    if b.maxPrice == 0 {
      return Err(MaxPriceCannotBeZero);
    }
    var found := GetMarket(mu, b.marketId);
    if found.Err? {
      return Err(if found.error == NotFound then MarketNotFound else found.error);
    }
    var market := found.value;
    if market.status == STATUS_RESOLVED_YES || market.status == STATUS_RESOLVED_NO {
      return Err(MarketInteraction);
    }
    if txTimestamp > market.endTime && market.status == STATUS_OPEN {
      return Err(MarketInteraction);
    }
    if market.status == STATUS_TRADING_CLOSED {
      return Err(MarketInteraction);
    }
    if txTimestamp > market.endTime {
      return Err(MarketInteraction);
    }
    r := Ok(market);
  }

  /** The market, and then the buyer's balance against the cost. */
  method Examine(b: Order, mu: Store, txTimestamp: I64, actor: Address) returns (r: Result<Quote>)
    ensures r == Check(mu.Snapshot(), b, txTimestamp, actor)
  {
    var market := ExamineMarket(b, mu, txTimestamp);
    if market.Err? {
      return Err(market.error);
    }
    var balanceKey := BalanceKey(actor);
    var currentBalanceBytes := mu.GetValue(balanceKey[..]);
    if currentBalanceBytes.Err? {
      return Err(if currentBalanceBytes.error == NotFound then InsufficientFunds else currentBalanceBytes.error);
    }
    var currentBalance := ParseAmount(currentBalanceBytes.value);
    if currentBalance.Err? {
      return Err(currentBalance.error);
    }
    if currentBalance.value < b.Cost() {
      return Err(InsufficientFunds);
    }
    r := Ok(Quote(market.value, currentBalance.value));
  }

  /** Adds the bought shares to the buyer's entry. */
  method CreditShares(b: Order, mu: Store, actor: Address) returns (r: Result<Output>)
    modifies mu
    ensures Effect(mu.Snapshot(), r)
         == Raise(old(mu.Snapshot()), Layout(Shares(b.Holding(Yes, actor))), b.amount)
  {
    var current := GetShareBalance(mu, b.marketId, actor, Yes.ShareType());
    if current.Err? && current.error != NotFound {
      return Err(current.error);
    }
    var newShareBalance := Wrap(current.value + b.amount);
    r := SetShareBalance(mu, b.marketId, actor, Yes.ShareType(), newShareBalance);
  }

  method Execute(b: Order, mu: Store, txTimestamp: I64, actor: Address) returns (r: Result<Output>)
    modifies mu
    ensures Effect(mu.Snapshot(), r) == Buy(old(mu.Snapshot()), Yes, b, txTimestamp, actor)
  {
    hide Record.Encode, Layout;
    var quote := Examine(b, mu, txTimestamp, actor);
    if quote.Err? {
      return Err(quote.error);
    }
    var market := quote.value.market;

    var newBalance := quote.value.balance - b.Cost();
    var balanceKey := BalanceKey(actor);
    var paid := mu.Insert(balanceKey[..], Pack64(newBalance));
    if paid.Err? {
      return paid;
    }

    var credited := CreditShares(b, mu, actor);
    if credited.Err? {
      return credited;
    }

    market := market.(totalYes := Wrap(market.totalYes + b.amount));
    r := SetMarket(mu, market);
  }
}
