/** What becomes of the transactions when the chain grants exactly what they declare.  In hypersdk writing
    includes reading, and putting in an entry that does not exist yet takes the right to allocate as well. */
module Permissions {
  import opened Words
  import opened Outcomes
  import opened Keys
  import opened State
  import opened Storage
  import opened Orders
  import opened CreateMarkets
  import opened Ledgers
  import opened Refinement
  import opened Controllers
  import opened Footprint
  import opened Atomicity

  datatype Permission = Permission(read: bool, allocate: bool, write: bool) {
    function Or(p: Permission): Permission {
      Permission(read || p.read, allocate || p.allocate, write || p.write)
    }
  }

  /** state.Read, and state.Write, which is also what `Read | Write` comes to. */
  const READ: Permission := Permission(true, false, false)
  const WRITE: Permission := Permission(true, false, true)

  type Grants = map<Bytes, Permission>

  /** The store as a transaction with these grants sees it.  No action removes an entry, so what may be written
      stays the same while it executes. */
  ghost function Under(d: Data, g: Grants): View {
    View(d,
         iset k: Bytes | !(k in g && g[k].read),
         iset k: Bytes | !(k in g && g[k].write && (k in d || g[k].allocate)))
  }

  function BuyGrants(side: Side, b: Order, buyer: Address): Grants {
    map k | k in Orders.StateKeys(side, b, buyer) :: WRITE
  }

  function CreateGrants(creator: Address): Grants {
    map k | k in CreateMarkets.StateKeys(creator) :: WRITE
  }

  /** The action's declaration together with the sponsor's. */
  function WithSponsor(g: Grants, sponsor: Address): Grants {
    var k := Layout(Sponsor(sponsor));
    g[k := if k in g then g[k].Or(READ) else READ]
  }

  /** The sponsor's declaration adds the right to read one key, 0 and the sponsor's address, and takes nothing away. */
  lemma SponsorAddsRead(g: Grants, sponsor: Address, k: Bytes)
    ensures var w := WithSponsor(g, sponsor);
            && (k in w && w[k].read <==> (k in g && g[k].read) || k == [0] + sponsor)
            && (k in w && w[k].write <==> k in g && g[k].write)
            && (k in w && w[k].allocate <==> k in g && g[k].allocate)
  {
    SponsorKeyBytes(sponsor);
  }

  lemma SponsorKeyApart(side: Side, b: Order, buyer: Address, a: Address)
    ensures Layout(Sponsor(a)) !in Orders.StateKeys(side, b, buyer)
  {
    assert Layout(Sponsor(a))[0] == SPONSOR_PREFIX;
    assert Layout(Balance(buyer))[0] == BALANCE_PREFIX && Layout(Market(b.marketId))[0] == MARKET_PREFIX;
    assert Layout(Shares(b.Holding(side, buyer)))[0] == SHARE_PREFIX;
  }

  /** Under its own declaration a buy may read its three keys and overwrite them, but not put in a new entry. */
  lemma BuyRefusals(d: Data, side: Side, b: Order, buyer: Address, sponsor: Address, k: Bytes)
    requires k in Orders.StateKeys(side, b, buyer)
    ensures var v := Under(d, WithSponsor(BuyGrants(side, b, buyer), sponsor));
            k !in v.noRead && (k in v.noWrite <==> k !in d)
  {
    hide Orders.StateKeys, Layout;
    SponsorKeyApart(side, b, buyer, sponsor);
  }

  /** Under its own declaration, whoever sponsors it, a buy succeeds exactly when it is accepted and the buyer
      already holds shares of that side.  When it fails it has changed bytes exactly when it was accepted at a
      nonzero cost: the balance entry exists and is overwritten before the new share entry is refused. */
  lemma BuyUnderItsDeclaration(d: Data, l: Ledger, side: Side, b: Order, t: I64, buyer: Address, sponsor: Address)
    requires Holds(d, l)
    ensures var e := Orders.Buy(Under(d, WithSponsor(BuyGrants(side, b, buyer), sponsor)), side, b, t, buyer);
            var h := b.Holding(side, buyer);
            && (e.result.Ok? <==> Refusal(l, b, t, buyer) == None && h in l.shares && l.shares[h] > 0)
            && (e.result.Err? ==>
                  (e.view.data != d <==> Refusal(l, b, t, buyer) == None && b.Cost() > 0))
  {
    hide Layout, Orders.Buy, Under, WithSponsor, BuyGrants, Holds, Order.Cost, Tradable;
    var h := b.Holding(side, buyer);
    var v := Under(d, WithSponsor(BuyGrants(side, b, buyer), sponsor));
    UnderData(d, WithSponsor(BuyGrants(side, b, buyer), sponsor));
    BuyRefusals(d, side, b, buyer, sponsor, Layout(Balance(buyer)));
    BuyRefusals(d, side, b, buyer, sponsor, Layout(Market(b.marketId)));
    BuyRefusals(d, side, b, buyer, sponsor, Layout(Shares(h)));
    Present(d, l, Balance(buyer));
    Present(d, l, Market(b.marketId));
    Present(d, l, Shares(h));
    BuyOutcome(v, l, side, b, t, buyer);
  }

  lemma UnderData(d: Data, g: Grants)
    ensures Under(d, g).data == d
  {
  }

  lemma Present(d: Data, l: Ledger, c: Cell)
    requires Holds(d, l)
    ensures c.Balance? ==> (Layout(c) in d <==> c.owner in l.bal)
    ensures c.Market? ==> (Layout(c) in d <==> c.id in l.markets)
    ensures c.Shares? ==> (Layout(c) in d <==> c.holding in l.shares)
  {
    hide Layout;
    if !c.Foreign? {
      EntryAt(l, c);
      assert Lookup(d, Layout(c)) == Entry(l, Layout(c));
    }
  }

  /** So nobody's first buy on a side of a market ever succeeds; accepted at a nonzero cost, it is charged. */
  lemma FirstBuyNeverSucceeds(d: Data, l: Ledger, side: Side, b: Order, t: I64, buyer: Address, sponsor: Address)
    requires Holds(d, l) && b.Holding(side, buyer) !in l.shares
    ensures var e := Orders.Buy(Under(d, WithSponsor(BuyGrants(side, b, buyer), sponsor)), side, b, t, buyer);
            e.result.Err? && (e.view.data != d <==> Refusal(l, b, t, buyer) == None && b.Cost() > 0)
  {
    hide Orders.Buy, Under, WithSponsor, BuyGrants, Holds;
    BuyUnderItsDeclaration(d, l, side, b, t, buyer, sponsor);
  }

  /** The right to allocate is all that is missing: declared as well, for the same keys, a buy does what it does on a
      store that refuses nothing. */
  lemma AllocationSuffices(d: Data, l: Ledger, side: Side, b: Order, t: I64, buyer: Address)
    requires Holds(d, l)
    ensures var all := map k | k in Orders.StateKeys(side, b, buyer) :: WRITE.Or(Permission(true, true, false));
            var e, f := Orders.Buy(Under(d, all), side, b, t, buyer), Orders.Buy(Healthy(d), side, b, t, buyer);
            e.result == f.result && e.view.data == f.view.data
  {
    hide Orders.Buy, Holds, Orders.StateKeys;
    var all := map k | k in Orders.StateKeys(side, b, buyer) :: WRITE.Or(Permission(true, true, false));
    BuyNeedsOnlyDeclaredKeys(Under(d, all), l, side, b, t, buyer);
  }

  /** A creation never succeeds under its own declaration, whoever sponsors it, and changes nothing. */
  lemma CreateUnderItsDeclaration(d: Data, cm: Proposal, draw: Option<Draw>, creator: Address, t: I64,
                                  sponsor: Address)
    ensures var v := Under(d, WithSponsor(CreateGrants(creator), sponsor));
            var e := CreateMarkets.Create(v, cm, draw, creator, t);
            e.result.Err? && e.view == v
  {
    hide CreateMarkets.StateKeys, Layout, CreateMarkets.Create;
    CreateNeverWithinItsKeys(Under(d, WithSponsor(CreateGrants(creator), sponsor)), cm, draw, creator, t);
  }

  /** A store that refuses to read an account's balance refuses every fee on it. */
  lemma UnreadableBalance(v: View, a: Address, amount: U64)
    requires Layout(Balance(a)) in v.noRead
    ensures LoadAmount(v, Layout(Balance(a))) == Err(StoreFault)
    ensures Deductible(LoadAmount(v, Layout(Balance(a))), amount) == Err(StoreFault)
    ensures Debit(v, Layout(Balance(a)), amount, InsufficientBalance) == Effect(v, Err(StoreFault))
  {
    hide Layout;
  }

  /** The sponsor's declaration names the 0x0-prefixed key while fees are read and taken under the 0x3-prefixed
      one.  In a buy the sponsor's balance can be read exactly when the sponsor is the buyer, who declares it. */
  lemma SponsorOfBuy(d: Data, side: Side, b: Order, buyer: Address, sponsor: Address)
    ensures var v := Under(d, WithSponsor(BuyGrants(side, b, buyer), sponsor));
            Layout(Balance(sponsor)) in v.noRead <==> sponsor != buyer
  {
    hide Layout;
    BalanceApart(sponsor, buyer, b.marketId, b.Holding(side, buyer), sponsor);
  }

  lemma BalanceApart(a: Address, owner: Address, id: U64, h: Holding, other: Address)
    ensures Layout(Balance(a)) == Layout(Balance(owner)) <==> a == owner
    ensures Layout(Balance(a)) != Layout(Market(id)) && Layout(Balance(a)) != Layout(Shares(h))
    ensures Layout(Balance(a)) != Layout(Sponsor(other))
  {
    hide Layout;
    ClassifyOfLayout(Balance(a));
    ClassifyOfLayout(Balance(owner));
    ClassifyOfLayout(Market(id));
    ClassifyOfLayout(Shares(h));
    ClassifyOfLayout(Sponsor(other));
  }

  /** In a creation it never can. */
  lemma SponsorOfCreate(d: Data, creator: Address, sponsor: Address)
    ensures Layout(Balance(sponsor)) in Under(d, WithSponsor(CreateGrants(creator), sponsor)).noRead
  {
    var k := Layout(Balance(sponsor));
    assert k[0] == BALANCE_PREFIX && Layout(Sponsor(sponsor))[0] == SPONSOR_PREFIX;
    assert Layout(Sponsor(creator))[0] == SPONSOR_PREFIX && [MARKET_PREFIX][0] == MARKET_PREFIX;
  }

  datatype Transaction = Transaction(step: Step, sponsor: Address) {
    predicate Money() {
      step.Credit? || step.Fee?
    }
  }

  /** A transaction that is granted what it declares; credits and fees are granted everything. */
  ghost function ApplyGranted(d: Data, tx: Transaction): Effect {
    match tx.step
    case Credit(_, _) => ApplyBytes(d, tx.step)
    case Fee(_, _) => ApplyBytes(d, tx.step)
    case Create(cm, draw, creator, t) =>
      CreateMarkets.Create(Under(d, WithSponsor(CreateGrants(creator), tx.sponsor)), cm, draw, creator, t)
    case Buy(side, b, buyer, t) =>
      Orders.Buy(Under(d, WithSponsor(BuyGrants(side, b, buyer), tx.sponsor)), side, b, t, buyer)
  }

  ghost function RunGranted(d: Data, txs: seq<Transaction>): Data
    decreases |txs|
  {
    if txs == [] then d else RunGranted(ApplyGranted(d, txs[0]).view.data, txs[1..])
  }

  ghost function ResultsGranted(d: Data, txs: seq<Transaction>): (rs: seq<Result<Output>>)
    ensures |rs| == |txs|
    decreases |txs|
  {
    if txs == [] then []
    else
      var e := ApplyGranted(d, txs[0]);
      [e.result] + ResultsGranted(e.view.data, txs[1..])
  }

  /** The credits and fees of a run. */
  function MoneySteps(txs: seq<Transaction>): seq<Step> {
    if txs == [] then [] else (if txs[0].Money() then [txs[0].step] else []) + MoneySteps(txs[1..])
  }

  lemma GrantedStep(d: Data, l: Ledger, tx: Transaction)
    requires Holds(d, l) && l.markets == map[]
    ensures var e := ApplyGranted(d, tx);
            var m := Apply(l, tx.step);
            if tx.Money() then
              && Holds(e.view.data, m.ledger) && e.result == m.result
              && m.ledger.markets == l.markets && m.ledger.shares == l.shares
            else e.view.data == d && e.result.Err?
  {
    hide Holds, ApplyBytes, CreateMarkets.Create, Orders.Buy, Under, WithSponsor, Order.Cost;
    match tx.step
    case Credit(_, _) => ApplySimulates(d, l, tx.step);
    case Fee(_, _) => ApplySimulates(d, l, tx.step);
    case Create(cm, draw, creator, t) =>
      CreateUnderItsDeclaration(d, cm, draw, creator, t, tx.sponsor);
      UnderData(d, WithSponsor(CreateGrants(creator), tx.sponsor));
    case Buy(side, b, buyer, t) =>
      BuyUnderItsDeclaration(d, l, side, b, t, buyer, tx.sponsor);
  }

  lemma MoneyFirst(l: Ledger, tx: Transaction, txs: seq<Transaction>)
    ensures Run(l, MoneySteps([tx] + txs)) ==
            Run(if tx.Money() then Apply(l, tx.step).ledger else l, MoneySteps(txs))
  {
    hide Apply;
    assert ([tx] + txs)[1..] == txs;
    assert ([tx.step] + MoneySteps(txs))[1..] == MoneySteps(txs) && [] + MoneySteps(txs) == MoneySteps(txs);
  }

  /** In every run under the declared keys, from a store without markets as genesis leaves it, no creation and no
      buy ever succeeds, and the store is what the credits and fees alone make of it: no market, no new share. */
  lemma {:induction false} NothingTrades(d: Data, l: Ledger, txs: seq<Transaction>)
    requires Holds(d, l) && l.markets == map[]
    ensures var k := Run(l, MoneySteps(txs));
            Holds(RunGranted(d, txs), k) && k.markets == map[] && k.shares == l.shares
    ensures forall i :: 0 <= i < |txs| && !txs[i].Money() ==> ResultsGranted(d, txs)[i].Err?
    decreases |txs|
  {
    hide Holds, ApplyGranted, Apply;
    if txs != [] {
      hide MoneySteps, Run;
      var tx, e := txs[0], ApplyGranted(d, txs[0]);
      GrantedStep(d, l, tx);
      var l' := if tx.Money() then Apply(l, tx.step).ledger else l;
      NothingTrades(e.view.data, l', txs[1..]);
      assert [tx] + txs[1..] == txs;
      MoneyFirst(l, tx, txs[1..]);
      var rs, tail := ResultsGranted(d, txs), ResultsGranted(e.view.data, txs[1..]);
      assert forall i :: 1 <= i < |txs| ==> txs[i] == txs[1..][i - 1] && rs[i] == tail[i - 1];
    }
  }
}
