/** Accounts do not disturb one another: buys, fees and credits of different accounts may be
    interleaved in any way, also on the same market. */
module Interleaving {
  import opened Words
  import opened Outcomes
  import opened Keys
  import opened MarketStorage
  import opened Orders
  import opened Ledgers
  import opened Refinement

  /** The account a transaction belongs to; creations belong to everyone, as they open a market to all. */
  predicate Personal(s: Step) {
    !s.Create?
  }

  function Account(s: Step): Address
    requires Personal(s)
  {
    if s.Buy? then s.buyer else s.account
  }

  predicate AllPersonal(ss: seq<Step>) {
    forall i :: 0 <= i < |ss| ==> Personal(ss[i])
  }

  /** The transactions of one account, in order. */
  function Own(ss: seq<Step>, a: Address): seq<Step>
    requires AllPersonal(ss)
  {
    if ss == [] then []
    else (if Account(ss[0]) == a then [ss[0]] else []) + Own(ss[1..], a)
  }

  /** The answers that one account gets during a run. */
  function OwnResults(l: Ledger, ss: seq<Step>, a: Address): seq<Result<Output>>
    requires AllPersonal(ss)
    decreases |ss|
  {
    if ss == [] then []
    else
      var m := Apply(l, ss[0]);
      (if Account(ss[0]) == a then [m.result] else []) + OwnResults(m.ledger, ss[1..], a)
  }

  /** The shares a buy ends up with. */
  datatype Purchase = Purchase(side: Side, order: Order, held: U64)

  /** What a personal transaction does, in absolute terms for its own account and as an increment for a market. */
  datatype Delta = Delta(account: Address, funds: Option<U64>, trade: Option<Purchase>, result: Result<Output>)

  function DeltaOf(l: Ledger, s: Step): Delta
    requires Personal(s)
  {
    match s
    case Credit(a, amount) =>
      var n := AmountIn(l.bal, a);
      if n.Err? then Delta(a, None, None, Err(n.error))
      else Delta(a, Some(Wrap(n.value + amount)), None, Ok(Nothing))
    case Fee(a, amount) =>
      var n := AmountIn(l.bal, a);
      if n.Err? then Delta(a, None, None, Err(n.error))
      else if n.value < amount then Delta(a, None, None, Err(InsufficientBalance))
      else Delta(a, Some(n.value - amount), None, Ok(Nothing))
    case Buy(side, b, a, t) =>
      var refusal := Refusal(l, b, t, a);
      if refusal.Some? then Delta(a, None, None, Err(refusal.value))
      else
        var funds := l.bal[a] - b.Cost();
        var n := AmountIn(l.shares, b.Holding(side, a));
        if n.Err? then Delta(a, Some(funds), None, Err(n.error))
        else Delta(a, Some(funds), Some(Purchase(side, b, Wrap(n.value + b.amount))), Ok(Nothing))
  }

  predicate Applicable(l: Ledger, d: Delta) {
    d.trade.Some? ==> d.trade.value.order.marketId in l.markets
  }

  function PatchBal(bal: map<Address, U64>, d: Delta): map<Address, U64> {
    if d.funds.Some? then bal[d.account := d.funds.value] else bal
  }

  function PatchShares(shares: map<Holding, U64>, d: Delta): map<Holding, U64> {
    if d.trade.None? then shares
    else shares[d.trade.value.order.Holding(d.trade.value.side, d.account) := d.trade.value.held]
  }

  function PatchMarkets(markets: map<U64, Record>, d: Delta): map<U64, Record>
    requires d.trade.Some? ==> d.trade.value.order.marketId in markets
  {
    if d.trade.None? then markets
    else
      var b := d.trade.value.order;
      markets[b.marketId := d.trade.value.side.Bump(markets[b.marketId], b.amount)]
  }

  function Patch(l: Ledger, d: Delta): Ledger
    requires Applicable(l, d)
  {
    Ledger(PatchBal(l.bal, d), PatchMarkets(l.markets, d), PatchShares(l.shares, d), l.rest)
  }

  lemma BuyIsPatch(l: Ledger, side: Side, b: Order, a: Address, t: I64)
    ensures var s := Buy(side, b, a, t);
            var d := DeltaOf(l, s);
            d.account == a && Applicable(l, d) && ApplyBuy(l, side, b, t, a) == Moved(Patch(l, d), d.result)
  {
    hide Order.Cost, Order.Holding, Tradable, Wrap, Side.Bump;
  }

  lemma ApplyIsPatch(l: Ledger, s: Step)
    requires Personal(s)
    ensures var d := DeltaOf(l, s);
            d.account == Account(s) && Applicable(l, d) && Apply(l, s) == Moved(Patch(l, d), d.result)
  {
    hide ApplyBuy, Refusal, Order.Cost, Order.Holding, Wrap, Side.Bump;
    if s.Buy? {
      BuyIsPatch(l, s.side, s.order, s.buyer, s.time);
    }
  }

  /** Another account's patch does not change what a transaction will do. */
  lemma DeltaStable(l: Ledger, s: Step, d: Delta)
    requires Personal(s) && Applicable(l, d) && d.account != Account(s)
    ensures DeltaOf(Patch(l, d), s) == DeltaOf(l, s)
  {
    var l' := Patch(l, d);
    assert AmountIn(l'.bal, Account(s)) == AmountIn(l.bal, Account(s));
    if s.Buy? {
      var h := s.order.Holding(s.side, s.buyer);
      assert AmountIn(l'.shares, h) == AmountIn(l.shares, h);
      assert Refusal(l', s.order, s.time, s.buyer) == Refusal(l, s.order, s.time, s.buyer);
    }
  }

  /** Two bumps of one market's totals commute, wrap-around included. */
  lemma BumpsCommute(m: Record, s: Side, x: U64, t: Side, y: U64)
    ensures t.Bump(s.Bump(m, x), y) == s.Bump(t.Bump(m, y), x)
  {
    hide Wrap;
    WrapAddCommutes(m.totalYes, x, y);
    WrapAddCommutes(m.totalNo, x, y);
  }

  lemma MarketsCommute(ms: map<U64, Record>, d: Delta, e: Delta)
    requires d.trade.Some? ==> d.trade.value.order.marketId in ms
    requires e.trade.Some? ==> e.trade.value.order.marketId in ms
    ensures PatchMarkets(PatchMarkets(ms, d), e) == PatchMarkets(PatchMarkets(ms, e), d)
  {
    hide Side.Bump;
    if d.trade.Some? && e.trade.Some? {
      var p, q := d.trade.value, e.trade.value;
      if p.order.marketId == q.order.marketId {
        BumpsCommute(ms[p.order.marketId], p.side, p.order.amount, q.side, q.order.amount);
      }
    }
  }

  lemma PatchesCommute(l: Ledger, d: Delta, e: Delta)
    requires Applicable(l, d) && Applicable(l, e) && d.account != e.account
    ensures Patch(Patch(l, d), e) == Patch(Patch(l, e), d)
  {
    MarketsCommute(l.markets, d, e);
    hide PatchMarkets;
    assert PatchBal(PatchBal(l.bal, d), e) == PatchBal(PatchBal(l.bal, e), d);
    assert PatchShares(PatchShares(l.shares, d), e) == PatchShares(PatchShares(l.shares, e), d);
  }

  /** Neighbouring transactions of different accounts may change places. */
  lemma Commute(l: Ledger, s: Step, t: Step)
    requires Personal(s) && Personal(t) && Account(s) != Account(t)
    ensures Apply(Apply(l, s).ledger, t) == Moved(Apply(Apply(l, t).ledger, s).ledger, Apply(l, t).result)
    ensures Apply(Apply(l, t).ledger, s).result == Apply(l, s).result
  {
    hide Apply, DeltaOf, Patch;
    var d, e := DeltaOf(l, s), DeltaOf(l, t);
    ApplyIsPatch(l, s);
    ApplyIsPatch(l, t);
    ApplyIsPatch(Apply(l, s).ledger, t);
    ApplyIsPatch(Apply(l, t).ledger, s);
    DeltaStable(l, t, d);
    DeltaStable(l, s, e);
    PatchesCommute(l, d, e);
  }

  /** Two runs that no account can tell apart. */
  ghost predicate Alike(l: Ledger, ss: seq<Step>, tt: seq<Step>)
    requires AllPersonal(ss) && AllPersonal(tt)
  {
    Run(l, ss) == Run(l, tt) && forall a: Address :: OwnResults(l, ss, a) == OwnResults(l, tt, a)
  }

  lemma AlikeCons(l: Ledger, s: Step, ss: seq<Step>, tt: seq<Step>)
    requires Personal(s) && AllPersonal(ss) && AllPersonal(tt)
    requires Alike(Apply(l, s).ledger, ss, tt)
    ensures Alike(l, [s] + ss, [s] + tt)
  {
    assert ([s] + ss)[1..] == ss && ([s] + tt)[1..] == tt;
  }

  lemma AlikeSwap(l: Ledger, s: Step, t: Step, ss: seq<Step>)
    requires Personal(s) && Personal(t) && Account(s) != Account(t) && AllPersonal(ss)
    ensures Alike(l, [s, t] + ss, [t, s] + ss)
  {
    hide Apply;
    Commute(l, s, t);
    RunTwo(l, s, t, ss);
    RunTwo(l, t, s, ss);
  }

  lemma RunTwo(l: Ledger, s: Step, t: Step, ss: seq<Step>)
    requires Personal(s) && Personal(t) && AllPersonal(ss)
    ensures var m := Apply(l, s);
            var n := Apply(m.ledger, t);
            && Run(l, [s, t] + ss) == Run(n.ledger, ss)
            && forall a: Address :: OwnResults(l, [s, t] + ss, a) ==
                 (if Account(s) == a then [m.result] else []) +
                 ((if Account(t) == a then [n.result] else []) + OwnResults(n.ledger, ss, a))
  {
    hide Apply;
    assert ([s, t] + ss)[1..] == [t] + ss;
    assert ([t] + ss)[1..] == ss;
  }

  /** The first transaction of an account may be moved to the front. */
  lemma {:induction false} MoveToFront(l: Ledger, ss: seq<Step>, j: nat)
    requires AllPersonal(ss) && j < |ss|
    requires forall i :: 0 <= i < j ==> Account(ss[i]) != Account(ss[j])
    ensures Alike(l, ss, [ss[j]] + (ss[..j] + ss[j + 1..]))
    decreases j
  {
    hide Apply, Run, OwnResults;
    if j == 0 {
      assert ss == [ss[0]] + (ss[..0] + ss[1..]);
    } else {
      var h, x, tail := ss[0], ss[j], ss[1..];
      var rest := tail[..j - 1] + tail[j..];
      assert tail[j - 1] == x;
      MoveToFront(Apply(l, h).ledger, tail, j - 1);
      AlikeCons(l, h, tail, [x] + rest);
      AlikeSwap(l, h, x, rest);
      Splice(ss, j);
    }
  }

  lemma Splice(ss: seq<Step>, j: nat)
    requires 0 < j < |ss|
    ensures var rest := ss[1..][..j - 1] + ss[1..][j..];
            && [ss[0]] + ss[1..] == ss
            && [ss[0]] + ([ss[j]] + rest) == [ss[0], ss[j]] + rest
            && [ss[j], ss[0]] + rest == [ss[j]] + (ss[..j] + ss[j + 1..])
  {
  }

  lemma {:induction false} OwnConcat(ss: seq<Step>, tt: seq<Step>, a: Address)
    requires AllPersonal(ss) && AllPersonal(tt)
    ensures Own(ss + tt, a) == Own(ss, a) + Own(tt, a)
  {
    hide Account;
    if ss == [] {
      assert ss + tt == tt;
    } else {
      var first := if Account(ss[0]) == a then [ss[0]] else [];
      assert (ss + tt)[0] == ss[0] && (ss + tt)[1..] == ss[1..] + tt;
      OwnConcat(ss[1..], tt, a);
      assert first + (Own(ss[1..], a) + Own(tt, a)) == first + Own(ss[1..], a) + Own(tt, a);
    }
  }

  /** Where an account's first transaction stands. */
  lemma {:induction false} FirstOwn(ss: seq<Step>, a: Address) returns (j: nat)
    requires AllPersonal(ss) && Own(ss, a) != []
    ensures j < |ss| && ss[j] == Own(ss, a)[0]
    ensures forall i :: 0 <= i < j ==> Account(ss[i]) != a
    ensures Account(ss[j]) == a
  {
    if Account(ss[0]) == a {
      j := 0;
    } else {
      j := FirstOwn(ss[1..], a);
      j := j + 1;
    }
  }

  lemma {:induction false} OwnSkips(ss: seq<Step>, a: Address)
    requires AllPersonal(ss) && forall i :: 0 <= i < |ss| ==> Account(ss[i]) != a
    ensures Own(ss, a) == []
  {
    if ss != [] {
      OwnSkips(ss[1..], a);
    }
  }

  lemma OwnMiddle(pre: seq<Step>, x: Step, post: seq<Step>, a: Address)
    requires AllPersonal(pre) && Personal(x) && AllPersonal(post)
    ensures Own(pre + ([x] + post), a) == Own(pre, a) + ((if Account(x) == a then [x] else []) + Own(post, a))
  {
    OwnConcat(pre, [x] + post, a);
    assert ([x] + post)[1..] == post;
  }

  /** Taking an account's first transaction out of a run takes it off that account's list and no other. */
  lemma OwnWithout(pre: seq<Step>, x: Step, post: seq<Step>, a: Address)
    requires AllPersonal(pre) && Personal(x) && AllPersonal(post)
    requires forall i :: 0 <= i < |pre| ==> Account(pre[i]) != Account(x)
    ensures Own(pre + ([x] + post), a) == (if Account(x) == a then [x] else []) + Own(pre + post, a)
  {
    hide Own;
    OwnMiddle(pre, x, post, a);
    OwnConcat(pre, post, a);
    if Account(x) == a {
      OwnSkips(pre, a);
      assert [] + Own(post, a) == Own(post, a);
    } else {
      assert [] + Own(post, a) == Own(post, a) && [] + Own(pre + post, a) == Own(pre + post, a);
    }
  }

  lemma OwnHead(ss: seq<Step>)
    requires ss != [] && AllPersonal(ss)
    ensures Own(ss, Account(ss[0])) != []
  {
  }

  /** Any two interleavings of the accounts' own transactions leave the same ledger and give every
      account the same answers. */
  lemma {:induction false} InterleavingsAgree(l: Ledger, ss: seq<Step>, tt: seq<Step>)
    requires AllPersonal(ss) && AllPersonal(tt)
    requires forall a: Address :: Own(ss, a) == Own(tt, a)
    ensures Alike(l, ss, tt)
    decreases |ss|
  {
    hide Apply;
    if ss == [] {
      if tt != [] {
        OwnHead(tt);
      }
    } else {
      var x := ss[0];
      assert Own(tt, Account(x)) == Own(ss, Account(x));
      var j := FirstOwn(tt, Account(x));
      var rest := tt[..j] + tt[j + 1..];
      assert tt == tt[..j] + ([x] + tt[j + 1..]);
      forall a: Address
        ensures Own(ss[1..], a) == Own(rest, a)
      {
        OwnWithout(tt[..j], x, tt[j + 1..], a);
        assert Own(ss, a) == Own(tt, a);
        var k := if Account(x) == a then 1 else 0;
        assert Own(ss[1..], a) == Own(ss, a)[k..];
        assert Own(rest, a) == Own(tt, a)[k..];
      }
      InterleavingsAgree(Apply(l, x).ledger, ss[1..], rest);
      AlikeCons(l, x, ss[1..], rest);
      MoveToFront(l, tt, j);
      assert [x] + ss[1..] == ss;
    }
  }

  /** The entries of a list of answers that answer one account's transactions. */
  function Answers(ss: seq<Step>, rs: seq<Result<Output>>, a: Address): seq<Result<Output>>
    requires AllPersonal(ss) && |ss| == |rs|
    decreases |ss|
  {
    if ss == [] then []
    else (if Account(ss[0]) == a then [rs[0]] else []) + Answers(ss[1..], rs[1..], a)
  }

  lemma {:induction false} AnswersAreOwnResults(l: Ledger, ss: seq<Step>, a: Address)
    requires AllPersonal(ss)
    ensures Answers(ss, Results(l, ss), a) == OwnResults(l, ss, a)
    decreases |ss|
  {
    if ss != [] {
      AnswersAreOwnResults(Apply(l, ss[0]).ledger, ss[1..], a);
      assert Results(l, ss)[1..] == Results(Apply(l, ss[0]).ledger, ss[1..]);
    }
  }

  /** The same for the bytes: any two interleavings end in the same store and give the same answers. */
  lemma InterleavingsAgreeOnBytes(d: Data, l: Ledger, ss: seq<Step>, tt: seq<Step>)
    requires Holds(d, l) && AllPersonal(ss) && AllPersonal(tt)
    requires forall a: Address :: Own(ss, a) == Own(tt, a)
    ensures RunBytes(d, ss) == RunBytes(d, tt)
    ensures forall a: Address :: Answers(ss, ResultsBytes(d, ss), a) == Answers(tt, ResultsBytes(d, tt), a)
  {
    RunSimulates(d, l, ss);
    RunSimulates(d, l, tt);
    InterleavingsAgree(l, ss, tt);
    StoreUnique(RunBytes(d, ss), RunBytes(d, tt), Run(l, ss));
    forall a: Address
      ensures Answers(ss, ResultsBytes(d, ss), a) == Answers(tt, ResultsBytes(d, tt), a)
    {
      AnswersAreOwnResults(l, ss, a);
      AnswersAreOwnResults(l, tt, a);
    }
  }
}
