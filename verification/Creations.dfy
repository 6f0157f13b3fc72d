/** Interleavings that also create markets.  A creation opens its market to every account, so it must stay ahead
    of that market's buys; with respect to everything else it may be moved freely. */
module Creations {
  import opened Words
  import opened Outcomes
  import opened Keys
  import opened MarketStorage
  import opened Orders
  import opened CreateMarkets
  import opened Ledgers
  import opened Refinement
  import opened Lifecycle
  import opened Interleaving

  predicate AllCreate(ss: seq<Step>) {
    forall i :: 0 <= i < |ss| ==> ss[i].Create?
  }

  function CreationsOf(ss: seq<Step>): (cs: seq<Step>)
    ensures AllCreate(cs) && forall c :: c in cs <==> c in ss && c.Create?
  {
    if ss == [] then [] else (if ss[0].Create? then [ss[0]] else []) + CreationsOf(ss[1..])
  }

  /** The transactions that belong to an account. */
  function Personals(ss: seq<Step>): (ps: seq<Step>)
    ensures AllPersonal(ps)
  {
    if ss == [] then [] else (if Personal(ss[0]) then [ss[0]] else []) + Personals(ss[1..])
  }

  /** The answers to those. */
  function PersonalAnswers(ss: seq<Step>, rs: seq<Result<Output>>): (ps: seq<Result<Output>>)
    requires |ss| == |rs|
    ensures |ps| == |Personals(ss)|
    decreases |ss|
  {
    if ss == [] then [] else (if Personal(ss[0]) then [rs[0]] else []) + PersonalAnswers(ss[1..], rs[1..])
  }

  /** The step stores the market that the other buys in. */
  predicate Opens(c: Step, s: Step) {
    Effective(c) && s.Buy? && s.order.marketId == IdOf(c.draw.value)
  }

  /** No buy comes before the creation of its market. */
  predicate Orderly(ss: seq<Step>) {
    forall i, j :: 0 <= i < j < |ss| ==> !Opens(ss[j], ss[i])
  }

  /** Different creations store under different IDs. */
  ghost predicate DistinctIds(cs: seq<Step>) {
    forall c, d :: c in cs && d in cs && Effective(c) && Effective(d) && IdOf(c.draw.value) == IdOf(d.draw.value)
      ==> c == d
  }

  /** What a creation does and answers does not depend on the ledger. */
  lemma CreateApplies(l: Ledger, c: Step)
    requires c.Create?
    ensures Apply(l, c).ledger ==
            if Effective(c) then l.(markets := l.markets[IdOf(c.draw.value) := Made(c)]) else l
    ensures Effective(c) ==> Apply(l, c).result == Ok(Created(IdOf(c.draw.value)))
  {
    hide Validate, IdOf, NewRecord;
  }

  lemma SameAnswer(l: Ledger, k: Ledger, c: Step)
    requires c.Create?
    ensures Apply(l, c).result == Apply(k, c).result
  {
    hide Validate, IdOf, NewRecord;
  }

  lemma DeltaIgnoresMarket(l: Ledger, x: Step, i: U64, m: Record)
    requires Personal(x) && (x.Buy? ==> x.order.marketId != i)
    ensures var l' := l.(markets := l.markets[i := m]);
            && DeltaOf(l', x) == DeltaOf(l, x)
            && Applicable(l, DeltaOf(l, x))
            && Patch(l', DeltaOf(l, x)) ==
                 Patch(l, DeltaOf(l, x)).(markets := Patch(l, DeltaOf(l, x)).markets[i := m])
  {
    hide Order.Cost, Order.Holding, Tradable, Wrap, Side.Bump;
    var d, l' := DeltaOf(l, x), l.(markets := l.markets[i := m]);
    if x.Buy? {
      assert Refusal(l', x.order, x.time, x.buyer) == Refusal(l, x.order, x.time, x.buyer);
    }
    assert DeltaOf(l', x) == d;
    assert PatchMarkets(l'.markets, d) == PatchMarkets(l.markets, d)[i := m];
  }

  /** A creation may change places with any transaction that does not buy in its market. */
  lemma CreateCommutes(l: Ledger, c: Step, x: Step)
    requires c.Create? && Personal(x) && !Opens(c, x)
    ensures Apply(Apply(l, c).ledger, x) == Moved(Apply(Apply(l, x).ledger, c).ledger, Apply(l, x).result)
  {
    hide Apply, DeltaOf, Patch, IdOf, Made, Validate;
    CreateApplies(l, c);
    CreateApplies(Apply(l, x).ledger, c);
    ApplyIsPatch(l, x);
    ApplyIsPatch(Apply(l, c).ledger, x);
    if Effective(c) {
      DeltaIgnoresMarket(l, x, IdOf(c.draw.value), Made(c));
    }
  }

  /** A transaction that buys in none of their markets may be moved behind a list of creations. */
  lemma {:induction false} PassCreations(l: Ledger, cs: seq<Step>, x: Step)
    requires AllCreate(cs) && Personal(x) && forall c :: c in cs ==> !Opens(c, x)
    ensures Apply(Run(l, cs), x) == Moved(Run(Apply(l, x).ledger, cs), Apply(l, x).result)
    decreases |cs|
  {
    hide Apply, Opens;
    if cs != [] {
      CreateCommutes(l, cs[0], x);
      PassCreations(Apply(l, cs[0]).ledger, cs[1..], x);
    }
  }

  /** In an orderly run all creations may be done first: the same ledger, and the same answers to the rest. */
  lemma {:induction false} CreationsFirst(l: Ledger, ss: seq<Step>)
    requires Orderly(ss)
    ensures Run(l, ss) == Run(Run(l, CreationsOf(ss)), Personals(ss))
    ensures PersonalAnswers(ss, Results(l, ss)) == Results(Run(l, CreationsOf(ss)), Personals(ss))
    decreases |ss|
  {
    hide Apply, Opens;
    if ss != [] {
      var x, rest := ss[0], ss[1..];
      var l', cs, ps := Apply(l, x).ledger, CreationsOf(rest), Personals(rest);
      CreationsFirst(l', rest);
      assert Results(l, ss)[1..] == Results(l', rest);
      if x.Create? {
        assert ([x] + cs)[1..] == cs && [] + ps == ps;
      } else {
        forall c | c in cs
          ensures !Opens(c, x)
        {
          var j :| 0 <= j < |rest| && rest[j] == c;
          assert ss[j + 1] == c;
        }
        PassCreations(l, cs, x);
        assert ([x] + ps)[1..] == ps && [] + cs == cs;
      }
    }
  }

  /** What a list of creations leaves: each effective one's record under its ID, and all else as it was. */
  lemma {:induction false} AfterCreations(l: Ledger, cs: seq<Step>)
    requires AllCreate(cs) && DistinctIds(cs)
    ensures var k := Run(l, cs);
            && k == l.(markets := k.markets)
            && (forall c :: c in cs && Effective(c) ==>
                  IdOf(c.draw.value) in k.markets && k.markets[IdOf(c.draw.value)] == Made(c))
            && (forall i: U64 :: (forall c :: c in cs && Effective(c) ==> IdOf(c.draw.value) != i) ==>
                  (i in k.markets <==> i in l.markets) && (i in k.markets ==> k.markets[i] == l.markets[i]))
    decreases |cs|
  {
    hide Apply, IdOf, Made, Validate;
    if cs != [] {
      var c0, rest := cs[0], cs[1..];
      var l' := Apply(l, c0).ledger;
      CreateApplies(l, c0);
      AfterCreations(l', rest);
      var k := Run(l, cs);
      assert k == Run(l', rest);
      forall c | c in cs && Effective(c)
        ensures IdOf(c.draw.value) in k.markets && k.markets[IdOf(c.draw.value)] == Made(c)
      {
        if c !in rest {
          assert forall d :: d in rest && Effective(d) ==> IdOf(d.draw.value) != IdOf(c.draw.value);
        }
      }
    }
  }

  /** Lists of the same creations leave the same ledger, whatever their order. */
  lemma CreationsReordered(l: Ledger, cs: seq<Step>, ds: seq<Step>)
    requires AllCreate(cs) && AllCreate(ds) && DistinctIds(cs) && forall c :: c in cs <==> c in ds
    ensures Run(l, cs) == Run(l, ds)
  {
    hide Run, IdOf, Made, Validate;
    AfterCreations(l, cs);
    AfterCreations(l, ds);
    var k, m := Run(l, cs), Run(l, ds);
    forall i: U64
      ensures i in k.markets <==> i in m.markets
      ensures i in k.markets ==> k.markets[i] == m.markets[i]
    {
      if c :| c in cs && Effective(c) && IdOf(c.draw.value) == i {
      }
    }
    assert k.markets == m.markets;
  }

  lemma {:induction false} CreationAnswer(l: Ledger, k: Ledger, ss: seq<Step>, i: nat)
    requires i < |ss| && ss[i].Create?
    ensures Results(l, ss)[i] == Apply(k, ss[i]).result
    decreases i
  {
    hide Apply;
    if i == 0 {
      SameAnswer(l, k, ss[0]);
    } else {
      CreationAnswer(Apply(l, ss[0]).ledger, k, ss[1..], i - 1);
    }
  }

  /** Any two orderly interleavings of the accounts' own transactions and of the same creations leave the same
      ledger, give every account the same answers, and answer every creation alike. */
  lemma InterleavingsWithCreationsAgree(l: Ledger, ss: seq<Step>, tt: seq<Step>)
    requires Orderly(ss) && Orderly(tt)
    requires forall a: Address :: Own(Personals(ss), a) == Own(Personals(tt), a)
    requires DistinctIds(CreationsOf(ss)) && forall c :: c in CreationsOf(ss) <==> c in CreationsOf(tt)
    ensures Run(l, ss) == Run(l, tt)
    ensures forall a: Address :: Answers(Personals(ss), PersonalAnswers(ss, Results(l, ss)), a)
                              == Answers(Personals(tt), PersonalAnswers(tt, Results(l, tt)), a)
    ensures forall i, j :: 0 <= i < |ss| && 0 <= j < |tt| && ss[i].Create? && ss[i] == tt[j] ==>
              Results(l, ss)[i] == Results(l, tt)[j]
  {
    hide Apply, Run, Results, Orderly, DistinctIds;
    CreationsFirst(l, ss);
    CreationsFirst(l, tt);
    CreationsReordered(l, CreationsOf(ss), CreationsOf(tt));
    var k := Run(l, CreationsOf(ss));
    InterleavingsAgree(k, Personals(ss), Personals(tt));
    forall a: Address
      ensures Answers(Personals(ss), PersonalAnswers(ss, Results(l, ss)), a)
           == Answers(Personals(tt), PersonalAnswers(tt, Results(l, tt)), a)
    {
      AnswersAreOwnResults(k, Personals(ss), a);
      AnswersAreOwnResults(k, Personals(tt), a);
    }
    forall i, j | 0 <= i < |ss| && 0 <= j < |tt| && ss[i].Create? && ss[i] == tt[j]
      ensures Results(l, ss)[i] == Results(l, tt)[j]
    {
      CreationAnswer(l, l, ss, i);
      CreationAnswer(l, l, tt, j);
    }
  }

  /** The same for the bytes. */
  lemma InterleavingsWithCreationsAgreeOnBytes(d: Data, l: Ledger, ss: seq<Step>, tt: seq<Step>)
    requires Holds(d, l) && Orderly(ss) && Orderly(tt)
    requires forall a: Address :: Own(Personals(ss), a) == Own(Personals(tt), a)
    requires DistinctIds(CreationsOf(ss)) && forall c :: c in CreationsOf(ss) <==> c in CreationsOf(tt)
    ensures RunBytes(d, ss) == RunBytes(d, tt)
    ensures forall a: Address :: Answers(Personals(ss), PersonalAnswers(ss, ResultsBytes(d, ss)), a)
                              == Answers(Personals(tt), PersonalAnswers(tt, ResultsBytes(d, tt)), a)
    ensures forall i, j :: 0 <= i < |ss| && 0 <= j < |tt| && ss[i].Create? && ss[i] == tt[j] ==>
              ResultsBytes(d, ss)[i] == ResultsBytes(d, tt)[j]
  {
    hide Holds, RunBytes, ResultsBytes, Run, Results, Orderly, DistinctIds;
    RunSimulates(d, l, ss);
    RunSimulates(d, l, tt);
    InterleavingsWithCreationsAgree(l, ss, tt);
    StoreUnique(RunBytes(d, ss), RunBytes(d, tt), Run(l, ss));
  }
}
