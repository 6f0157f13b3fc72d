/** A market's life over a run: where its record comes from, what never changes, and when it freezes. */
module Lifecycle {
  import opened Words
  import opened Outcomes
  import opened Keys
  import opened MarketStorage
  import opened Orders
  import opened CreateMarkets
  import opened Ledgers
  import opened Sums
  import opened Accounting

  /** A record without its running totals. */
  function Terms(m: Record): Record {
    m.(totalYes := 0, totalNo := 0)
  }

  /** The creation stores a record. */
  predicate Effective(c: Step) {
    && c.Create? && c.draw.Some? && Validate(c.proposal, c.time) == None && c.proposal.TextLength() <= 940
  }

  function Made(c: Step): Record
    requires Effective(c)
  {
    NewRecord(c.proposal, IdOf(c.draw.value), c.creator)
  }

  /** The step creates market `i` on these terms. */
  predicate Creates(s: Step, i: U64, terms: Record) {
    Effective(s) && IdOf(s.draw.value) == i && terms == Made(s)
  }

  /** With fresh IDs a market, once there, keeps its terms. */
  lemma TermsStep(l: Ledger, s: Step, i: U64)
    requires i in l.markets && Fresh(l, s)
    ensures i in Apply(l, s).ledger.markets
    ensures Terms(Apply(l, s).ledger.markets[i]) == Terms(l.markets[i])
  {
    hide Order.Cost, Wrap, Validate, IdOf;
  }

  lemma {:induction false} TermsNeverChange(l: Ledger, ss: seq<Step>, i: U64)
    requires i in l.markets && FreshRun(l, ss)
    ensures i in Run(l, ss).markets && Terms(Run(l, ss).markets[i]) == Terms(l.markets[i])
    decreases |ss|
  {
    if ss != [] {
      TermsStep(l, ss[0], i);
      TermsNeverChange(Apply(l, ss[0]).ledger, ss[1..], i);
    }
  }

  lemma NewMarketStep(l: Ledger, s: Step, i: U64)
    requires i !in l.markets && i in Apply(l, s).ledger.markets
    ensures Creates(s, i, Apply(l, s).ledger.markets[i])
  {
    hide Order.Cost, Wrap, Validate, IdOf;
  }

  /** Every market of a run was there before or is owed to one creation in it, on that proposal's terms. */
  lemma {:induction false} Provenance(l: Ledger, ss: seq<Step>, i: U64) returns (j: nat)
    requires FreshRun(l, ss) && i !in l.markets && i in Run(l, ss).markets
    ensures j < |ss| && Creates(ss[j], i, Terms(Run(l, ss).markets[i]))
    decreases |ss|
  {
    var l' := Apply(l, ss[0]).ledger;
    if i in l'.markets {
      NewMarketStep(l, ss[0], i);
      TermsNeverChange(l', ss[1..], i);
      j := 0;
    } else {
      j := Provenance(l', ss[1..], i);
      j := j + 1;
    }
  }

  /** What holds of every record that a run from genesis stores. */
  predicate Proper(i: U64, m: Record) {
    && m.id == i && m.status == STATUS_OPEN && m.resolvedOutcome == OUTCOME_PENDING
    && m.endTime < m.resolutionTime
    && 0 < |m.description| <= MAX_DESCRIPTION && m.TextLength() <= 940
  }

  /** Each market that a run adds carries its key's ID, is open and pending, and goes back to a creation made
      strictly before its end time, which precedes its resolution time. */
  lemma AddedMarkets(l: Ledger, ss: seq<Step>, i: U64) returns (j: nat)
    requires FreshRun(l, ss) && i !in l.markets && i in Run(l, ss).markets
    ensures var m := Run(l, ss).markets[i];
            && j < |ss| && Creates(ss[j], i, Terms(m)) && ss[j].time < m.endTime && Proper(i, m)
  {
    j := Provenance(l, ss, i);
    var m := Run(l, ss).markets[i];
    assert Terms(m).endTime == m.endTime && Terms(m).TextLength() == m.TextLength();
  }

  /** The timestamps of a run never fall below `now` and never go back. */
  predicate Ordered(now: I64, ss: seq<Step>)
    decreases |ss|
  {
    if ss == [] then true
    else if ss[0].Create? || ss[0].Buy? then now <= ss[0].time && Ordered(ss[0].time, ss[1..])
    else Ordered(now, ss[1..])
  }

  /** A market's record and everyone's shares in it are the same in both ledgers. */
  ghost predicate SameMarket(l: Ledger, l': Ledger, i: U64) {
    && i in l.markets && i in l'.markets && l.markets[i] == l'.markets[i]
    && forall h: Holding :: h.market == i ==>
         (h in l.shares <==> h in l'.shares) && (h in l.shares ==> l.shares[h] == l'.shares[h])
  }

  lemma FrozenStep(l: Ledger, s: Step, i: U64)
    requires i in l.markets && Fresh(l, s)
    requires s.Buy? ==> l.markets[i].endTime < s.time
    ensures SameMarket(l, Apply(l, s).ledger, i)
  {
    hide Order.Cost, Wrap, Validate, IdOf;
  }

  /** Once the clock has passed a market's end time, its totals and everyone's shares in it stay for good. */
  lemma {:induction false} FreezeAfterEnd(l: Ledger, ss: seq<Step>, i: U64, now: I64)
    requires i in l.markets && l.markets[i].endTime < now
    requires FreshRun(l, ss) && Ordered(now, ss)
    ensures SameMarket(l, Run(l, ss), i)
    decreases |ss|
  {
    if ss != [] {
      var s := ss[0];
      FrozenStep(l, s, i);
      FreezeAfterEnd(Apply(l, s).ledger, ss[1..], i, if s.Create? || s.Buy? then s.time else now);
    }
  }

  /** Both totals and every holding are at least what they were. */
  ghost predicate Grown(l: Ledger, l': Ledger) {
    && l.markets.Keys <= l'.markets.Keys
    && (forall i, side: Side :: i in l.markets ==> side.Total(l.markets[i]) <= side.Total(l'.markets[i]))
    && forall h: Holding :: At(l.shares, h) <= At(l'.shares, h)
  }

  lemma GrowthBuy(l: Ledger, side: Side, b: Order, t: I64, buyer: Address)
    requires NoWrap(l, Buy(side, b, buyer, t))
    ensures Grown(l, ApplyBuy(l, side, b, t, buyer).ledger)
  {
    hide Order.Cost, Wrap;
    if ApplyBuy(l, side, b, t, buyer).result.Ok? {
      WrapSmall(At(l.shares, b.Holding(side, buyer)) + b.amount);
      WrapSmall(side.Total(l.markets[b.marketId]) + b.amount);
    }
  }

  lemma GrowthStep(l: Ledger, s: Step)
    requires Fresh(l, s) && NoWrap(l, s)
    ensures Grown(l, Apply(l, s).ledger)
  {
    hide Validate, IdOf, ApplyBuy;
    if s.Buy? {
      GrowthBuy(l, s.side, s.order, s.time, s.buyer);
    }
  }

  /** Where nothing wraps, totals and holdings only grow. */
  lemma {:induction false} GrowthRun(l: Ledger, ss: seq<Step>)
    requires FreshRun(l, ss) && NoWrapRun(l, ss)
    ensures Grown(l, Run(l, ss))
    decreases |ss|
  {
    if ss != [] {
      var l' := Apply(l, ss[0]).ledger;
      GrowthStep(l, ss[0]);
      GrowthRun(l', ss[1..]);
      forall h: Holding
        ensures At(l.shares, h) <= At(Run(l, ss).shares, h)
      {
        assert At(l.shares, h) <= At(l'.shares, h);
      }
    }
  }

  /** Creations of a run all draw different IDs, none of them in use at its start. */
  predicate DistinctDraws(l: Ledger, ss: seq<Step>) {
    && (forall i :: 0 <= i < |ss| && ss[i].Create? && ss[i].draw.Some? ==> IdOf(ss[i].draw.value) !in l.markets)
    && forall i, j :: 0 <= i < j < |ss| && ss[i].Create? && ss[j].Create? && ss[i].draw.Some? && ss[j].draw.Some?
         ==> IdOf(ss[i].draw.value) != IdOf(ss[j].draw.value)
  }

  /** Distinct draws are enough for the freshness the theorems ask for. */
  lemma {:induction false} DistinctDrawsAreFresh(l: Ledger, ss: seq<Step>)
    requires DistinctDraws(l, ss)
    ensures FreshRun(l, ss)
    decreases |ss|
  {
    if ss != [] {
      var l' := Apply(l, ss[0]).ledger;
      forall i | 0 <= i < |ss[1..]| && ss[1..][i].Create? && ss[1..][i].draw.Some?
        ensures IdOf(ss[1..][i].draw.value) !in l'.markets
      {
        assert ss[1..][i] == ss[i + 1];
        if IdOf(ss[i + 1].draw.value) in l'.markets {
          NewMarketStep(l, ss[0], IdOf(ss[i + 1].draw.value));
        }
      }
      DistinctDrawsAreFresh(l', ss[1..]);
    }
  }
}
