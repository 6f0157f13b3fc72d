/** controller/controller.go: the chain's balance handler, and what sequences of its calls amount to. */
module Controllers {
  import opened Words
  import opened Outcomes
  import opened Keys
  import opened State
  import opened Storage
  import opened Sums
  import opened Orders
  import opened Ledgers
  import opened Refinement

  /** Whether a fee of `amount` could be taken. */
  function Deductible(balance: Result<U64>, amount: U64): Result<Output> {
    match balance
    case Err(e) => Err(e)
    case Ok(n) => if n < amount then Err(InsufficientBalance) else Ok(Nothing)
  }

  class Controller {
    constructor () {}

    method SponsorStateKeys(addr: Address) returns (keys: set<Bytes>)
      ensures keys == {Layout(Sponsor(addr))}
    {
      var key := StateKeysBalance(addr);
      keys := {key[..]};
    }

    method CanDeduct(addr: Address, im: Store, amount: U64) returns (r: Result<Output>)
      ensures r == Deductible(LoadAmount(im.Snapshot(), Layout(Balance(addr))), amount)
    {
      var bal := Storage.GetBalance(im, addr);
      if bal.Err? {
        return Err(bal.error);
      }
      if bal.value < amount {
        return Err(InsufficientBalance);
      }
      r := Ok(Nothing);
    }

    method Deduct(addr: Address, mu: Store, amount: U64) returns (r: Result<Output>)
      modifies mu
      ensures Effect(mu.Snapshot(), r)
           == Debit(old(mu.Snapshot()), Layout(Balance(addr)), amount, InsufficientBalance)
    {
      r := DeductBalance(mu, addr, amount);
    }

    method AddBalance(addr: Address, mu: Store, amount: U64) returns (r: Result<Output>)
      modifies mu
      ensures Effect(mu.Snapshot(), r) == Raise(old(mu.Snapshot()), Layout(Balance(addr)), amount)
    {
      r := Storage.AddBalance(mu, addr, amount);
    }

    method GetBalance(addr: Address, im: Store) returns (r: Result<U64>)
      ensures r == LoadAmount(im.Snapshot(), Layout(Balance(addr)))
    {
      r := Storage.GetBalance(im, addr);
    }
  }

  function Charges(a: Address, amounts: seq<U64>): seq<Step> {
    if amounts == [] then [] else [Fee(a, amounts[0])] + Charges(a, amounts[1..])
  }

  function TotalOf(amounts: seq<U64>): nat {
    if amounts == [] then 0 else amounts[0] + TotalOf(amounts[1..])
  }

  predicate AllOk(rs: seq<Result<Output>>) {
    forall i :: 0 <= i < |rs| ==> rs[i].Ok?
  }

  /** A list of positive fees all succeed exactly when the account holds their sum; the balance is then the
      difference and nothing else has changed. */
  lemma {:induction false} FeeSequence(l: Ledger, a: Address, amounts: seq<U64>)
    requires amounts != [] && forall i :: 0 <= i < |amounts| ==> amounts[i] > 0
    ensures AllOk(Results(l, Charges(a, amounts))) <==> a in l.bal && TotalOf(amounts) <= l.bal[a]
    ensures AllOk(Results(l, Charges(a, amounts))) ==>
              Run(l, Charges(a, amounts)) == l.(bal := l.bal[a := l.bal[a] - TotalOf(amounts)])
    decreases |amounts|
  {
    var fees := Charges(a, amounts);
    var m := Apply(l, fees[0]);
    assert fees[1..] == Charges(a, amounts[1..]);
    assert Results(l, fees) == [m.result] + Results(m.ledger, fees[1..]);
    assert AllOk(Results(l, fees)) <==> m.result.Ok? && AllOk(Results(m.ledger, fees[1..])) by {
      var rs := Results(l, fees);
      assert rs[0] == m.result && rs[1..] == Results(m.ledger, fees[1..]);
      assert AllOk(rs[1..]) ==> forall i :: 1 <= i < |rs| ==> rs[i] == rs[1..][i - 1];
    }
    if amounts[1..] == [] {
      assert TotalOf(amounts) == amounts[0];
    } else {
      FeeSequence(m.ledger, a, amounts[1..]);
    }
  }

  /** CanDeduct on the sum foretells the whole sequence. */
  lemma CanDeductForetellsFees(l: Ledger, a: Address, amounts: seq<U64>)
    requires amounts != [] && forall i :: 0 <= i < |amounts| ==> amounts[i] > 0
    requires TotalOf(amounts) < TWO_64
    ensures AllOk(Results(l, Charges(a, amounts))) <==> Deductible(AmountIn(l.bal, a), TotalOf(amounts)).Ok?
  {
    FeeSequence(l, a, amounts);
    assert TotalOf(amounts) >= amounts[0];
  }

  /** A credit fails exactly on an account whose stored balance is zero. */
  lemma CreditFailsIff(l: Ledger, a: Address, amount: U64)
    ensures Apply(l, Credit(a, amount)).result.Err? <==> a in l.bal && l.bal[a] == 0
  {
  }

  predicate Drained(l: Ledger, a: Address) {
    a in l.bal && l.bal[a] == 0
  }

  lemma DrainedStep(l: Ledger, s: Step, a: Address)
    requires Drained(l, a)
    ensures Drained(Apply(l, s).ledger, a)
    ensures (s.Credit? || s.Fee?) && s.account == a ==> Apply(l, s).result == Err(Malformed)
  {
  }

  /** When a step drains an account: a credit whose sum is zero modulo 2^64, which a credit of zero to an account
      without a record already is; a fee of all there is, which a fee of zero to such an account also is; and an
      accepted buy that costs all there is. */
  lemma DrainsIff(l: Ledger, s: Step, a: Address)
    requires !Drained(l, a)
    ensures Drained(Apply(l, s).ledger, a) <==>
              match s
              case Credit(b, amount) => b == a && Wrap(At(l.bal, a) + amount) == 0
              case Fee(b, amount) => b == a && amount == At(l.bal, a)
              case Create(_, _, _, _) => false
              case Buy(_, b, buyer, t) => buyer == a && Refusal(l, b, t, a) == None && b.Cost() == l.bal[a]
  {
    hide Order.Cost, Tradable;
  }

  /** A credit of zero to an account without a record is accepted and locks the account for good. */
  lemma ZeroCreditLocks(l: Ledger, a: Address, ss: seq<Step>)
    requires a !in l.bal
    ensures var m := Apply(l, Credit(a, 0));
            && m.result == Ok(Nothing) && Drained(Run(m.ledger, ss), a)
            && forall amount: U64 :: Apply(Run(m.ledger, ss), Credit(a, amount)).result == Err(Malformed)
  {
    var l' := Apply(l, Credit(a, 0)).ledger;
    DrainedForever(l', ss, a);
  }

  /** An account drained to exactly zero stays there: no credit and no fee on it ever succeeds again. */
  lemma {:induction false} DrainedForever(l: Ledger, ss: seq<Step>, a: Address)
    requires Drained(l, a)
    ensures Drained(Run(l, ss), a)
    ensures forall i :: 0 <= i < |ss| && (ss[i].Credit? || ss[i].Fee?) && ss[i].account == a ==>
              Results(l, ss)[i] == Err(Malformed)
    decreases |ss|
  {
    if ss != [] {
      var l' := Apply(l, ss[0]).ledger;
      DrainedStep(l, ss[0], a);
      DrainedForever(l', ss[1..], a);
      assert forall i :: 1 <= i < |ss| ==> ss[i] == ss[1..][i - 1] && Results(l, ss)[i] == Results(l', ss[1..])[i - 1];
    }
  }

  /** The RPC query reads the sponsor key, where no step ever writes: it answers zero in every run. */
  lemma QueryAnswersZero(d: Data, l: Ledger, ss: seq<Step>, a: Address)
    requires Holds(d, l) && Layout(Sponsor(a)) !in d
    ensures QueriedBalance(Healthy(RunBytes(d, ss)), a) == Ok(0)
    ensures var v := Healthy(RunBytes(d, ss));
            QueriedBalance(v, a) == LoadAmount(v, Layout(Balance(a))) <==> a !in Run(l, ss).bal
  {
    hide Layout, LoadAmount, Holds;
    RunSimulates(d, l, ss);
    RestKept(l, ss);
    SponsorAbsent(d, l, a);
    SponsorAbsent(RunBytes(d, ss), Run(l, ss), a);
    LoadBalance(Healthy(RunBytes(d, ss)), Run(l, ss), a);
  }

  lemma SponsorAbsent(d: Data, l: Ledger, a: Address)
    requires Holds(d, l)
    ensures Layout(Sponsor(a)) in d <==> Layout(Sponsor(a)) in l.rest
  {
    EntryAt(l, Sponsor(a));
    assert Lookup(d, Layout(Sponsor(a))) == Entry(l, Layout(Sponsor(a)));
  }

  lemma {:induction false} RestKept(l: Ledger, ss: seq<Step>)
    ensures Run(l, ss).rest == l.rest
    decreases |ss|
  {
    if ss != [] {
      RestKept(Apply(l, ss[0]).ledger, ss[1..]);
    }
  }
}
