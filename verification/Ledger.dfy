/** Double-entry postings of a dispute (domain/ledger.go) and the balances shown to an analyst. */
module Ledger {
  import opened Prelude
  import opened Regimes
  import opened Lifecycle

  datatype Account = Customer | Suspense | Recovery | Loss

  datatype PostingKind =
    | ProvisionalCreditPosting
    | FastRefundPosting
    | NqaRefundPosting
    | ProvisionalCreditReversal
    | RecoveryPosting
    | WriteOff
  {
    predicate IsCredit() { ProvisionalCreditPosting? || FastRefundPosting? || NqaRefundPosting? }
  }

  /** One double entry: what the debit account gains, the credit account loses. */
  datatype Posting = Posting(kind: PostingKind, debit: Account, credit: Account, amount: real, currency: string) {
    predicate TouchesCustomer() { debit == Customer || credit == Customer }
  }

  /** What the customer receives: the disputed amount less a liability the regime caps. */
  function CreditAmount(r: Rules, disputed: real, liability: real): Result<real, Error> {
    if liability < 0.0 then Err(InvalidLiability)
    else if liability > r.Cap() then Err(InvalidLiability)
    else if liability >= disputed && disputed > 0.0 then Err(InvalidLiability)
    else Ok(disputed - liability)
  }

  /** A liability is accepted exactly within the cap and short of a positive claim; what is credited then stays in bounds. */
  lemma AcceptedLiabilities(r: Rules, disputed: real, liability: real)
    ensures CreditAmount(r, disputed, liability).Ok?
       <==> 0.0 <= liability <= r.Cap() && (disputed > 0.0 ==> liability < disputed)
    ensures CreditAmount(r, disputed, liability).Ok? ==>
              var credit := CreditAmount(r, disputed, liability).value;
              disputed - r.Cap() <= credit <= disputed && (disputed > 0.0 ==> credit > 0.0)
  {
  }

  function ParseSettlement(r: Rules, raw: string): Result<SuspenseSettlement, Error> {
    if raw == "" then Ok(r.closeSettlement)
    else if raw == "RECOVERED" then Ok(Recovered)
    else if raw == "WRITTEN_OFF" then Ok(WrittenOff)
    else Err(InvalidSettlement)
  }

  datatype PostingInput = PostingInput(
    entered: State, disputed: real, currency: string, liability: real, outstanding: real, settlement: SuspenseSettlement)

  function Post(kind: PostingKind, debit: Account, credit: Account, amount: real, currency: string): seq<Posting> {
    if amount > 0.0 then [Posting(kind, debit, credit, amount, currency)] else []
  }

  function SettleSuspense(how: SuspenseSettlement, input: PostingInput): seq<Posting> {
    match how
    case Recovered => Post(RecoveryPosting, Recovery, Suspense, input.outstanding, input.currency)
    case WrittenOff => Post(WriteOff, Loss, Suspense, input.outstanding, input.currency)
  }

  /** The movements entering a state causes. */
  function Postings(r: Rules, input: PostingInput): seq<Posting> {
    var credit := input.disputed - input.liability;
    match input.entered
    case ProvisionalCreditIssued => Post(ProvisionalCreditPosting, Suspense, Customer, credit, input.currency)
    case FastRefundIssued => Post(FastRefundPosting, Suspense, Customer, credit, input.currency)
    case SepaNqaRefundIssued => Post(NqaRefundPosting, Suspense, Customer, credit, input.currency)
    case ProvisionalCreditReversed =>
      Post(ProvisionalCreditReversal, Customer, Suspense, input.outstanding, input.currency)
    case ChargebackWon => SettleSuspense(Recovered, input)
    case ChargebackLost => if r.HasProvisionalCredit() then [] else SettleSuspense(WrittenOff, input)
    case Closed => SettleSuspense(input.settlement, input)
    case _ => []
  }

  // ---------------------------------------------------------------------------------------------------
  // Balances

  function Effect(a: Account, p: Posting): real {
    (if p.debit == a then p.amount else 0.0) - if p.credit == a then p.amount else 0.0
  }

  /** Debits less credits of an account. */
  function Net(a: Account, ps: seq<Posting>): real {
    if ps == [] then 0.0 else Net(a, ps[..|ps| - 1]) + Effect(a, ps[|ps| - 1])
  }

  lemma NetAppend(a: Account, ps: seq<Posting>, p: Posting)
    ensures Net(a, ps + [p]) == Net(a, ps) + Effect(a, p)
  {
    assert (ps + [p])[..|ps|] == ps;
  }

  /** What the bank has advanced on the dispute and not yet cleared. */
  function SuspenseBalance(ps: seq<Posting>): real { Net(Suspense, ps) }

  /** The customer's balance is shown from the customer's side. */
  function CustomerBalance(ps: seq<Posting>): real { -Net(Customer, ps) }

  method SumSuspense(ps: seq<Posting>) returns (total: real)
    ensures total == SuspenseBalance(ps)
  {
    total := 0.0;
    for i := 0 to |ps|
      invariant total == SuspenseBalance(ps[..i])
    {
      if ps[i].debit == Suspense {
        total := total + ps[i].amount;
      }
      if ps[i].credit == Suspense {
        total := total - ps[i].amount;
      }
      assert ps[..i + 1] == ps[..i] + [ps[i]];
      NetAppend(Suspense, ps[..i], ps[i]);
    }
    assert ps[..|ps|] == ps;
  }

  /** The running totals of a view. */
  class Balances {
    var customer: real
    var suspense: real
    var recovery: real
    var loss: real

    ghost predicate Shows(ps: seq<Posting>)
      reads this
    {
      && customer == CustomerBalance(ps)
      && suspense == Net(Suspense, ps) && recovery == Net(Recovery, ps) && loss == Net(Loss, ps)
    }

    constructor ()
      ensures Shows([])
    {
      customer, suspense, recovery, loss := 0.0, 0.0, 0.0, 0.0;
    }

    /** Applies a debit (positive) or a credit (negative) to one account. */
    method Add(a: Account, debit: real)
      modifies this
      ensures customer == old(customer) - if a == Customer then debit else 0.0
      ensures suspense == old(suspense) + if a == Suspense then debit else 0.0
      ensures recovery == old(recovery) + if a == Recovery then debit else 0.0
      ensures loss == old(loss) + if a == Loss then debit else 0.0
    {
      match a
      case Customer => customer := customer - debit;
      case Suspense => suspense := suspense + debit;
      case Recovery => recovery := recovery + debit;
      case Loss => loss := loss + debit;
    }

    method Tally(ps: seq<Posting>)
      requires Shows([])
      modifies this
      ensures Shows(ps)
    {
      for i := 0 to |ps|
        invariant Shows(ps[..i])
      {
        Add(ps[i].debit, ps[i].amount);
        Add(ps[i].credit, -ps[i].amount);
        assert ps[..i + 1] == ps[..i] + [ps[i]];
      }
      assert ps[..|ps|] == ps;
    }
  }

  // ---------------------------------------------------------------------------------------------------
  // Credits and their clearings

  ghost predicate IsCreditOf(p: Posting, disputed: real, cap: real) {
    && p.kind.IsCredit() && p.debit == Suspense && p.credit == Customer
    && p.amount > 0.0 && disputed - cap <= p.amount <= disputed
  }

  ghost predicate IsClearingOf(p: Posting, credited: Posting) {
    && !p.kind.IsCredit() && p.credit == Suspense && p.debit != Suspense && p.amount == credited.amount
    && (p.debit == Customer <==> p.kind == ProvisionalCreditReversal)
  }

  /** The shape of every reachable ledger: credits each followed by their clearing, the last perhaps not yet. */
  ghost predicate Paired(ps: seq<Posting>, disputed: real, cap: real) {
    && (forall i | 0 <= i < |ps| && i % 2 == 0 :: IsCreditOf(ps[i], disputed, cap))
    && (forall i | 0 <= i < |ps| && i % 2 == 1 :: IsClearingOf(ps[i], ps[i - 1]))
  }

  lemma PairedPrefix(ps: seq<Posting>, disputed: real, cap: real)
    requires ps != [] && Paired(ps, disputed, cap)
    ensures Paired(ps[..|ps| - 1], disputed, cap)
  {
    var q := ps[..|ps| - 1];
    forall i | 0 <= i < |q| && i % 2 == 1 ensures IsClearingOf(q[i], q[i - 1]) {
      assert q[i] == ps[i] && q[i - 1] == ps[i - 1];
    }
  }

  lemma {:induction false} PairedSuspense(ps: seq<Posting>, disputed: real, cap: real)
    requires Paired(ps, disputed, cap)
    ensures SuspenseBalance(ps) == if |ps| % 2 == 1 then ps[|ps| - 1].amount else 0.0
  {
    if ps != [] {
      PairedPrefix(ps, disputed, cap);
      PairedSuspense(ps[..|ps| - 1], disputed, cap);
    }
  }

  /** Books balance, whatever was posted. */
  lemma {:induction false} BooksBalance(ps: seq<Posting>)
    ensures CustomerBalance(ps) == Net(Suspense, ps) + Net(Recovery, ps) + Net(Loss, ps)
  {
    if ps != [] {
      BooksBalance(ps[..|ps| - 1]);
    }
  }

  function Pairs(ps: seq<Posting>): nat { (|ps| + 1) / 2 }

  /** So many times an amount, by repeated addition. */
  function Times(n: nat, x: real): real { if n == 0 then 0.0 else Times(n - 1, x) + x }

  lemma {:induction false} TimesIsProduct(n: nat, x: real)
    ensures Times(n, x) == n as real * x
  {
    if n > 0 {
      TimesIsProduct(n - 1, x);
      assert n as real * x == (n - 1) as real * x + x;
    }
  }

  lemma {:induction false} TimesGrows(few: nat, many: nat, x: real)
    requires few <= many && x >= 0.0
    ensures Times(few, x) <= Times(many, x)
    decreases many - few
  {
    if few < many {
      TimesGrows(few, many - 1, x);
    }
  }

  /** No balance of a paired ledger is negative, and the customer holds at most one disputed amount a credit. */
  lemma {:induction false} PairedBalances(ps: seq<Posting>, disputed: real, cap: real)
    requires Paired(ps, disputed, cap)
    ensures Net(Suspense, ps) >= 0.0 && Net(Recovery, ps) >= 0.0 && Net(Loss, ps) >= 0.0
    ensures 0.0 <= CustomerBalance(ps) <= Times(Pairs(ps), disputed)
  {
    BooksBalance(ps);
    PairedSuspense(ps, disputed, cap);
    if ps != [] {
      var last := |ps| - 1;
      PairedPrefix(ps, disputed, cap);
      PairedBalances(ps[..last], disputed, cap);
      if last % 2 == 0 {
        assert IsCreditOf(ps[last], disputed, cap);
        assert Pairs(ps) == Pairs(ps[..last]) + 1;
      } else {
        assert IsClearingOf(ps[last], ps[last - 1]);
        assert Pairs(ps) == Pairs(ps[..last]);
      }
    }
  }

  /** The customer's balance is what is in suspense, recovered or lost, none of it negative, within a bound. */
  ghost predicate Conserved(ps: seq<Posting>, bound: real) {
    && CustomerBalance(ps) == Net(Suspense, ps) + Net(Recovery, ps) + Net(Loss, ps)
    && Net(Suspense, ps) >= 0.0 && Net(Recovery, ps) >= 0.0 && Net(Loss, ps) >= 0.0
    && 0.0 <= CustomerBalance(ps) <= bound
  }

  /** Conservation, with the customer's side bounded by any number of credits there may have been. */
  lemma ConservedWithin(ps: seq<Posting>, disputed: real, cap: real, credits: nat)
    requires Paired(ps, disputed, cap) && Pairs(ps) <= credits && disputed >= 0.0
    ensures Conserved(ps, credits as real * disputed)
  {
    PairedBalances(ps, disputed, cap);
    BooksBalance(ps);
    TimesGrows(Pairs(ps), credits, disputed);
    TimesIsProduct(credits, disputed);
  }
}
