/** Whether all that has moved at the bank is on the books: a payment rolled back and never committed is not. */
module Bookings {
  import opened Regimes
  import opened Ledger
  import opened BankingCore
  import opened Cases
  import opened Logs
  import opened LedgerRuns
  import opened Runs
  import opened Payments
  import opened Movements
  import opened Reconciliation

  /** Whatever has moved for the dispute is the reference of an entry of its ledger. */
  ghost predicate Booked(c: Case, core: CoreState) {
    forall m | m in core.moved && m.reference.dispute == c.rec.id :: ReferenceTaken(c.ledger, m.reference)
  }

  /** The k-th action sends an instruction for the dispute and commits. */
  ghost predicate Books(s: Setup, actions: seq<Action>, k: int, id: Id) {
    && Tries(s, actions, k, id) && SentAt(s, actions, k, id).Some?
    && var w, a := At(s, actions, k), actions[k]; Attempt(s, w.cases[id], w.core, a.job, a.env).result.Pass?
  }

  /** From the k-th action on, before the n-th, one at the same version of the dispute commits what it sends. */
  ghost predicate IsBooked(s: Setup, actions: seq<Action>, k: nat, n: nat, id: Id)
    requires Tries(s, actions, k, id)
  {
    exists j :: k <= j < n && Books(s, actions, j, id) && VersionAt(s, actions, j, id) == VersionAt(s, actions, k, id)
  }

  /** Each of the first n actions that paid for the dispute is booked, by itself or by a retry at the same version. */
  ghost predicate PaymentsAreBooked(s: Setup, actions: seq<Action>, n: nat, id: Id) {
    forall k | 0 <= k < n && Pays(s, actions, k) && Tries(s, actions, k, id) :: IsBooked(s, actions, k, n, id)
  }

  // ---------------------------------------------------------------------------------------------------
  // Entries and the attempts that made them

  lemma {:induction false} LedgersOnlyGrow(s: Setup, actions: seq<Action>, j: nat, k: nat, id: Id)
    requires WellFormedTable(s.rules) && j <= k <= |actions| && id in At(s, actions, j).cases
    ensures id in At(s, actions, k).cases
    ensures At(s, actions, j).cases[id].ledger <= At(s, actions, k).cases[id].ledger
    decreases k
  {
    if j < k {
      var last: nat := k - 1;
      LedgersOnlyGrow(s, actions, j, last, id);
      OneActionLater(s, actions, last);
      var w, a := At(s, actions, last), actions[last];
      if a.On? && a.id == id {
        LedgerKeepsItsPrefix(s, w.cases[id], w.core, a.job, a.env);
      }
    }
  }

  /** What an action books stays on the ledger. */
  lemma WhatIsBookedStays(s: Setup, actions: seq<Action>, j: nat, n: nat, id: Id)
    requires WellFormedTable(s.rules) && j < n <= |actions| && Books(s, actions, j, id)
    ensures id in At(s, actions, n).cases
    ensures ReferenceTaken(At(s, actions, n).cases[id].ledger, SentAt(s, actions, j, id).value.reference)
  {
    var w, a := At(s, actions, j), actions[j];
    var c := w.cases[id];
    SentIsCommitted(s, c, w.core, a.job, a.env);
    CommittedMeansApproved(s, c, w.core, a.job, a.env);
    OneActionLater(s, actions, j);
    LedgersOnlyGrow(s, actions, j + 1, n, id);
    var e := At(s, actions, j + 1).cases[id].ledger[|c.ledger|];
    assert At(s, actions, n).cases[id].ledger[|c.ledger|] == e;
    assert e in At(s, actions, n).cases[id].ledger;
  }

  /** Every entry on the customer's account was booked by some action of the run. */
  lemma {:induction false} EntriesWereBooked(s: Setup, actions: seq<Action>, n: nat, id: Id, i: nat) returns (j: nat)
    requires WellFormedTable(s.rules) && n <= |actions| && id in At(s, actions, n).cases
    requires i < |At(s, actions, n).cases[id].ledger| && At(s, actions, n).cases[id].ledger[i].posting.TouchesCustomer()
    ensures j < n && Books(s, actions, j, id)
    ensures SentAt(s, actions, j, id).value.reference == At(s, actions, n).cases[id].ledger[i].reference
  {
    j := n - 1;
    assert n == j + 1;
    if id in At(s, actions, j).cases && i < |At(s, actions, j).cases[id].ledger| {
      LedgersOnlyGrow(s, actions, j, n, id);
      j := EntriesWereBooked(s, actions, j, id, i);
    } else {
      TheLastActionBooked(s, actions, j, id, i);
    }
  }

  lemma TheLastActionBooked(s: Setup, actions: seq<Action>, k: nat, id: Id, i: nat)
    requires k < |actions| && id in At(s, actions, k + 1).cases
    requires i < |At(s, actions, k + 1).cases[id].ledger|
    requires At(s, actions, k + 1).cases[id].ledger[i].posting.TouchesCustomer()
    requires id in At(s, actions, k).cases ==> i >= |At(s, actions, k).cases[id].ledger|
    ensures Books(s, actions, k, id)
    ensures SentAt(s, actions, k, id).value.reference == At(s, actions, k + 1).cases[id].ledger[i].reference
  {
    OneActionLater(s, actions, k);
    ANewEntryWasSent(s, At(s, actions, k), actions[k], id, i);
  }

  lemma ANewEntryWasSent(s: Setup, w: World, a: Action, id: Id, i: nat)
    requires id in Act(s, w, a).cases
    requires i < |Act(s, w, a).cases[id].ledger| && Act(s, w, a).cases[id].ledger[i].posting.TouchesCustomer()
    requires id in w.cases ==> i >= |w.cases[id].ledger|
    ensures a.On? && a.id == id && id in w.cases
    ensures Attempt(s, w.cases[id], w.core, a.job, a.env).result.Pass?
    ensures var sent := Sent(s, w.cases[id], a.job, a.env);
            sent.Some? && sent.value.reference == Act(s, w, a).cases[id].ledger[i].reference
  {
    AttemptThatBooksWasSent(s, w.cases[id], w.core, a.job, a.env, i);
  }

  lemma AttemptThatBooksWasSent(s: Setup, c: Case, core: CoreState, job: Job, env: Env, i: nat)
    requires var c' := Attempt(s, c, core, job, env).after;
             |c.ledger| <= i < |c'.ledger| && c'.ledger[i].posting.TouchesCustomer()
    ensures Attempt(s, c, core, job, env).result.Pass?
    ensures var sent := Sent(s, c, job, env);
            sent.Some? && sent.value.reference == Attempt(s, c, core, job, env).after.ledger[i].reference
  {
    assert Attempt(s, c, core, job, env).result.Pass? by {
      AttemptAppends(s, c, core, job, env);
    }
    LedgerKeepsItsPrefix(s, c, core, job, env);
    assert i == |c.ledger|;
    CommittedMeansApproved(s, c, core, job, env);
  }

  /** The kinds of posting on the customer's account. */
  predicate IsTheCustomers(kind: PostingKind) { kind.IsCredit() || kind == ProvisionalCreditReversal }

  /** A reference of such a kind on the ledger is that of an entry on the customer's account. */
  lemma ReferencesNameTheCustomer(s: Setup, c: Case, ref: Reference) returns (i: nat)
    requires LedgerInv(s, c) && ReferenceTaken(c.ledger, ref) && IsTheCustomers(ref.kind)
    ensures i < |c.ledger| && c.ledger[i].reference == ref && c.ledger[i].posting.TouchesCustomer()
  {
    var ps := PostingsOf(c.ledger);
    i :| 0 <= i < |c.ledger| && c.ledger[i].reference == ref;
    if i % 2 == 0 {
      assert IsCreditOf(ps[i], c.rec.disputedAmount, s.rules[c.rec.regime].Cap());
    } else {
      assert IsClearingOf(ps[i], ps[i - 1]);
    }
  }

  /** What is sent for a dispute is named after its next version, and moves money on the customer's account. */
  lemma SentForTheNextVersion(s: Setup, actions: seq<Action>, k: nat, id: Id)
    requires Tries(s, actions, k, id) && SentAt(s, actions, k, id).Some?
    ensures SentAt(s, actions, k, id).value.reference.event == VersionAt(s, actions, k, id) + 1
    ensures IsTheCustomers(SentAt(s, actions, k, id).value.reference.kind)
  {
    SentComesFromTheState(s, At(s, actions, k).cases[id], actions[k].job, actions[k].env);
  }

  // ---------------------------------------------------------------------------------------------------
  // The condition

  /** A commit moves the version on, so whatever was booked at the version of a later action was booked no earlier. */
  lemma BookedNoEarlier(s: Setup, actions: seq<Action>, j: nat, k: nat, id: Id)
    requires WellFormedTable(s.rules) && Books(s, actions, j, id) && Tries(s, actions, k, id)
    requires VersionAt(s, actions, j, id) == VersionAt(s, actions, k, id)
    ensures k <= j
  {
    if j < k {
      var w, a := At(s, actions, j), actions[j];
      SentIsCommitted(s, w.cases[id], w.core, a.job, a.env);
      AttemptAppends(s, w.cases[id], w.core, a.job, a.env);
      OneActionLater(s, actions, j);
      VersionsOnlyGrow(s, actions, j + 1, k, id);
    }
  }

  lemma WhatIsPaidIsTaken(s: Setup, actions: seq<Action>, k: nat, n: nat, ref: Reference)
    requires WellFormedTable(s.rules) && k < n <= |actions| && PaysUnder(s, actions, k, ref)
    requires ref.dispute in At(s, actions, n).cases
    requires Booked(At(s, actions, n).cases[ref.dispute], At(s, actions, n).core)
    ensures ReferenceTaken(At(s, actions, n).cases[ref.dispute].ledger, ref)
  {
    var w := At(s, actions, n);
    EveryRunIsSound(s, actions[..n]);
    WhatIsPaidHasMoved(s, actions, k, n, ref);
    var x :| 0 <= x < |w.core.moved| && w.core.moved[x].reference == ref;
    assert w.core.moved[x] in w.core.moved;
  }

  lemma ABookedPaymentWasCommitted(s: Setup, actions: seq<Action>, k: nat, n: nat, id: Id)
    requires WellFormedTable(s.rules) && k < n <= |actions| && Pays(s, actions, k) && Tries(s, actions, k, id)
    requires id in At(s, actions, n).cases && Booked(At(s, actions, n).cases[id], At(s, actions, n).core)
    ensures IsBooked(s, actions, k, n, id)
  {
    var ref := PaymentOf(s, actions, k, id);
    SentForTheNextVersion(s, actions, k, id);
    WhatIsPaidIsTaken(s, actions, k, n, ref);
    var j := TakenWasBooked(s, actions, n, id, ref);
    SentForTheNextVersion(s, actions, j, id);
    BookedNoEarlier(s, actions, j, k, id);
  }

  lemma PaymentOf(s: Setup, actions: seq<Action>, k: nat, id: Id) returns (ref: Reference)
    requires WellFormedTable(s.rules) && Pays(s, actions, k) && Tries(s, actions, k, id)
    ensures ref.dispute == id && PaysUnder(s, actions, k, ref)
  {
    var m := APaymentIsSent(s, actions, k);
    ref := m.reference;
  }

  lemma TakenWasBooked(s: Setup, actions: seq<Action>, n: nat, id: Id, ref: Reference) returns (j: nat)
    requires WellFormedTable(s.rules) && n <= |actions| && id in At(s, actions, n).cases
    requires ReferenceTaken(At(s, actions, n).cases[id].ledger, ref) && IsTheCustomers(ref.kind)
    ensures j < n && Books(s, actions, j, id) && SentAt(s, actions, j, id).value.reference == ref
  {
    EveryRunIsSound(s, actions[..n]);
    var i := ReferencesNameTheCustomer(s, At(s, actions, n).cases[id], ref);
    j := EntriesWereBooked(s, actions, n, id, i);
  }

  lemma ACommittedPaymentIsBooked(s: Setup, actions: seq<Action>, n: nat, id: Id, m: Movement)
    requires WellFormedTable(s.rules) && n <= |actions| && id in At(s, actions, n).cases
    requires PaymentsAreBooked(s, actions, n, id) && m in At(s, actions, n).core.moved && m.reference.dispute == id
    ensures ReferenceTaken(At(s, actions, n).cases[id].ledger, m.reference)
  {
    MovementHasMoved(At(s, actions, n).core, m);
    var k := WhatMovedWasPaid(s, actions, n, m.reference);
    var j :| k <= j < n && Books(s, actions, j, id) && VersionAt(s, actions, j, id) == VersionAt(s, actions, k, id);
    VersionsOnlyGrow(s, actions, k, j, id);
    OneReferenceAVersion(s, At(s, actions, k).cases[id], actions[k].job, actions[k].env, actions[j].job, actions[j].env);
    WhatIsBookedStays(s, actions, j, n, id);
  }

  /**
   * After every run, all that has moved for a dispute is on its ledger exactly when each payment for it was committed
   * before the dispute's version moved on, by the attempt that paid or by a retry.
   */
  lemma BookedIffPaymentsAreBooked(s: Setup, actions: seq<Action>, n: nat, id: Id)
    requires WellFormedTable(s.rules) && n <= |actions| && id in At(s, actions, n).cases
    ensures Booked(At(s, actions, n).cases[id], At(s, actions, n).core) <==> PaymentsAreBooked(s, actions, n, id)
  {
    var w := At(s, actions, n);
    EveryRunIsSound(s, actions[..n]);
    if Booked(w.cases[id], w.core) {
      forall k | 0 <= k < n && Pays(s, actions, k) && Tries(s, actions, k, id) ensures IsBooked(s, actions, k, n, id) {
        ABookedPaymentWasCommitted(s, actions, k, n, id);
      }
    }
    if PaymentsAreBooked(s, actions, n, id) {
      forall m | m in w.core.moved && m.reference.dispute == id ensures ReferenceTaken(w.cases[id].ledger, m.reference) {
        ACommittedPaymentIsBooked(s, actions, n, id, m);
      }
    }
  }

  // ---------------------------------------------------------------------------------------------------
  // Books and bank, entry by entry and in sum

  /** Books and bank say the same: what is committed has moved, for its amount, and nothing else has. */
  ghost predicate BooksAreTheBank(c: Case, core: CoreState) {
    Paid(c, core) && Reconciled(c, core) && Booked(c, core)
  }

  /**
   * After every run through a connected core, a dispute's books and the bank say the same exactly when no commit on it
   * was mistaken for another or repeated a reference with another amount, and no payment for it was left behind.
   */
  lemma BooksAreTheBankIff(s: Setup, actions: seq<Action>, n: nat, id: Id)
    requires WellFormedTable(s.rules) && ConnectedRun(actions)
    requires n <= |actions| && id in At(s, actions, n).cases
    ensures BooksAreTheBank(At(s, actions, n).cases[id], At(s, actions, n).core)
       <==> CommitsUnmistaken(s, actions, n, id) && CommitsAgree(s, actions, n, id) && PaymentsAreBooked(s, actions, n, id)
  {
    PaidIffCommitsUnmistaken(s, actions, n, id);
    ReconciledIffCommitsAgree(s, actions, n, id);
    BookedIffPaymentsAreBooked(s, actions, n, id);
  }

  /** What the core has moved, net, for a dispute. */
  function MovedFor(moved: seq<Movement>, id: Id): real {
    if moved == [] then 0.0
    else
      var m := moved[|moved| - 1];
      MovedFor(moved[..|moved| - 1], id) + if m.reference.dispute == id then m.Signed() else 0.0
  }

  lemma {:induction false} TheSameMovements(moved: seq<Movement>, refs: set<Reference>, id: Id)
    requires forall m | m in moved :: m.reference in refs <==> m.reference.dispute == id
    ensures MovedUnderAny(moved, refs) == MovedFor(moved, id)
  {
    if moved != [] {
      var front := moved[..|moved| - 1];
      assert forall m | m in front :: m in moved;
      TheSameMovements(front, refs, id);
      assert moved[|moved| - 1] in moved;
    }
  }

  /** Then all that the core has ever moved for the dispute sums to the balance its ledger shows the customer. */
  lemma AllThatMovedIsTheBalance(s: Setup, actions: seq<Action>, id: Id)
    requires WellFormedTable(s.rules) && ConnectedRun(actions) && id in Run(s, EMPTY_WORLD, actions).cases
    requires BooksAreTheBank(Run(s, EMPTY_WORLD, actions).cases[id], Run(s, EMPTY_WORLD, actions).core)
    ensures var w := Run(s, EMPTY_WORLD, actions);
            MovedFor(w.core.moved, id) == CustomerBalance(PostingsOf(w.cases[id].ledger))
  {
    var w, n := Run(s, EMPTY_WORLD, actions), |actions|;
    assert actions[..n] == actions;
    EveryRunIsSound(s, actions);
    BooksAreTheBankIff(s, actions, n, id);
    TheBankAgreesWithTheBooks(s, actions, id);
    forall m | m in w.core.moved
      ensures m.reference in CustomerReferences(w.cases[id].ledger) <==> m.reference.dispute == id
    {
      if m.reference.dispute == id {
        MovedIsTheCustomers(s, actions, m);
      }
      if m.reference in CustomerReferences(w.cases[id].ledger) {
        CustomerReferencesAreNamed(w.cases[id], m.reference);
      }
    }
    TheSameMovements(w.core.moved, CustomerReferences(w.cases[id].ledger), id);
  }

  lemma CustomerReferencesAreNamed(c: Case, ref: Reference)
    requires Named(c) && ref in CustomerReferences(c.ledger)
    ensures ref.dispute == c.rec.id
  {
    var e :| e in c.ledger && e.reference == ref;
    var i :| 0 <= i < |c.ledger| && c.ledger[i] == e;
  }

  lemma MovedIsTheCustomers(s: Setup, actions: seq<Action>, m: Movement)
    requires WellFormedTable(s.rules) && m in Run(s, EMPTY_WORLD, actions).core.moved
    requires m.reference.dispute in Run(s, EMPTY_WORLD, actions).cases
    requires Booked(Run(s, EMPTY_WORLD, actions).cases[m.reference.dispute], Run(s, EMPTY_WORLD, actions).core)
    ensures m.reference in CustomerReferences(Run(s, EMPTY_WORLD, actions).cases[m.reference.dispute].ledger)
  {
    var w, n, id := Run(s, EMPTY_WORLD, actions), |actions|, m.reference.dispute;
    assert actions[..n] == actions;
    EveryRunIsSound(s, actions);
    MovedKinds(s, actions, m);
    var i := ReferencesNameTheCustomer(s, w.cases[id], m.reference);
    assert w.cases[id].ledger[i] in w.cases[id].ledger;
  }

  lemma MovedKinds(s: Setup, actions: seq<Action>, m: Movement)
    requires WellFormedTable(s.rules) && m in At(s, actions, |actions|).core.moved
    ensures IsTheCustomers(m.reference.kind)
  {
    MovementHasMoved(At(s, actions, |actions|).core, m);
    var k := WhatMovedWasPaid(s, actions, |actions|, m.reference);
    SentForTheNextVersion(s, actions, k, m.reference.dispute);
  }
}
