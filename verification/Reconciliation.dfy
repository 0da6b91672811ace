/** Books and bank over whole runs, and the two ways retries can set them apart. */
module Reconciliation {
  import opened Regimes
  import opened Ledger
  import opened BankingCore
  import opened Cases
  import opened LedgerRuns
  import opened Runs
  import opened Payments
  import opened Movements

  /** Every attempt of the run talks to a connected core. */
  ghost predicate ConnectedRun(actions: seq<Action>) {
    forall a | a in actions && a.On? :: a.env.core.Connected?
  }

  ghost predicate PaidWorld(w: World) {
    Directed(w.core) && forall id | id in w.cases :: Paid(w.cases[id], w.core)
  }

  /** If the k-th action commits on the dispute, nothing had moved under its number for another reference. */
  ghost predicate CommitUnmistaken(s: Setup, actions: seq<Action>, k: nat, id: Id)
    requires k < |actions|
  {
    Tries(s, actions, k, id) ==>
      var w, a := At(s, actions, k), actions[k];
      Attempt(s, w.cases[id], w.core, a.job, a.env).result.Pass? ==>
        SendsUnmistaken(s, w.cases[id], w.core, a.job, a.env)
  }

  /** Of the first n actions, no commit on the dispute is mistaken for another. */
  ghost predicate CommitsUnmistaken(s: Setup, actions: seq<Action>, n: nat, id: Id)
    requires n <= |actions|
  {
    forall k | 0 <= k < n :: CommitUnmistaken(s, actions, k, id)
  }

  /** Each dispute's postings are named after it and after the events that caused them. */
  ghost predicate NamedWorld(w: World) {
    forall id | id in w.cases :: w.cases[id].rec.id == id && Named(w.cases[id])
  }

  lemma ActKeepsPaidIff(s: Setup, w: World, a: Action, id: Id)
    requires NamedWorld(w) && Sound(s.rrn, w.core)
    requires id in w.cases && (a.On? ==> a.env.core.Connected?)
    ensures id in Act(s, w, a).cases
    ensures var unmistaken := a.On? && a.id == id && Attempt(s, w.cases[id], w.core, a.job, a.env).result.Pass? ==>
                              SendsUnmistaken(s, w.cases[id], w.core, a.job, a.env);
            Paid(Act(s, w, a).cases[id], Act(s, w, a).core) <==> Paid(w.cases[id], w.core) && unmistaken
  {
    if a.On? && a.id in w.cases {
      if a.id == id {
        AttemptKeepsPaidIff(s, w.cases[id], w.core, a.job, a.env);
      } else {
        assert w.cases[id].rec.id == id && w.cases[a.id].rec.id == a.id;
        OthersStayPaid(s, w.cases[a.id], w.core, a.job, a.env, w.cases[id]);
      }
    }
  }

  /** One action keeps a dispute paid exactly when it is not mistaken for another, if it commits on it. */
  lemma ActionKeepsPaidIff(s: Setup, actions: seq<Action>, k: nat, id: Id)
    requires WellFormedTable(s.rules) && ConnectedRun(actions)
    requires k < |actions| && id in At(s, actions, k).cases
    ensures id in At(s, actions, k + 1).cases
    ensures var w, w' := At(s, actions, k), At(s, actions, k + 1);
            Paid(w'.cases[id], w'.core) <==> Paid(w.cases[id], w.core) && CommitUnmistaken(s, actions, k, id)
  {
    OneActionLater(s, actions, k);
    EveryRunIsSound(s, actions[..k]);
    assert actions[k] in actions;
    ActKeepsPaidIff(s, At(s, actions, k), actions[k], id);
  }

  lemma OneMoreUnmistaken(s: Setup, actions: seq<Action>, n: nat, id: Id)
    requires n < |actions|
    ensures CommitsUnmistaken(s, actions, n + 1, id)
       <==> CommitsUnmistaken(s, actions, n, id) && CommitUnmistaken(s, actions, n, id)
  {
  }

  /**
   * However references are numbered: after every run through a connected core, all that is committed on a dispute was
   * approved and paid under its own reference exactly when no commit on it found its number used by another.
   */
  lemma {:induction false} PaidIffCommitsUnmistaken(s: Setup, actions: seq<Action>, n: nat, id: Id)
    requires WellFormedTable(s.rules) && ConnectedRun(actions)
    requires n <= |actions| && id in At(s, actions, n).cases
    ensures Paid(At(s, actions, n).cases[id], At(s, actions, n).core) <==> CommitsUnmistaken(s, actions, n, id)
  {
    if n > 0 {
      var last: nat := n - 1;
      if id in At(s, actions, last).cases {
        PaidIffCommitsUnmistaken(s, actions, last, id);
        ActionKeepsPaidIff(s, actions, last, id);
        OneMoreUnmistaken(s, actions, last, id);
      } else {
        ANewDisputeIsReconciled(s, actions, n, id);
      }
    }
  }

  lemma {:induction false} EveryRunIsDirected(s: Setup, actions: seq<Action>)
    ensures Directed(Run(s, EMPTY_WORLD, actions).core)
  {
    if actions != [] {
      var before, a := actions[..|actions| - 1], actions[|actions| - 1];
      EveryRunIsDirected(s, before);
      var w := Run(s, EMPTY_WORLD, before);
      if a.On? && a.id in w.cases {
        AttemptKeepsDirected(s, w.cases[a.id], w.core, a.job, a.env);
      }
    }
  }

  lemma ToldApartMeansUnmistaken(s: Setup, actions: seq<Action>, n: nat, id: Id)
    requires WellFormedTable(s.rules) && ToldApart(s, actions) && n <= |actions|
    ensures CommitsUnmistaken(s, actions, n, id)
  {
    forall k | 0 <= k < n ensures CommitUnmistaken(s, actions, k, id) {
      if Tries(s, actions, k, id) && SentAt(s, actions, k, id).Some? {
        SentIsUnmistaken(s, actions, k, id);
      }
    }
  }

  /** In every run through a connected core whose references are told apart, each committed customer posting was paid. */
  lemma EveryPostingIsPaid(s: Setup, actions: seq<Action>)
    requires WellFormedTable(s.rules) && ToldApart(s, actions) && ConnectedRun(actions)
    ensures PaidWorld(Run(s, EMPTY_WORLD, actions))
  {
    var w := Run(s, EMPTY_WORLD, actions);
    EveryRunIsDirected(s, actions);
    forall id | id in w.cases ensures Paid(w.cases[id], w.core) {
      ADisputeToldApartIsPaid(s, actions, id);
    }
  }

  lemma ADisputeToldApartIsPaid(s: Setup, actions: seq<Action>, id: Id)
    requires WellFormedTable(s.rules) && ToldApart(s, actions) && ConnectedRun(actions)
    requires id in Run(s, EMPTY_WORLD, actions).cases
    ensures Paid(Run(s, EMPTY_WORLD, actions).cases[id], Run(s, EMPTY_WORLD, actions).core)
  {
    var n := |actions|;
    assert actions[..n] == actions;
    ToldApartMeansUnmistaken(s, actions, n, id);
    PaidIffCommitsUnmistaken(s, actions, n, id);
  }

  // ---------------------------------------------------------------------------------------------------
  // Amounts

  /** If the k-th action commits on the dispute, what had already moved under its reference was for the same amount. */
  ghost predicate CommitAgrees(s: Setup, actions: seq<Action>, k: nat, id: Id)
    requires k < |actions|
  {
    Tries(s, actions, k, id) ==>
      var w, a := At(s, actions, k), actions[k];
      Attempt(s, w.cases[id], w.core, a.job, a.env).result.Pass? ==> Agrees(w.core, SentAt(s, actions, k, id))
  }

  /** Of the first n actions, no commit on the dispute repeats a reference with another amount. */
  ghost predicate CommitsAgree(s: Setup, actions: seq<Action>, n: nat, id: Id)
    requires n <= |actions|
  {
    forall k | 0 <= k < n :: CommitAgrees(s, actions, k, id)
  }

  /** Books and bank, once set apart, stay apart. */
  lemma DisagreementStays(s: Setup, c: Case, core: CoreState, job: Job, env: Env)
    requires !Reconciled(c, core)
    ensures var o := Attempt(s, c, core, job, env); !Reconciled(o.after, o.core)
  {
    var o, ins := Attempt(s, c, core, job, env), Sent(s, c, job, env);
    LedgerKeepsItsPrefix(s, c, core, job, env);
    OnlyTheInstructionReachesTheCore(s, c, core, job, env);
    if ins.Some? {
      InstructOnlyAdds(s.rrn, core, env.core, ins.value);
    }
    MoreDoesNotReconcile(c, core, o.after, o.core);
  }

  lemma MoreDoesNotReconcile(c: Case, core: CoreState, c': Case, core': CoreState)
    requires !Reconciled(c, core)
    requires |c.ledger| <= |c'.ledger| && c'.ledger[..|c.ledger|] == c.ledger
    requires |core.moved| <= |core'.moved| && core'.moved[..|core.moved|] == core.moved
    ensures !Reconciled(c', core')
  {
    var e, m :| e in c.ledger && e.posting.TouchesCustomer() && m in core.moved && m.reference == e.reference
      && m.amount != e.posting.amount;
    assert e in c'.ledger[..|c.ledger|] && m in core'.moved[..|core.moved|];
    assert e in c'.ledger && m in core'.moved;
  }

  /** An attempt leaves its dispute reconciled exactly when it was, and the attempt, if it commits, agrees. */
  lemma AttemptReconcilesIff(s: Setup, c: Case, core: CoreState, job: Job, env: Env)
    requires Named(c) && env.core.Connected?
    ensures var o := Attempt(s, c, core, job, env);
            Reconciled(o.after, o.core) <==> Reconciled(c, core) && (o.result.Pass? ==> Agrees(core, Sent(s, c, job, env)))
  {
    if !Reconciled(c, core) {
      DisagreementStays(s, c, core, job, env);
    } else if Attempt(s, c, core, job, env).result.Pass? {
      CommitReconcilesIffAmountsAgree(s, c, core, job, env);
    } else {
      OthersStayReconciled(s, c, core, job, env, c);
    }
  }

  /** One action keeps a dispute reconciled exactly when it agrees, if it commits on it. */
  lemma ActionReconcilesIff(s: Setup, actions: seq<Action>, k: nat, id: Id)
    requires WellFormedTable(s.rules) && ConnectedRun(actions)
    requires k < |actions| && id in At(s, actions, k).cases
    ensures id in At(s, actions, k + 1).cases
    ensures var w, w' := At(s, actions, k), At(s, actions, k + 1);
            Reconciled(w'.cases[id], w'.core) <==> Reconciled(w.cases[id], w.core) && CommitAgrees(s, actions, k, id)
  {
    OneActionLater(s, actions, k);
    EveryRunIsSound(s, actions[..k]);
    assert actions[k] in actions;
    ActReconcilesIff(s, At(s, actions, k), actions[k], id);
  }

  lemma ActReconcilesIff(s: Setup, w: World, a: Action, id: Id)
    requires NamedWorld(w)
    requires id in w.cases && (a.On? ==> a.env.core.Connected?)
    ensures id in Act(s, w, a).cases
    ensures var agrees := a.On? && a.id == id && Attempt(s, w.cases[id], w.core, a.job, a.env).result.Pass? ==>
                          Agrees(w.core, Sent(s, w.cases[id], a.job, a.env));
            Reconciled(Act(s, w, a).cases[id], Act(s, w, a).core) <==> Reconciled(w.cases[id], w.core) && agrees
  {
    if a.On? && a.id in w.cases {
      if a.id == id {
        AttemptReconcilesIff(s, w.cases[id], w.core, a.job, a.env);
      } else {
        assert w.cases[id].rec.id == id && w.cases[a.id].rec.id == a.id;
        OthersStayReconciled(s, w.cases[a.id], w.core, a.job, a.env, w.cases[id]);
      }
    }
  }

  /** A dispute that is about to appear has nothing to pay or reconcile, and nothing has been committed on it. */
  lemma ANewDisputeIsReconciled(s: Setup, actions: seq<Action>, n: nat, id: Id)
    requires WellFormedTable(s.rules) && 0 < n <= |actions|
    requires id in At(s, actions, n).cases && id !in At(s, actions, n - 1).cases
    ensures Reconciled(At(s, actions, n).cases[id], At(s, actions, n).core) && CommitsAgree(s, actions, n, id)
    ensures Paid(At(s, actions, n).cases[id], At(s, actions, n).core) && CommitsUnmistaken(s, actions, n, id)
  {
    OneActionLater(s, actions, n - 1);
    forall k | 0 <= k < n && id in At(s, actions, k).cases ensures false {
      VersionsOnlyGrow(s, actions, k, n - 1, id);
    }
  }

  lemma OneCommitMore(s: Setup, actions: seq<Action>, n: nat, id: Id)
    requires n < |actions|
    ensures CommitsAgree(s, actions, n + 1, id) <==> CommitsAgree(s, actions, n, id) && CommitAgrees(s, actions, n, id)
  {
  }

  /**
   * After every run through a connected core, a dispute's committed amounts are the amounts moved under their
   * references exactly when no commit on it repeated a reference with another amount. Attempts that were rolled back
   * may have asked for anything.
   */
  lemma {:induction false} ReconciledIffCommitsAgree(s: Setup, actions: seq<Action>, n: nat, id: Id)
    requires WellFormedTable(s.rules) && ConnectedRun(actions)
    requires n <= |actions| && id in At(s, actions, n).cases
    ensures Reconciled(At(s, actions, n).cases[id], At(s, actions, n).core) <==> CommitsAgree(s, actions, n, id)
  {
    if n > 0 {
      var last: nat := n - 1;
      if id in At(s, actions, last).cases {
        ReconciledIffCommitsAgree(s, actions, last, id);
        ActionReconcilesIff(s, actions, last, id);
        OneCommitMore(s, actions, last, id);
      } else {
        ANewDisputeIsReconciled(s, actions, n, id);
      }
    }
  }

  // ---------------------------------------------------------------------------------------------------
  // Sums

  function CustomerReferences(ledger: seq<LedgerEntry>): set<Reference> {
    set e | e in ledger && e.posting.TouchesCustomer() :: e.reference
  }

  /** What the core has moved, net, under the given references. */
  function MovedUnderAny(moved: seq<Movement>, refs: set<Reference>): real {
    if moved == [] then 0.0
    else
      var m := moved[|moved| - 1];
      MovedUnderAny(moved[..|moved| - 1], refs) + if m.reference in refs then m.Signed() else 0.0
  }

  lemma {:induction false} NothingMovedUnder(moved: seq<Movement>, refs: set<Reference>, ref: Reference)
    requires forall m | m in moved :: m.reference != ref
    ensures MovedUnderAny(moved, refs + {ref}) == MovedUnderAny(moved, refs)
  {
    if moved != [] {
      NothingMovedUnder(moved[..|moved| - 1], refs, ref);
    }
  }

  lemma {:induction false} OneMoreReference(moved: seq<Movement>, refs: set<Reference>, i: nat)
    requires i < |moved| && moved[i].reference !in refs
    requires forall j | 0 <= j < |moved| && j != i :: moved[j].reference != moved[i].reference
    ensures MovedUnderAny(moved, refs + {moved[i].reference}) == MovedUnderAny(moved, refs) + moved[i].Signed()
  {
    var last := |moved| - 1;
    if i == last {
      NothingMovedUnder(moved[..last], refs, moved[i].reference);
    } else {
      OneMoreReference(moved[..last], refs, i);
    }
  }

  /** Signed the customer's way, a posting on the customer's account is what a movement of its amount moves. */
  ghost predicate SignedLikeItsKind(ledger: seq<LedgerEntry>) {
    forall e | e in ledger ::
      && (e.posting.kind.IsCredit() ==> e.posting.credit == Customer && e.posting.debit != Customer)
      && (!e.posting.kind.IsCredit() ==> e.posting.credit != Customer)
      && e.reference.kind == e.posting.kind
  }

  ghost predicate DistinctReferences(ledger: seq<LedgerEntry>) {
    forall i, j | 0 <= i < j < |ledger| :: ledger[i].reference != ledger[j].reference
  }

  lemma {:induction false} BooksEqualBank(rrn: Numbering, core: CoreState, c: Case, ledger: seq<LedgerEntry>)
    requires Sound(rrn, core) && Directed(core) && Paid(c, core) && Reconciled(c, core)
    requires forall e | e in ledger :: e in c.ledger
    requires DistinctReferences(ledger) && SignedLikeItsKind(ledger)
    ensures CustomerBalance(PostingsOf(ledger)) == MovedUnderAny(core.moved, CustomerReferences(ledger))
    decreases |ledger|
  {
    if ledger == [] {
      assert CustomerReferences(ledger) == {};
      NothingUnderNoReference(core.moved);
    } else {
      var last := |ledger| - 1;
      var front, e := ledger[..last], ledger[last];
      AllButTheLast(ledger);
      BooksEqualBank(rrn, core, c, front);
      assert ledger == front + [e];
      OnePostingMore(rrn, core, c, front, e);
    }
  }

  lemma AllButTheLast(ledger: seq<LedgerEntry>)
    requires ledger != [] && DistinctReferences(ledger) && SignedLikeItsKind(ledger)
    ensures var front, e := ledger[..|ledger| - 1], ledger[|ledger| - 1];
            && DistinctReferences(front) && SignedLikeItsKind(front) && SignedLikeItsKind([e])
            && (forall x | x in front :: x in ledger) && e in ledger
            && PostingsOf(ledger)[..|front|] == PostingsOf(front)
            && CustomerBalance(PostingsOf(ledger)) == CustomerBalance(PostingsOf(front)) - Effect(Customer, e.posting)
  {
    var front, e := ledger[..|ledger| - 1], ledger[|ledger| - 1];
    assert PostingsOf(ledger)[..|front|] == PostingsOf(front);
    assert e in ledger;
  }

  lemma OnePostingMore(rrn: Numbering, core: CoreState, c: Case, front: seq<LedgerEntry>, e: LedgerEntry)
    requires Sound(rrn, core) && Directed(core) && Paid(c, core) && Reconciled(c, core) && e in c.ledger
    requires forall i | 0 <= i < |front| :: front[i].reference != e.reference
    requires SignedLikeItsKind([e])
    ensures MovedUnderAny(core.moved, CustomerReferences(front + [e]))
         == MovedUnderAny(core.moved, CustomerReferences(front)) - Effect(Customer, e.posting)
  {
    assert e in [e];
    if e.posting.TouchesCustomer() {
      assert CustomerReferences(front + [e]) == CustomerReferences(front) + {e.reference};
      var i :| 0 <= i < |core.moved| && core.moved[i].reference == e.reference;
      assert core.moved[i] in core.moved;
      OnlyOneMovement(rrn, core, i);
      NotYetReferenced(front, e.reference);
      OneMoreReference(core.moved, CustomerReferences(front), i);
    } else {
      assert CustomerReferences(front + [e]) == CustomerReferences(front);
    }
  }

  lemma {:induction false} NothingUnderNoReference(moved: seq<Movement>)
    ensures MovedUnderAny(moved, {}) == 0.0
  {
    if moved != [] {
      NothingUnderNoReference(moved[..|moved| - 1]);
    }
  }

  lemma OnlyOneMovement(rrn: Numbering, core: CoreState, i: nat)
    requires Sound(rrn, core) && i < |core.moved|
    ensures forall j | 0 <= j < |core.moved| && j != i :: core.moved[j].reference != core.moved[i].reference
  {
    forall j | 0 <= j < |core.moved| && j != i ensures core.moved[j].reference != core.moved[i].reference {
      if i < j {
        MoneyMovesAtMostOnce(rrn, core, i, j);
      } else {
        MoneyMovesAtMostOnce(rrn, core, j, i);
      }
    }
  }

  lemma NotYetReferenced(front: seq<LedgerEntry>, ref: Reference)
    requires forall i | 0 <= i < |front| :: front[i].reference != ref
    ensures ref !in CustomerReferences(front)
  {
  }

  lemma LedgersAreDistinctAndSigned(s: Setup, c: Case)
    requires LedgerInv(s, c)
    ensures DistinctReferences(c.ledger) && SignedLikeItsKind(c.ledger)
  {
    var ps := PostingsOf(c.ledger);
    forall e | e in c.ledger
      ensures e.posting.kind.IsCredit() ==> e.posting.credit == Customer && e.posting.debit != Customer
      ensures !e.posting.kind.IsCredit() ==> e.posting.credit != Customer
      ensures e.reference.kind == e.posting.kind
    {
      var i :| 0 <= i < |c.ledger| && c.ledger[i] == e;
      if i % 2 == 0 {
        assert IsCreditOf(ps[i], c.rec.disputedAmount, s.rules[c.rec.regime].Cap());
      } else {
        assert IsClearingOf(ps[i], ps[i - 1]);
      }
    }
  }

  /**
   * After any run through a connected core in which no commit on a dispute is mistaken for another or repeats a
   * reference with another amount, what the core has moved under the dispute's committed references is exactly the
   * balance its ledger shows the customer.
   */
  lemma TheBankAgreesWithTheBooks(s: Setup, actions: seq<Action>, id: Id)
    requires WellFormedTable(s.rules) && ConnectedRun(actions) && id in Run(s, EMPTY_WORLD, actions).cases
    requires CommitsUnmistaken(s, actions, |actions|, id) && CommitsAgree(s, actions, |actions|, id)
    ensures var w := Run(s, EMPTY_WORLD, actions);
            CustomerBalance(PostingsOf(w.cases[id].ledger))
              == MovedUnderAny(w.core.moved, CustomerReferences(w.cases[id].ledger))
  {
    var w := Run(s, EMPTY_WORLD, actions);
    assert actions[..|actions|] == actions;
    EveryRunIsSound(s, actions);
    EveryRunIsDirected(s, actions);
    PaidIffCommitsUnmistaken(s, actions, |actions|, id);
    ReconciledIffCommitsAgree(s, actions, |actions|, id);
    LedgersAreDistinctAndSigned(s, w.cases[id]);
    BooksEqualBank(s.rrn, w.core, w.cases[id], w.cases[id].ledger);
  }
}
