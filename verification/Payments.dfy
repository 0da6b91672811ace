/** The books against the bank: what the ledgers say the core was told, and what the core has really moved. */
module Payments {
  import opened Prelude
  import opened Regimes
  import opened BankingCore
  import opened Cases
  import opened LedgerRuns
  import opened Runs

  /** Every committed customer posting was approved, and money moved under its own reference. */
  ghost predicate Paid(c: Case, core: CoreState) {
    forall e | e in c.ledger && e.posting.TouchesCustomer() ::
      e.core.Some? && e.core.value.approved && HasMoved(core, e.reference)
  }

  /** The direction of a movement is the direction its reference names. */
  ghost predicate Directed(core: CoreState) {
    forall m | m in core.moved :: m.credit == m.reference.kind.IsCredit()
  }

  /** The amount moved under a committed reference is the amount posted. */
  ghost predicate Reconciled(c: Case, core: CoreState) {
    forall e, m | e in c.ledger && e.posting.TouchesCustomer() && m in core.moved && m.reference == e.reference ::
      m.amount == e.posting.amount
  }

  /** Checkable before the call: whatever already moved under this reference was for the same amount. */
  ghost predicate Agrees(core: CoreState, ins: Option<Instruction>) {
    ins.None? || forall m | m in core.moved && m.reference == ins.value.reference :: m.amount == ins.value.amount
  }

  // ---------------------------------------------------------------------------------------------------
  // One attempt

  lemma InstructOnlyAdds(rrn: Numbering, core: CoreState, cfg: CoreConfig, ins: Instruction)
    ensures var core' := Instruct(rrn, core, cfg, ins).0;
            core'.moved == core.moved || core'.moved == core.moved + [Movement(ins.reference, ins.credit, ins.amount)]
  {
  }

  lemma SentIsNamed(s: Setup, c: Case, job: Job, env: Env)
    ensures var ins := Sent(s, c, job, env);
            ins.Some? ==>
              && ins.value.reference.dispute == c.rec.id && ins.value.reference.event == c.rec.version + 1
              && ins.value.credit == ins.value.reference.kind.IsCredit()
  {
  }

  /** A committed posting on the customer's account is the instruction that was sent, and the core approved it. */
  lemma CommittedMeansApproved(s: Setup, c: Case, core: CoreState, job: Job, env: Env)
    requires var c' := Attempt(s, c, core, job, env).after;
             |c'.ledger| == |c.ledger| + 1 && c'.ledger[|c.ledger|].posting.TouchesCustomer()
    ensures var e := Attempt(s, c, core, job, env).after.ledger[|c.ledger|];
            && Sent(s, c, job, env) == Some(InstructionFor(c.rec, c.rec.version + 1, e.posting))
            && e.reference == Sent(s, c, job, env).value.reference
            && var answer := Instruct(s.rrn, core, env.core, Sent(s, c, job, env).value).1;
               answer.Ok? && answer.value.approved && e.core == Some(answer.value)
  {
    EventMeansApproved(s, c, core, job.req, env);
  }

  lemma EventMeansApproved(s: Setup, c: Case, core: CoreState, req: Request, env: Env)
    requires CommitEvent(s, c, c, core, req, env).result.Pass?
    requires var c' := CommitEvent(s, c, c, core, req, env).after;
             |c'.ledger| == |c.ledger| + 1 && c'.ledger[|c.ledger|].posting.TouchesCustomer()
    ensures var e := CommitEvent(s, c, c, core, req, env).after.ledger[|c.ledger|];
            var ins := InstructionFor(c.rec, c.rec.version + 1, e.posting);
            var answer := Instruct(s.rrn, core, env.core, ins).1;
            && Sent(s, c, Dispatch(req), env) == Some(ins)
            && answer.Ok? && answer.value.approved && e.core == Some(answer.value)
            && e.reference == ins.reference
  {
    CommittedEvent(s, c, core, req, env);
    var r, mid := s.rules[c.rec.regime], Midway(s, c, req, env);
    var posted := PostLedger(s, r, mid, core, req.payload, env).1;
    var e := CommitEvent(s, c, c, core, req, env).after.ledger[|c.ledger|];
    assert |posted.value| == 1 && posted.value[0] == e;
    PostedMeansApproved(s, r, mid, core, req.payload, env);
    assert InstructionFor(c.rec, c.rec.version + 1, e.posting) == InstructionFor(mid.rec, mid.rec.version, e.posting);
  }

  lemma PostedMeansApproved(s: Setup, r: Rules, mid: Case, core: CoreState, p: Payload, env: Env)
    requires var posted := PostLedger(s, r, mid, core, p, env).1;
             posted.Ok? && |posted.value| == 1 && posted.value[0].posting.TouchesCustomer()
    ensures var e := PostLedger(s, r, mid, core, p, env).1.value[0];
            var ins := InstructionFor(mid.rec, mid.rec.version, e.posting);
            var answer := Instruct(s.rrn, core, env.core, ins).1;
            && CausedInstruction(r, mid, p) == Some(ins)
            && answer.Ok? && answer.value.approved && e.core == Some(answer.value)
            && e.reference == ins.reference
  {
    AtMostOneEntry(s, r, mid, core, p, env);
    var ps := PostingOf(r, mid, p);
    assert ps[..0] == [];
    assert BookAll(s, core, mid.rec, mid.rec.version, ps[..0], env) == (core, Ok([]));
    assert PostLedger(s, r, mid, core, p, env).1.value == [Book(s, core, mid.rec, mid.rec.version, ps[0], env).1.value];
  }

  lemma LedgerKeepsItsPrefix(s: Setup, c: Case, core: CoreState, job: Job, env: Env)
    ensures var c' := Attempt(s, c, core, job, env).after;
            c'.ledger == c.ledger || (|c'.ledger| == |c.ledger| + 1 && c'.ledger[..|c.ledger|] == c.ledger)
  {
    var c' := Attempt(s, c, core, job, env).after;
    if c' != c && job.Dispatch? {
      var input := LedgerEffect(s, c, core, job.req, env);
      if c'.ledger != c.ledger {
        var e := c'.ledger[|c.ledger|];
        assert c'.ledger == c.ledger + [e];
      }
    }
  }

  /** What an instruction leaves at the core: every movement still there, and directions still as references name them. */
  /** Directions stay as references name them. */
  lemma AttemptKeepsDirected(s: Setup, c: Case, core: CoreState, job: Job, env: Env)
    requires Directed(core)
    ensures Directed(Attempt(s, c, core, job, env).core)
  {
    var ins := Sent(s, c, job, env);
    OnlyTheInstructionReachesTheCore(s, c, core, job, env);
    SentIsNamed(s, c, job, env);
    if ins.Some? {
      InstructOnlyAdds(s.rrn, core, env.core, ins.value);
    }
  }

  /** The reference an attempt sends, if any, is not mistaken for another. */
  ghost predicate SendsUnmistaken(s: Setup, c: Case, core: CoreState, job: Job, env: Env) {
    Sent(s, c, job, env).Some? ==> Unmistaken(s.rrn, core, Sent(s, c, job, env).value.reference)
  }

  /** A dispute stays paid through an attempt on it exactly when the attempt, if it commits, is not mistaken for another. */
  lemma AttemptKeepsPaidIff(s: Setup, c: Case, core: CoreState, job: Job, env: Env)
    requires env.core.Connected? && Sound(s.rrn, core) && Named(c)
    ensures var o := Attempt(s, c, core, job, env);
            Paid(o.after, o.core) <==> Paid(c, core) && (o.result.Pass? ==> SendsUnmistaken(s, c, core, job, env))
  {
    var o := Attempt(s, c, core, job, env);
    OthersStayPaid(s, c, core, job, env, c);
    LedgerKeepsItsPrefix(s, c, core, job, env);
    if o.result.Pass? && Sent(s, c, job, env).Some? {
      SentIsCommitted(s, c, core, job, env);
      NewEntryIsPaidIff(s, c, core, job, env);
    } else if |o.after.ledger| > |c.ledger| {
      NewEntryIsNotTheCustomers(s, c, core, job, env);
    }
    if |o.after.ledger| > |c.ledger| {
      PaidWithOneMore(c, o.after, o.core);
    }
  }

  lemma NewEntryIsNotTheCustomers(s: Setup, c: Case, core: CoreState, job: Job, env: Env)
    requires var c' := Attempt(s, c, core, job, env).after; |c'.ledger| == |c.ledger| + 1
    requires Sent(s, c, job, env).None?
    ensures !Attempt(s, c, core, job, env).after.ledger[|c.ledger|].posting.TouchesCustomer()
  {
    if Attempt(s, c, core, job, env).after.ledger[|c.ledger|].posting.TouchesCustomer() {
      CommittedMeansApproved(s, c, core, job, env);
    }
  }

  lemma PaidWithOneMore(c: Case, c': Case, core: CoreState)
    requires |c'.ledger| == |c.ledger| + 1 && c'.ledger[..|c.ledger|] == c.ledger
    ensures var e := c'.ledger[|c.ledger|];
            var paid := e.posting.TouchesCustomer() ==> e.core.Some? && e.core.value.approved && HasMoved(core, e.reference);
            Paid(c', core) <==> Paid(c, core) && paid
  {
    assert c'.ledger == c.ledger + [c'.ledger[|c.ledger|]];
  }

  /** No attempt pays or unpays what another reference names. */
  lemma OthersStayPaid(s: Setup, c: Case, core: CoreState, job: Job, env: Env, other: Case)
    requires Named(other) && (other.rec.id != c.rec.id || other == c)
    ensures Paid(other, core) <==> Paid(other, Attempt(s, c, core, job, env).core)
  {
    var core', ins := Attempt(s, c, core, job, env).core, Sent(s, c, job, env);
    OnlyTheInstructionReachesTheCore(s, c, core, job, env);
    SentIsNamed(s, c, job, env);
    if ins.Some? {
      InstructOnlyAdds(s.rrn, core, env.core, ins.value);
      forall e | e in other.ledger ensures HasMoved(core, e.reference) <==> HasMoved(core', e.reference) {
        var i :| 0 <= i < |other.ledger| && other.ledger[i] == e;
        NothingElseMoves(core, core', ins.value, e.reference);
      }
    }
  }

  lemma NothingElseMoves(core: CoreState, core': CoreState, ins: Instruction, ref: Reference)
    requires core'.moved == core.moved || core'.moved == core.moved + [Movement(ins.reference, ins.credit, ins.amount)]
    requires ref != ins.reference
    ensures HasMoved(core, ref) <==> HasMoved(core', ref)
  {
    if HasMoved(core, ref) {
      var i :| 0 <= i < |core.moved| && core.moved[i].reference == ref;
      assert core'.moved[i].reference == ref;
    }
  }

  lemma NewEntryIsPaidIff(s: Setup, c: Case, core: CoreState, job: Job, env: Env)
    requires env.core.Connected? && Sound(s.rrn, core)
    requires var c' := Attempt(s, c, core, job, env).after;
             |c'.ledger| == |c.ledger| + 1 && c'.ledger[|c.ledger|].posting.TouchesCustomer()
    ensures var o := Attempt(s, c, core, job, env);
            var e := o.after.ledger[|c.ledger|];
            && e.core.Some? && e.core.value.approved
            && (HasMoved(o.core, e.reference) <==> SendsUnmistaken(s, c, core, job, env))
  {
    CommittedMeansApproved(s, c, core, job, env);
    OnlyTheInstructionReachesTheCore(s, c, core, job, env);
    ApprovalMeansMovedIffUnmistaken(s.rrn, core, env.core.settings, Sent(s, c, job, env).value);
  }

  /** Nothing else a reference names is disturbed: other disputes and earlier postings stay as reconciled as they were. */
  lemma OthersStayReconciled(s: Setup, c: Case, core: CoreState, job: Job, env: Env, other: Case)
    requires Named(other) && (other.rec.id != c.rec.id || other == c)
    ensures Reconciled(other, core) <==> Reconciled(other, Attempt(s, c, core, job, env).core)
  {
    var core', ins := Attempt(s, c, core, job, env).core, Sent(s, c, job, env);
    OnlyTheInstructionReachesTheCore(s, c, core, job, env);
    SentIsNamed(s, c, job, env);
    if ins.Some? {
      InstructOnlyAdds(s.rrn, core, env.core, ins.value);
      forall e | e in other.ledger ensures e.reference != ins.value.reference {
        var i :| 0 <= i < |other.ledger| && other.ledger[i] == e;
      }
    }
    assert forall m | m in core.moved :: m in core'.moved;
    assert forall m | m in core'.moved :: m in core.moved || (ins.Some? && m.reference == ins.value.reference);
  }

  /**
   * The core answers a repeated reference without comparing amounts, so a commit keeps books and bank equal exactly
   * when whatever already moved under its reference was for the same amount.
   */
  lemma CommitReconcilesIffAmountsAgree(s: Setup, c: Case, core: CoreState, job: Job, env: Env)
    requires env.core.Connected? && Named(c) && Reconciled(c, core)
    requires Attempt(s, c, core, job, env).result.Pass?
    ensures var o := Attempt(s, c, core, job, env);
            Reconciled(o.after, o.core) <==> Agrees(core, Sent(s, c, job, env))
  {
    var o, ins := Attempt(s, c, core, job, env), Sent(s, c, job, env);
    LedgerKeepsItsPrefix(s, c, core, job, env);
    OthersStayReconciled(s, c, core, job, env, c);
    OnlyTheInstructionReachesTheCore(s, c, core, job, env);
    if ins.Some? {
      SentIsCommitted(s, c, core, job, env);
      CommittedMeansApproved(s, c, core, job, env);
      var e := o.after.ledger[|c.ledger|];
      assert o.after.ledger == c.ledger + [e];
      NewEntryReconciles(s.rrn, core, env.core.settings, ins.value);
      assert e in o.after.ledger;
    } else {
      NothingSentNothingForTheCustomer(s, c, core, job, env);
    }
  }

  lemma SentIsCommitted(s: Setup, c: Case, core: CoreState, job: Job, env: Env)
    requires Attempt(s, c, core, job, env).result.Pass? && Sent(s, c, job, env).Some?
    ensures var c' := Attempt(s, c, core, job, env).after;
            |c'.ledger| == |c.ledger| + 1 && c'.ledger[|c.ledger|].posting.TouchesCustomer()
  {
    var r := s.rules[c.rec.regime];
    var mid := Record(r, c, c, Decide(s, c, job.req, env).value, job.req, env).value;
    AtMostOneEntry(s, r, mid, core, job.req.payload, env);
  }

  lemma NothingSentNothingForTheCustomer(s: Setup, c: Case, core: CoreState, job: Job, env: Env)
    requires Attempt(s, c, core, job, env).result.Pass? && Sent(s, c, job, env).None?
    ensures forall e | e in Attempt(s, c, core, job, env).after.ledger && e !in c.ledger :: !e.posting.TouchesCustomer()
  {
    var c' := Attempt(s, c, core, job, env).after;
    LedgerKeepsItsPrefix(s, c, core, job, env);
    if |c'.ledger| > |c.ledger| {
      assert c'.ledger == c.ledger + [c'.ledger[|c.ledger|]];
      NewEntryIsNotTheCustomers(s, c, core, job, env);
    }
  }

  lemma NewEntryReconciles(rrn: Numbering, core: CoreState, settings: Settings, ins: Instruction)
    requires var r := Exchange(rrn, core, settings, ins).1; r.Ok? && r.value.approved
    ensures Agrees(core, Some(ins)) <==>
            forall m | m in Exchange(rrn, core, settings, ins).0.moved && m.reference == ins.reference :: m.amount == ins.amount
  {
    var core' := Exchange(rrn, core, settings, ins).0;
    assert forall m | m in core.moved :: m in core'.moved;
  }
}
