/** Which attempts of a run move money at the bank, and so when a retry is safe. */
module Movements {
  import opened Prelude
  import opened Regimes
  import opened Lifecycle
  import opened Ledger
  import opened BankingCore
  import opened Cases
  import opened Logs
  import opened LedgerRuns
  import opened Runs
  import opened Payments

  /** The core would carry out a new instruction: it is there, it answers, and it does not decline. */
  predicate Willing(cfg: CoreConfig, ins: Instruction) {
    cfg.Connected? && cfg.settings.answers && Verdict(cfg.settings, ins) == "00"
  }

  // ---------------------------------------------------------------------------------------------------
  // One attempt

  /** Money has moved under this number, for this reference or for another. */
  ghost predicate NumberMoved(rrn: Numbering, core: CoreState, ref: Reference) {
    exists m :: m in core.moved && rrn(m.reference) == rrn(ref)
  }

  lemma SeenMeansMoved(rrn: Numbering, core: CoreState, ref: Reference)
    requires Sound(rrn, core)
    ensures rrn(ref) in core.seen <==> NumberMoved(rrn, core, ref)
  {
    if rrn(ref) in core.seen {
      var i :| 0 <= i < |core.moved| && rrn(core.moved[i].reference) == rrn(ref);
      assert core.moved[i] in core.moved;
    }
    if NumberMoved(rrn, core, ref) {
      var m :| m in core.moved && rrn(m.reference) == rrn(ref);
      var i :| 0 <= i < |core.moved| && core.moved[i] == m;
    }
  }

  /** An attempt, whatever it attempts and however it ends, moves money exactly when it sends a willing core a new number. */
  lemma MoneyMovesForANewNumber(s: Setup, c: Case, core: CoreState, job: Job, env: Env)
    requires Sound(s.rrn, core)
    ensures var after, ins := Attempt(s, c, core, job, env).core, Sent(s, c, job, env);
            && (after.moved != core.moved <==>
                  ins.Some? && Willing(env.core, ins.value) && !NumberMoved(s.rrn, core, ins.value.reference))
            && (after.moved != core.moved ==>
                  after.moved == core.moved + [Movement(ins.value.reference, ins.value.credit, ins.value.amount)])
  {
    OnlyTheInstructionReachesTheCore(s, c, core, job, env);
    var ins := Sent(s, c, job, env);
    if ins.Some? {
      SeenMeansMoved(s.rrn, core, ins.value.reference);
    }
  }

  lemma MovedUnlessMistaken(rrn: Numbering, core: CoreState, ref: Reference)
    requires Unmistaken(rrn, core, ref)
    ensures NumberMoved(rrn, core, ref) <==> HasMoved(core, ref)
  {
    if HasMoved(core, ref) {
      var i :| 0 <= i < |core.moved| && core.moved[i].reference == ref;
      assert core.moved[i] in core.moved;
    }
  }

  /** In one state of a dispute there is one reference: its next version, and the kind of posting that state allows. */
  lemma OneReferenceAVersion(s: Setup, c: Case, job: Job, env: Env, job': Job, env': Env)
    requires Sent(s, c, job, env).Some? && Sent(s, c, job', env').Some?
    ensures Sent(s, c, job, env).value.reference == Sent(s, c, job', env').value.reference
  {
    SentComesFromTheState(s, c, job, env);
    SentComesFromTheState(s, c, job', env');
  }

  /** What a state may still have the core do: reverse a credit once the chargeback is lost, and refund otherwise. */
  function KindFrom(r: Rules, from: State): PostingKind {
    if from == ChargebackLost then ProvisionalCreditReversal
    else
      match r.refund
      case FastRefund => FastRefundPosting
      case NoQuestionsAsked => NqaRefundPosting
      case _ => ProvisionalCreditPosting
  }

  lemma SentComesFromTheState(s: Setup, c: Case, job: Job, env: Env)
    requires Sent(s, c, job, env).Some?
    ensures c.rec.regime in s.rules
    ensures Sent(s, c, job, env).value.reference
         == Reference(c.rec.id, c.rec.version + 1, KindFrom(s.rules[c.rec.regime], c.rec.state))
  {
    SentIsNamed(s, c, job, env);
    var r, mid := s.rules[c.rec.regime], Midway(s, c, job.req, env);
    KindComesFromTheState(r, c.rec.Lifecycle(), job.req.event, Input(r, mid, mid.rec.state, job.req.payload).value);
  }

  lemma KindComesFromTheState(r: Rules, d: Dispute, e: Event, input: PostingInput)
    requires Advance(r, d, e).Ok? && Advance(r, d, e).value.state == input.entered
    requires Postings(r, input) != [] && Postings(r, input)[0].TouchesCustomer()
    ensures Postings(r, input)[0].kind == KindFrom(r, d.state)
  {
  }

  // ---------------------------------------------------------------------------------------------------
  // A run

  /** The world before the k-th action. */
  function At(s: Setup, actions: seq<Action>, k: nat): World
    requires k <= |actions|
  {
    Run(s, EMPTY_WORLD, actions[..k])
  }

  lemma OneActionLater(s: Setup, actions: seq<Action>, k: nat)
    requires k < |actions|
    ensures At(s, actions, k + 1) == Act(s, At(s, actions, k), actions[k])
  {
    assert actions[..k + 1][..k] == actions[..k];
  }

  /** The k-th action is an attempt on the dispute. */
  ghost predicate Tries(s: Setup, actions: seq<Action>, k: int, id: Id) {
    0 <= k < |actions| && actions[k].On? && actions[k].id == id && id in At(s, actions, k).cases
  }

  function VersionAt(s: Setup, actions: seq<Action>, k: nat, id: Id): nat
    requires k <= |actions| && id in At(s, actions, k).cases
  {
    At(s, actions, k).cases[id].rec.version
  }

  function SentAt(s: Setup, actions: seq<Action>, k: nat, id: Id): Option<Instruction>
    requires k < |actions| && actions[k].On? && id in At(s, actions, k).cases
  {
    Sent(s, At(s, actions, k).cases[id], actions[k].job, actions[k].env)
  }

  /** The k-th action moves money. */
  ghost predicate Pays(s: Setup, actions: seq<Action>, k: int) {
    0 <= k < |actions| && At(s, actions, k + 1).core.moved != At(s, actions, k).core.moved
  }

  ghost predicate PaysUnder(s: Setup, actions: seq<Action>, k: int, ref: Reference) {
    && Pays(s, actions, k) && Tries(s, actions, k, ref.dispute)
    && SentAt(s, actions, k, ref.dispute).Some? && SentAt(s, actions, k, ref.dispute).value.reference == ref
  }

  /** What a paying action adds is one movement, under the reference its attempt sent. */
  lemma APaymentIsSent(s: Setup, actions: seq<Action>, k: nat) returns (m: Movement)
    requires WellFormedTable(s.rules) && Pays(s, actions, k)
    ensures At(s, actions, k + 1).core.moved == At(s, actions, k).core.moved + [m]
    ensures PaysUnder(s, actions, k, m.reference)
  {
    OneActionLater(s, actions, k);
    EveryRunIsSound(s, actions[..k]);
    var w, a := At(s, actions, k), actions[k];
    MoneyMovesForANewNumber(s, w.cases[a.id], w.core, a.job, a.env);
    SentIsNamed(s, w.cases[a.id], a.job, a.env);
    var ins := Sent(s, w.cases[a.id], a.job, a.env).value;
    m := Movement(ins.reference, ins.credit, ins.amount);
  }

  /** Money that has moved under a reference was moved by some attempt of the run. */
  lemma {:induction false} WhatMovedWasPaid(s: Setup, actions: seq<Action>, n: nat, ref: Reference) returns (k: nat)
    requires WellFormedTable(s.rules) && n <= |actions| && HasMoved(At(s, actions, n).core, ref)
    ensures k < n && PaysUnder(s, actions, k, ref)
  {
    k := n - 1;
    TheLastActionMoves(s, actions, k, ref);
    if HasMoved(At(s, actions, k).core, ref) {
      k := WhatMovedWasPaid(s, actions, k, ref);
    }
  }

  /** Once money has moved under a reference, it has moved for good. */
  lemma {:induction false} WhatMovedStaysMoved(s: Setup, actions: seq<Action>, k: nat, n: nat, ref: Reference)
    requires WellFormedTable(s.rules) && k <= n <= |actions| && HasMoved(At(s, actions, k).core, ref)
    ensures HasMoved(At(s, actions, n).core, ref)
    decreases n
  {
    if k < n {
      WhatMovedStaysMoved(s, actions, k, n - 1, ref);
      TheLastActionMoves(s, actions, n - 1, ref);
    }
  }

  lemma WhatIsPaidHasMoved(s: Setup, actions: seq<Action>, k: nat, n: nat, ref: Reference)
    requires WellFormedTable(s.rules) && k < n <= |actions| && PaysUnder(s, actions, k, ref)
    ensures HasMoved(At(s, actions, n).core, ref)
  {
    TheLastActionMoves(s, actions, k, ref);
    WhatMovedStaysMoved(s, actions, k + 1, n, ref);
  }

  lemma TheLastActionMoves(s: Setup, actions: seq<Action>, k: nat, ref: Reference)
    requires WellFormedTable(s.rules) && k < |actions|
    ensures HasMoved(At(s, actions, k + 1).core, ref)
       <==> HasMoved(At(s, actions, k).core, ref) || PaysUnder(s, actions, k, ref)
  {
    if Pays(s, actions, k) {
      var m := APaymentIsSent(s, actions, k);
      HasMovedOneMore(At(s, actions, k).core, At(s, actions, k + 1).core, m, ref);
    }
  }

  lemma HasMovedOneMore(core: CoreState, core': CoreState, m: Movement, ref: Reference)
    requires core'.moved == core.moved + [m]
    ensures HasMoved(core', ref) <==> HasMoved(core, ref) || m.reference == ref
  {
    if HasMoved(core, ref) {
      var i :| 0 <= i < |core.moved| && core.moved[i].reference == ref;
      assert core'.moved[i].reference == ref;
    }
    assert core'.moved[|core.moved|] == m;
  }

  /** A dispute never disappears, its version never goes back, and it changes exactly when its version does. */
  lemma {:induction false} VersionsOnlyGrow(s: Setup, actions: seq<Action>, j: nat, k: nat, id: Id)
    requires WellFormedTable(s.rules) && j <= k <= |actions| && id in At(s, actions, j).cases
    ensures id in At(s, actions, k).cases && VersionAt(s, actions, j, id) <= VersionAt(s, actions, k, id)
    ensures VersionAt(s, actions, j, id) == VersionAt(s, actions, k, id)
       ==> At(s, actions, j).cases[id] == At(s, actions, k).cases[id]
    decreases k
  {
    if j < k {
      VersionsOnlyGrow(s, actions, j, k - 1, id);
      OneActionLater(s, actions, k - 1);
      var w, a := At(s, actions, k - 1), actions[k - 1];
      if a.On? && a.id == id && Attempt(s, w.cases[id], w.core, a.job, a.env).after != w.cases[id] {
        AttemptAppends(s, w.cases[id], w.core, a.job, a.env);
      }
    }
  }

  /** An earlier attempt on the dispute, made while it had the version it has now, has paid. */
  ghost predicate PaidAtThisVersion(s: Setup, actions: seq<Action>, n: nat, id: Id)
    requires n <= |actions| && id in At(s, actions, n).cases
  {
    exists k :: 0 <= k < n && Pays(s, actions, k) && Tries(s, actions, k, id)
                && VersionAt(s, actions, k, id) == VersionAt(s, actions, n, id)
  }

  /** The k-th action sends an instruction to a core that would carry it out. */
  ghost predicate SendsToAWillingCore(s: Setup, actions: seq<Action>, k: nat, id: Id)
    requires Tries(s, actions, k, id)
  {
    SentAt(s, actions, k, id).Some? && Willing(actions[k].env.core, SentAt(s, actions, k, id).value)
  }

  /** An earlier payment, for this dispute or another, went under the number of what the n-th action sends. */
  ghost predicate PaidUnderThisNumber(s: Setup, actions: seq<Action>, n: nat, id: Id)
    requires Tries(s, actions, n, id) && SentAt(s, actions, n, id).Some?
  {
    exists k, ref ::
      0 <= k < n && PaysUnder(s, actions, k, ref) && s.rrn(ref) == s.rrn(SentAt(s, actions, n, id).value.reference)
  }

  /** However references are numbered, an attempt pays exactly when it sends a willing core a number not paid under. */
  lemma AnAttemptPaysUnlessItsNumberHas(s: Setup, actions: seq<Action>, n: nat, id: Id)
    requires WellFormedTable(s.rules) && Tries(s, actions, n, id)
    ensures Pays(s, actions, n)
       <==> SendsToAWillingCore(s, actions, n, id) && !PaidUnderThisNumber(s, actions, n, id)
  {
    var w, a := At(s, actions, n), actions[n];
    EveryRunIsSound(s, actions[..n]);
    OneActionLater(s, actions, n);
    MoneyMovesForANewNumber(s, w.cases[id], w.core, a.job, a.env);
    if SentAt(s, actions, n, id).Some? {
      NumberMovedIffPaid(s, actions, n, id);
    }
  }

  lemma NumberMovedIffPaid(s: Setup, actions: seq<Action>, n: nat, id: Id)
    requires WellFormedTable(s.rules) && Tries(s, actions, n, id) && SentAt(s, actions, n, id).Some?
    ensures NumberMoved(s.rrn, At(s, actions, n).core, SentAt(s, actions, n, id).value.reference)
       <==> PaidUnderThisNumber(s, actions, n, id)
  {
    var w, ref := At(s, actions, n), SentAt(s, actions, n, id).value.reference;
    if NumberMoved(s.rrn, w.core, ref) {
      var m :| m in w.core.moved && s.rrn(m.reference) == s.rrn(ref);
      MovementHasMoved(w.core, m);
      var k := WhatMovedWasPaid(s, actions, n, m.reference);
    }
    if PaidUnderThisNumber(s, actions, n, id) {
      var k, other :| 0 <= k < n && PaysUnder(s, actions, k, other) && s.rrn(other) == s.rrn(ref);
      WhatIsPaidHasMoved(s, actions, k, n, other);
      var i :| 0 <= i < |w.core.moved| && w.core.moved[i].reference == other;
      assert w.core.moved[i] in w.core.moved;
    }
  }

  lemma MovementHasMoved(core: CoreState, m: Movement)
    requires m in core.moved
    ensures HasMoved(core, m.reference)
  {
    var i :| 0 <= i < |core.moved| && core.moved[i] == m;
  }

  // ---------------------------------------------------------------------------------------------------
  // References told apart

  /** What the k-th action sends, if it is an attempt that sends anything. */
  ghost function InstructionAt(s: Setup, actions: seq<Action>, k: nat): Option<Instruction>
    requires k < |actions|
  {
    if actions[k].On? && actions[k].id in At(s, actions, k).cases then SentAt(s, actions, k, actions[k].id) else None
  }

  /** No two references the run's attempts send share a number. */
  ghost predicate ToldApart(s: Setup, actions: seq<Action>) {
    forall j, k | 0 <= j < |actions| && 0 <= k < |actions|
                  && SameNumber(s, InstructionAt(s, actions, j), InstructionAt(s, actions, k)) ::
      InstructionAt(s, actions, j).value.reference == InstructionAt(s, actions, k).value.reference
  }

  ghost predicate SameNumber(s: Setup, a: Option<Instruction>, b: Option<Instruction>) {
    a.Some? && b.Some? && s.rrn(a.value.reference) == s.rrn(b.value.reference)
  }

  /** Then nothing that is sent is mistaken for another, because whatever has moved was sent. */
  lemma SentIsUnmistaken(s: Setup, actions: seq<Action>, n: nat, id: Id)
    requires WellFormedTable(s.rules) && ToldApart(s, actions) && Tries(s, actions, n, id)
    requires SentAt(s, actions, n, id).Some?
    ensures Unmistaken(s.rrn, At(s, actions, n).core, SentAt(s, actions, n, id).value.reference)
  {
    var w, ref := At(s, actions, n), SentAt(s, actions, n, id).value.reference;
    forall m | m in w.core.moved && s.rrn(m.reference) == s.rrn(ref) ensures m.reference == ref {
      MovementHasMoved(w.core, m);
      var k := WhatMovedWasPaid(s, actions, n, m.reference);
      assert SameNumber(s, InstructionAt(s, actions, k), InstructionAt(s, actions, n));
    }
  }

  /**
   * When a retry is safe: in every run whose references are told apart, an attempt moves money exactly when it sends a
   * willing core an instruction and no earlier attempt at the same version of the dispute has moved money. Neither the
   * amount nor what was attempted, nor whether those attempts committed, matters.
   */
  lemma AnAttemptPaysUnlessItsVersionHas(s: Setup, actions: seq<Action>, n: nat, id: Id)
    requires WellFormedTable(s.rules) && ToldApart(s, actions) && Tries(s, actions, n, id)
    ensures Pays(s, actions, n) <==> SendsToAWillingCore(s, actions, n, id) && !PaidAtThisVersion(s, actions, n, id)
  {
    var w, a := At(s, actions, n), actions[n];
    EveryRunIsSound(s, actions[..n]);
    OneActionLater(s, actions, n);
    MoneyMovesForANewNumber(s, w.cases[id], w.core, a.job, a.env);
    if SentAt(s, actions, n, id).Some? {
      SentIsUnmistaken(s, actions, n, id);
      MovedUnlessMistaken(s.rrn, w.core, SentAt(s, actions, n, id).value.reference);
      MovedIffPaidAtThisVersion(s, actions, n, id);
    }
  }

  lemma MovedIffPaidAtThisVersion(s: Setup, actions: seq<Action>, n: nat, id: Id)
    requires WellFormedTable(s.rules) && Tries(s, actions, n, id) && SentAt(s, actions, n, id).Some?
    ensures HasMoved(At(s, actions, n).core, SentAt(s, actions, n, id).value.reference)
       <==> PaidAtThisVersion(s, actions, n, id)
  {
    var w, a, ref := At(s, actions, n), actions[n], SentAt(s, actions, n, id).value.reference;
    EveryRunIsSound(s, actions[..n]);
    SentIsNamed(s, w.cases[id], a.job, a.env);
    if HasMoved(w.core, ref) {
      var k := WhatMovedWasPaid(s, actions, n, ref);
      PaidUnderIffSameVersion(s, actions, k, n, id);
    }
    if PaidAtThisVersion(s, actions, n, id) {
      var k :| 0 <= k < n && Pays(s, actions, k) && Tries(s, actions, k, id)
               && VersionAt(s, actions, k, id) == VersionAt(s, actions, n, id);
      PaidUnderIffSameVersion(s, actions, k, n, id);
      WhatIsPaidHasMoved(s, actions, k, n, ref);
    }
  }

  lemma PaidUnderIffSameVersion(s: Setup, actions: seq<Action>, k: nat, n: nat, id: Id)
    requires WellFormedTable(s.rules)
    requires k < n && Pays(s, actions, k) && Tries(s, actions, k, id) && Tries(s, actions, n, id)
    requires SentAt(s, actions, n, id).Some?
    ensures PaysUnder(s, actions, k, SentAt(s, actions, n, id).value.reference)
       <==> VersionAt(s, actions, k, id) == VersionAt(s, actions, n, id)
  {
    var past, present, a, b := At(s, actions, k).cases[id], At(s, actions, n).cases[id], actions[k], actions[n];
    EveryRunIsSound(s, actions[..k]);
    EveryRunIsSound(s, actions[..n]);
    var m := APaymentIsSent(s, actions, k);
    SentIsNamed(s, past, a.job, a.env);
    SentIsNamed(s, present, b.job, b.env);
    VersionsOnlyGrow(s, actions, k, n, id);
    if past.rec.version == present.rec.version {
      OneReferenceAVersion(s, past, a.job, a.env, b.job, b.env);
    }
  }

  /**
   * So once an attempt has paid, and nothing else has paid for the dispute since, another that reaches a willing core
   * pays again exactly when the dispute's version has moved on.
   */
  lemma ARetryPaysAgainIffTheVersionMoved(s: Setup, actions: seq<Action>, first: nat, retry: nat, id: Id)
    requires WellFormedTable(s.rules) && ToldApart(s, actions)
    requires first < retry && Pays(s, actions, first) && Tries(s, actions, first, id) && Tries(s, actions, retry, id)
    requires forall k | first < k < retry && Tries(s, actions, k, id) :: !Pays(s, actions, k)
    requires SendsToAWillingCore(s, actions, retry, id)
    ensures Pays(s, actions, retry) <==> VersionAt(s, actions, retry, id) != VersionAt(s, actions, first, id)
  {
    AnAttemptPaysUnlessItsVersionHas(s, actions, retry, id);
    VersionsOnlyGrow(s, actions, first, retry, id);
    forall k | 0 <= k < first && Tries(s, actions, k, id)
      ensures VersionAt(s, actions, k, id) <= VersionAt(s, actions, first, id)
    {
      VersionsOnlyGrow(s, actions, k, first, id);
    }
  }

  /** Nothing has moved beyond the next version of a dispute, nor for a dispute that is not there. */
  lemma NothingMovesAhead(s: Setup, actions: seq<Action>, n: nat, ref: Reference)
    requires WellFormedTable(s.rules) && n <= |actions| && HasMoved(At(s, actions, n).core, ref)
    ensures ref.dispute in At(s, actions, n).cases && ref.event <= VersionAt(s, actions, n, ref.dispute) + 1
  {
    var k := WhatMovedWasPaid(s, actions, n, ref);
    EveryRunIsSound(s, actions[..k]);
    SentIsNamed(s, At(s, actions, k).cases[ref.dispute], actions[k].job, actions[k].env);
    VersionsOnlyGrow(s, actions, k, n, ref.dispute);
  }
}
