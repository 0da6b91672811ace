/**
 * Disputes on which a credit whose transaction was rolled back sets books and bank apart: retried with another amount,
 * retried after a move between teams, and not retried at all.
 */
module Retries {
  import opened Prelude
  import opened Regimes
  import opened Lifecycle
  import opened Calendars
  import opened Ledger
  import opened Risk
  import opened BankingCore
  import opened Cases
  import opened LedgerRuns
  import opened Runs
  import opened Payments
  import opened Bookings

  function Refund(liability: real): Job {
    Dispatch(Request(IssueRefund, Facts(Some(Parsed(liability)), "", Answers(true, 0), "")))
  }

  const WILLING := Connected(Settings(None, {}, true))

  function RefundKind(r: Rules): PostingKind
    requires r.HasRefundStep()
  {
    match r.refund
    case ProvisionalCredit => ProvisionalCreditPosting
    case FastRefund => FastRefundPosting
    case NoQuestionsAsked => NqaRefundPosting
  }

  /** A dispute under investigation, never credited, not on hold, with a positive claim. */
  ghost predicate Creditable(s: Setup, c: Case) {
    && c.rec.regime in s.rules && s.rules[c.rec.regime].HasRefundStep()
    && c.rec.state == Investigating && c.rec.disputedAmount > 0.0
    && c.ledger == [] && !NumberTaken(c.events, c.rec.version + 1)
    && c.risk != [] && c.risk[|c.risk| - 1].assessment.tier != High
  }

  ghost predicate Permissible(s: Setup, c: Case, liability: real)
    requires c.rec.regime in s.rules
  {
    CreditAmount(s.rules[c.rec.regime], c.rec.disputedAmount, liability).Ok?
  }

  function RefundInstruction(s: Setup, c: Case, liability: real): Instruction
    requires c.rec.regime in s.rules && s.rules[c.rec.regime].HasRefundStep()
  {
    Instruction(Reference(c.rec.id, c.rec.version + 1, RefundKind(s.rules[c.rec.regime])), c.rec.account, true,
                c.rec.disputedAmount - liability)
  }

  lemma RefundIsSent(s: Setup, c: Case, liability: real, env: Env)
    requires Creditable(s, c) && Permissible(s, c, liability) && env.authorised
    ensures Sent(s, c, Refund(liability), env) == Some(RefundInstruction(s, c, liability))
  {
  }

  lemma RefundReachesTheCore(s: Setup, c: Case, core: CoreState, liability: real, env: Env)
    requires Creditable(s, c) && Permissible(s, c, liability) && env.authorised && env.core == WILLING
    ensures Attempt(s, c, core, Refund(liability), env).core
         == Exchange(s.rrn, core, WILLING.settings, RefundInstruction(s, c, liability)).0
    ensures !env.restSucceeds ==> Attempt(s, c, core, Refund(liability), env).after == c
  {
    RefundIsSent(s, c, liability, env);
    OnlyTheInstructionReachesTheCore(s, c, core, Refund(liability), env);
  }

  /** A refund the core approves is committed exactly when the rest of its transaction succeeds. */
  lemma RefundCommitsIfTheRestDoes(s: Setup, c: Case, core: CoreState, liability: real, env: Env)
    requires Creditable(s, c) && Permissible(s, c, liability) && env.authorised && env.core == WILLING
    requires forall k | k in core.seen :: core.seen[k].approved
    ensures var o, ins := Attempt(s, c, core, Refund(liability), env), RefundInstruction(s, c, liability);
            && o.core == Exchange(s.rrn, core, WILLING.settings, ins).0
            && (!env.restSucceeds ==> o.after == c)
            && (env.restSucceeds ==>
                  && o.result.Pass? && |o.after.ledger| == 1
                  && o.after.ledger[0].reference == ins.reference
                  && o.after.ledger[0].posting.debit == Suspense && o.after.ledger[0].posting.credit == Customer
                  && o.after.ledger[0].posting.amount == ins.amount)
  {
    var job := Refund(liability);
    RefundReachesTheCore(s, c, core, liability, env);
    if env.restSucceeds {
      RefundIsSent(s, c, liability, env);
      RefundIsAccepted(s, c, core, liability, env);
      SentIsCommitted(s, c, core, job, env);
      CommittedMeansApproved(s, c, core, job, env);
      LedgerKeepsItsPrefix(s, c, core, job, env);
      var input := LedgerEffect(s, c, core, job.req, env);
    }
  }

  lemma RefundIsAccepted(s: Setup, c: Case, core: CoreState, liability: real, env: Env)
    requires Creditable(s, c) && Permissible(s, c, liability) && env.authorised && env.core == WILLING
    requires env.restSucceeds
    requires forall k | k in core.seen :: core.seen[k].approved
    ensures Attempt(s, c, core, Refund(liability), env).result.Pass?
  {
    var job, ins := Refund(liability), RefundInstruction(s, c, liability);
    var r := s.rules[c.rec.regime];
    var next := c.rec.Lifecycle().(state := RefundState(r));
    assert Decide(s, c, job.req, env) == Ok(next);
    var mid := Record(r, c, c, next, job.req, env).value;
    RefundIsPosted(s, r, mid, core, liability, env);
  }

  lemma RefundIsPosted(s: Setup, r: Rules, mid: Case, core: CoreState, liability: real, env: Env)
    requires r.HasRefundStep() && mid.rec.state == RefundState(r) && mid.ledger == []
    requires CreditAmount(r, mid.rec.disputedAmount, liability).Ok? && liability < mid.rec.disputedAmount
    requires env.core == WILLING && forall k | k in core.seen :: core.seen[k].approved
    ensures PostLedger(s, r, mid, core, Refund(liability).req.payload, env).1.Ok?
  {
    var p := Refund(liability).req.payload;
    var ps := PostingOf(r, mid, p);
    OneMovementIsBooked(s, core, mid.rec, mid.rec.version, ps, env);
    var booked := Book(s, core, mid.rec, mid.rec.version, ps[0], env).1;
    OneAppended(mid.ledger, booked.value);
  }

  lemma BalanceOfOneCredit(ledger: seq<LedgerEntry>)
    requires |ledger| == 1 && ledger[0].posting.debit == Suspense && ledger[0].posting.credit == Customer
    ensures CustomerBalance(PostingsOf(ledger)) == ledger[0].posting.amount
  {
    var ps := PostingsOf(ledger);
    assert Net(Customer, ps[..0]) == 0.0;
  }

  lemma FirstThenRepeat(rrn: Numbering, core: CoreState, first: Instruction, second: Instruction)
    requires first.credit && first.reference == second.reference
    requires core == Exchange(rrn, EMPTY_CORE, WILLING.settings, first).0
    ensures && core.moved == [Movement(first.reference, true, first.amount)]
            && (forall k | k in core.seen :: core.seen[k].approved)
            && Exchange(rrn, core, WILLING.settings, second).0.moved == core.moved
  {
  }

  /**
   * A retry with another liability commits the new amount while the bank has moved the old one: the hypothesis of
   * TheBankAgreesWithTheBooks is needed.
   */
  lemma ARetryWithAnotherAmountDisagrees(s: Setup, c: Case, first: real, second: real, failing: Env, succeeding: Env)
    requires Creditable(s, c) && Permissible(s, c, first) && Permissible(s, c, second) && first != second
    requires failing.authorised && failing.core == WILLING && !failing.restSucceeds
    requires succeeding.authorised && succeeding.core == WILLING && succeeding.restSucceeds
    ensures var o1 := Attempt(s, c, EMPTY_CORE, Refund(first), failing);
            var o2 := Attempt(s, o1.after, o1.core, Refund(second), succeeding);
            && o2.result.Pass?
            && o2.core.moved == [Movement(RefundInstruction(s, c, first).reference, true, c.rec.disputedAmount - first)]
            && CustomerBalance(PostingsOf(o2.after.ledger)) == c.rec.disputedAmount - second
            && !Reconciled(o2.after, o2.core)
  {
    var o1 := Attempt(s, c, EMPTY_CORE, Refund(first), failing);
    assert o1.after == c && o1.core == Exchange(s.rrn, EMPTY_CORE, WILLING.settings, RefundInstruction(s, c, first)).0 by {
      RefundCommitsIfTheRestDoes(s, c, EMPTY_CORE, first, failing);
    }
    RefundAfterRefund(s, c, o1.core, first, second, succeeding);
  }

  lemma RefundAfterRefund(s: Setup, c: Case, core: CoreState, first: real, second: real, env: Env)
    requires Creditable(s, c) && Permissible(s, c, second) && first != second
    requires env.authorised && env.core == WILLING && env.restSucceeds
    requires core == Exchange(s.rrn, EMPTY_CORE, WILLING.settings, RefundInstruction(s, c, first)).0
    ensures var o := Attempt(s, c, core, Refund(second), env);
            && o.result.Pass?
            && o.core.moved == [Movement(RefundInstruction(s, c, first).reference, true, c.rec.disputedAmount - first)]
            && CustomerBalance(PostingsOf(o.after.ledger)) == c.rec.disputedAmount - second
            && !Reconciled(o.after, o.core)
  {
    FirstThenRepeat(s.rrn, core, RefundInstruction(s, c, first), RefundInstruction(s, c, second));
    RepeatedRefundCommits(s, c, core, first, second, env);
  }

  lemma RepeatedRefundCommits(s: Setup, c: Case, core: CoreState, first: real, second: real, env: Env)
    requires Creditable(s, c) && Permissible(s, c, second) && first != second
    requires env.authorised && env.core == WILLING && env.restSucceeds
    requires core.moved == [Movement(RefundInstruction(s, c, first).reference, true, c.rec.disputedAmount - first)]
    requires forall k | k in core.seen :: core.seen[k].approved
    requires Exchange(s.rrn, core, WILLING.settings, RefundInstruction(s, c, second)).0.moved == core.moved
    ensures var o := Attempt(s, c, core, Refund(second), env);
            && o.result.Pass? && o.core.moved == core.moved
            && CustomerBalance(PostingsOf(o.after.ledger)) == c.rec.disputedAmount - second
            && !Reconciled(o.after, o.core)
  {
    RefundCommitsIfTheRestDoes(s, c, core, second, env);
    var o := Attempt(s, c, core, Refund(second), env);
    BalanceOfOneCredit(o.after.ledger);
    UnequalIsUnreconciled(o.after, o.core, 0, 0);
  }

  lemma UnequalIsUnreconciled(c: Case, core: CoreState, i: nat, j: nat)
    requires i < |c.ledger| && j < |core.moved| && c.ledger[i].posting.TouchesCustomer()
    requires c.ledger[i].reference == core.moved[j].reference && c.ledger[i].posting.amount != core.moved[j].amount
    ensures !Reconciled(c, core)
  {
    assert c.ledger[i] in c.ledger && core.moved[j] in core.moved;
  }

  /**
   * The reference names the next version, so a retry after any other committed change, here a move between teams,
   * is a new instruction: the bank pays twice for one ledger entry.
   */
  lemma AMoveBetweenRetriesPaysTwice(
    s: Setup, c: Case, liability: real, team: string, failing: Env, moving: Env, succeeding: Env)
    requires CaseInv(s, c) && Creditable(s, c) && Permissible(s, c, liability)
    requires var ref := RefundInstruction(s, c, liability).reference; s.rrn(ref) != s.rrn(ref.(event := ref.event + 1))
    requires failing.authorised && failing.core == WILLING && !failing.restSucceeds
    requires moving.authorised && team in moving.teams && team != c.rec.team
    requires succeeding.authorised && succeeding.core == WILLING && succeeding.restSucceeds
    ensures var o1 := Attempt(s, c, EMPTY_CORE, Refund(liability), failing);
            var o2 := Attempt(s, o1.after, o1.core, Move(team), moving);
            var o3 := Attempt(s, o2.after, o2.core, Refund(liability), succeeding);
            && o1.result.Fail? && o2.result.Pass? && o3.result.Pass?
            && |o3.after.ledger| == 1 && |o3.core.moved| == 2
            && CustomerBalance(PostingsOf(o3.after.ledger)) == c.rec.disputedAmount - liability
            && o3.core.moved[0].Signed() + o3.core.moved[1].Signed() == 2.0 * (c.rec.disputedAmount - liability)
  {
    var o1 := Attempt(s, c, EMPTY_CORE, Refund(liability), failing);
    RefundCommitsIfTheRestDoes(s, c, EMPTY_CORE, liability, failing);
    var c2 := Attempt(s, c, o1.core, Move(team), moving).after;
    MoveStaysCreditable(s, c, o1.core, team, moving);
    var o3 := Attempt(s, c2, o1.core, Refund(liability), succeeding);
    RefundCommitsIfTheRestDoes(s, c2, o1.core, liability, succeeding);
    BalanceOfOneCredit(o3.after.ledger);
  }

  /**
   * A payment rolled back and never retried: the dispute closes without a posting, every commit on it agrees with the
   * bank, and the customer keeps what no ledger shows.
   */
  lemma APaymentMayBeLeftBehind(s: Setup, c: Case, liability: real, failing: Env, closing: Env)
    requires Creditable(s, c) && Permissible(s, c, liability)
    requires failing.authorised && failing.core == WILLING && !failing.restSucceeds
    requires closing.authorised && closing.restSucceeds
    ensures var o1 := Attempt(s, c, EMPTY_CORE, Refund(liability), failing);
            var o2 := Attempt(s, o1.after, o1.core, Dispatch(Request(Close, NO_FACTS)), closing);
            && o1.result.Fail? && o2.result.Pass? && o2.after.rec.state == Closed
            && o2.after.ledger == [] && Paid(o2.after, o2.core) && Reconciled(o2.after, o2.core)
            && o2.core.moved == [MovementOf(RefundInstruction(s, c, liability))]
            && !Booked(o2.after, o2.core)
  {
    var o1 := Attempt(s, c, EMPTY_CORE, Refund(liability), failing);
    assert o1.after == c && o1.core == Exchange(s.rrn, EMPTY_CORE, WILLING.settings, RefundInstruction(s, c, liability)).0 by {
      RefundReachesTheCore(s, c, EMPTY_CORE, liability, failing);
    }
    RefundFails(s, c, EMPTY_CORE, liability, failing);
    ClosingLeavesBehind(s, c, o1.core, RefundInstruction(s, c, liability), closing);
  }

  function MovementOf(ins: Instruction): Movement { Movement(ins.reference, ins.credit, ins.amount) }

  lemma RefundFails(s: Setup, c: Case, core: CoreState, liability: real, env: Env)
    requires !env.restSucceeds
    ensures Attempt(s, c, core, Refund(liability), env).result.Fail?
  {
  }

  lemma ClosingLeavesBehind(s: Setup, c: Case, core: CoreState, ins: Instruction, env: Env)
    requires Creditable(s, c) && env.authorised && env.restSucceeds && ins.reference.dispute == c.rec.id
    requires core == Exchange(s.rrn, EMPTY_CORE, WILLING.settings, ins).0 && ins.credit
    ensures var o := Attempt(s, c, core, Dispatch(Request(Close, NO_FACTS)), env);
            && o.result.Pass? && o.after.rec.state == Closed && o.after.ledger == []
            && Paid(o.after, o.core) && Reconciled(o.after, o.core) && !Booked(o.after, o.core)
            && o.core.moved == [MovementOf(ins)]
  {
    ClosingPostsNothing(s, c, core, env);
    assert core.moved == [Movement(ins.reference, true, ins.amount)];
    AnEmptyLedgerBooksNothing(Attempt(s, c, core, Dispatch(Request(Close, NO_FACTS)), env).after, core, core.moved[0]);
  }

  lemma AnEmptyLedgerBooksNothing(c: Case, core: CoreState, m: Movement)
    requires c.ledger == [] && m in core.moved && m.reference.dispute == c.rec.id
    ensures Paid(c, core) && Reconciled(c, core) && !Booked(c, core)
  {
  }

  lemma ClosingPostsNothing(s: Setup, c: Case, core: CoreState, env: Env)
    requires Creditable(s, c) && env.authorised && env.restSucceeds
    ensures var o := Attempt(s, c, core, Dispatch(Request(Close, NO_FACTS)), env);
            && o.result.Pass? && o.core == core && o.after.ledger == []
            && o.after.rec.state == Closed && o.after.rec.id == c.rec.id
  {
  }

  lemma MoveStaysCreditable(s: Setup, c: Case, core: CoreState, team: string, env: Env)
    requires CaseInv(s, c) && Creditable(s, c)
    requires env.authorised && team in env.teams && team != c.rec.team
    ensures var o := Attempt(s, c, core, Move(team), env);
            && o.result.Pass? && o.core == core && Creditable(s, o.after)
            && o.after.rec.(team := c.rec.team, version := c.rec.version, updatedAt := c.rec.updatedAt) == c.rec
            && o.after.rec.version == c.rec.version + 1
  {
    assert forall e | e in c.events :: e.number <= c.rec.version;
  }

  /** Such disputes are reached under every row with a refund and a cap of 50 or more, PSD2 and Regulation E among them. */
  lemma ACreditableDisputeIsReached(s: Setup, regime: string) returns (actions: seq<Action>)
    requires regime in s.rules && s.rules[regime].HasRefundStep() && s.rules[regime].liabilityCapMinor >= 5000
    ensures var w := Run(s, EMPTY_WORLD, actions);
            && 1 in w.cases && Creditable(s, w.cases[1])
            && Permissible(s, w.cases[1], 0.0) && Permissible(s, w.cases[1], 50.0)
            && w.core == EMPTY_CORE
  {
    var env := Env(0, Analyst(""), true, Calendar(UTC, {}), {}, WILLING, History(0, 0, 0, false, 1000), true);
    var input := OpenInput(1, 1, "general", regime, Unauthorised, 1, 100.0, "EUR");
    var opening, investigating := Begin(input, env), On(1, Dispatch(Request(OpenInvestigation, NO_FACTS)), env);
    actions := [opening, investigating];
    var c := NewCase(s.rules[regime], input, env);
    PointsAddUp(Signals(RiskOf(c.rec, None, env.history)));
    InvestigationOpens(s, c, env);
    TwoActions(s, opening, investigating);
    assert Act(s, EMPTY_WORLD, opening) == World(map[1 := c], EMPTY_CORE);
  }

  lemma TwoActions(s: Setup, first: Action, second: Action)
    ensures Run(s, EMPTY_WORLD, [first, second]) == Act(s, Act(s, EMPTY_WORLD, first), second)
  {
    var actions := [first, second];
    assert actions[..1] == [first];
    assert Run(s, EMPTY_WORLD, actions[..1][..0]) == EMPTY_WORLD;
  }

  lemma InvestigationOpens(s: Setup, c: Case, env: Env)
    requires c.rec.regime in s.rules && c.rec.state == Initiated && c.rec.version == 1 && c.ledger == []
    requires |c.events| == 1 && c.events[0].number == 1
    requires env.authorised && env.restSucceeds
    ensures var o := Attempt(s, c, EMPTY_CORE, Dispatch(Request(OpenInvestigation, NO_FACTS)), env);
            && o.core == EMPTY_CORE && o.after.rec.state == Investigating && o.after.rec.version == 2
            && o.after.rec.regime == c.rec.regime && o.after.rec.disputedAmount == c.rec.disputedAmount
            && o.after.ledger == [] && o.after.risk == c.risk && !NumberTaken(o.after.events, 3)
  {
  }
}
