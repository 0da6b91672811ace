/** The order of remedies: under a row with a refund the customer is made whole before the merchant is pursued. */
module Remedies {
  import opened Prelude
  import opened Regimes
  import opened Lifecycle
  import opened Ledger
  import opened BankingCore
  import opened Cases
  import opened Logs
  import opened LedgerRuns
  import opened Runs
  import opened Causes

  /** A chargeback has been filed in the current cycle. */
  predicate IsPursuit(s: State) {
    || s in {ChargebackFiled, ChargebackAcknowledged, EvidenceSubmitted, ChargebackWon, ChargebackLost}
    || s in {FinalCreditIssued, ProvisionalCreditReversed}
  }

  /** The i-th entry issued a refund, and no appeal has begun another cycle since. */
  ghost predicate RefundedAt(events: seq<EventRecord>, i: int) {
    && 0 <= i < |events| && events[i].kind == Lifecycled(IssueRefund)
    && forall j | i < j < |events| :: events[j].kind != Lifecycled(Appeal)
  }

  ghost predicate RefundedThisCycle(events: seq<EventRecord>) {
    exists i :: RefundedAt(events, i)
  }

  /** Whether the row asks for a refund by the time a dispute is in the state. */
  predicate RefundIsDue(r: Rules, s: State) { IsRefundState(s) || (r.refund != NoRefund && IsPursuit(s)) }

  /** The log has the refund, and what it advanced on a positive claim is in suspense until it is cleared. */
  ghost predicate Remedied(s: Setup, c: Case) {
    && c.rec.regime in s.rules
    && (RefundIsDue(s.rules[c.rec.regime], c.rec.state) ==>
          && RefundedThisCycle(c.events)
          && (c.rec.disputedAmount > 0.0 && Holding(s.rules[c.rec.regime], c.rec.state) ==> |c.ledger| % 2 == 1))
  }

  lemma AttemptKeepsRemedied(s: Setup, c: Case, core: CoreState, job: Job, env: Env)
    requires LogInv(s, c) && LedgerInv(s, c) && Remedied(s, c)
    ensures Remedied(s, Attempt(s, c, core, job, env).after)
  {
    var o := Attempt(s, c, core, job, env);
    if o.after != c {
      AttemptAppends(s, c, core, job, env);
      match job
      case Dispatch(req) => CommitKeepsRemedied(s, c, core, req, env);
      case Move(_) => MoveKeepsRemedied(s, c, o.after);
    }
  }

  lemma CommitKeepsRemedied(s: Setup, c: Case, core: CoreState, req: Request, env: Env)
    requires LogInv(s, c) && LedgerInv(s, c) && Remedied(s, c)
    requires CommitEvent(s, c, c, core, req, env).result.Pass?
    requires Extends(c, CommitEvent(s, c, c, core, req, env).after)
    ensures Remedied(s, CommitEvent(s, c, c, core, req, env).after)
  {
    EntryIsTheEvent(s, c, core, req, env);
    var input := LedgerEffect(s, c, core, req, env);
    EventKeepsRemedied(s, c, CommitEvent(s, c, c, core, req, env).after, req.event, input);
  }

  lemma RefundStays(events: seq<EventRecord>, e: EventRecord)
    requires RefundedThisCycle(events) && e.kind != Lifecycled(Appeal)
    ensures RefundedThisCycle(events + [e])
  {
    var i :| RefundedAt(events, i);
    assert RefundedAt(events + [e], i);
  }

  lemma MoveKeepsRemedied(s: Setup, c: Case, c': Case)
    requires Remedied(s, c) && Extends(c, c') && c'.rec.Lifecycle() == c.rec.Lifecycle() && c'.ledger == c.ledger
    requires c'.events[|c.events|].kind == Reassigned
    ensures Remedied(s, c')
  {
    assert c'.events == c.events + [c'.events[|c.events|]];
    if RefundedThisCycle(c.events) {
      RefundStays(c.events, c'.events[|c.events|]);
    }
  }

  lemma EventKeepsRemedied(s: Setup, c: Case, c': Case, e: Event, input: PostingInput)
    requires LedgerInv(s, c) && Remedied(s, c) && Extends(c, c')
    requires Advance(s.rules[c.rec.regime], c.rec.Lifecycle(), e) == Ok(c'.rec.Lifecycle())
    requires c'.events[|c.events|].kind == Lifecycled(e)
    requires input.entered == c'.rec.state && input.disputed == c.rec.disputedAmount
    requires c.rec.disputedAmount > 0.0 ==> input.liability < c.rec.disputedAmount
    requires LedgerGrows(s.rules[c.rec.regime], c, c', input)
    ensures Remedied(s, c')
  {
    var r, last := s.rules[c.rec.regime], c'.events[|c.events|];
    assert c'.events == c.events + [last];
    if RefundIsDue(r, c'.rec.state) {
      OnlyRefundsOpenTheWay(r, c.rec.Lifecycle(), e);
      if e == IssueRefund {
        assert RefundedAt(c'.events, |c.events|);
        ARefundIsPosted(r, input);
      } else {
        RefundStays(c.events, last);
        NothingIsPosted(r, c.rec.Lifecycle(), e, input);
      }
    }
  }

  /** Into a state that asks for a refund leads a refund, from a state without one, or a step from such a state. */
  lemma OnlyRefundsOpenTheWay(r: Rules, d: Dispute, e: Event)
    requires Advance(r, d, e).Ok? && RefundIsDue(r, Advance(r, d, e).value.state)
    ensures e != Appeal
    ensures e == IssueRefund ==> BeforeCredit(d.state) && IsRefundState(Advance(r, d, e).value.state)
    ensures e != IssueRefund ==> RefundIsDue(r, d.state)
  {
  }

  lemma ARefundIsPosted(r: Rules, input: PostingInput)
    requires IsRefundState(input.entered) && (input.disputed > 0.0 ==> input.liability < input.disputed)
    ensures input.disputed > 0.0 ==> |Postings(r, input)| == 1
  {
  }

  lemma NothingIsPosted(r: Rules, d: Dispute, e: Event, input: PostingInput)
    requires Advance(r, d, e).Ok? && input.entered == Advance(r, d, e).value.state && e != IssueRefund
    ensures Holding(r, input.entered) ==> Holding(r, d.state) || !RefundIsDue(r, d.state)
    ensures Holding(r, input.entered) ==> Postings(r, input) == []
  {
  }

  lemma {:induction false} EveryRunIsRemedied(s: Setup, actions: seq<Action>, id: Id)
    requires WellFormedTable(s.rules) && id in Run(s, EMPTY_WORLD, actions).cases
    ensures Remedied(s, Run(s, EMPTY_WORLD, actions).cases[id])
  {
    var before := actions[..|actions| - 1];
    EveryRunIsSound(s, before);
    if id in Run(s, EMPTY_WORLD, before).cases {
      EveryRunIsRemedied(s, before, id);
    }
    ActKeepsRemedied(s, Run(s, EMPTY_WORLD, before), actions[|actions| - 1], id);
  }

  lemma ActKeepsRemedied(s: Setup, w: World, a: Action, id: Id)
    requires id in w.cases ==> LogInv(s, w.cases[id]) && LedgerInv(s, w.cases[id]) && Remedied(s, w.cases[id])
    requires id in Act(s, w, a).cases
    ensures Remedied(s, Act(s, w, a).cases[id])
  {
    if id in w.cases && a.On? && a.id == id {
      AttemptKeepsRemedied(s, w.cases[id], w.core, a.job, a.env);
    }
  }

  /**
   * After every run: a dispute with a chargeback under way, under a row with a refund, was refunded in this cycle; and
   * from the refund on, a positive claim has its credit in suspense, within the cap of the whole claim, until the
   * chargeback is won, or lost where nothing is taken back, or the dispute closes.
   */
  lemma MadeWholeBeforeTheMerchantIsPursued(s: Setup, actions: seq<Action>, id: Id)
    requires WellFormedTable(s.rules) && id in Run(s, EMPTY_WORLD, actions).cases
    ensures var c := Run(s, EMPTY_WORLD, actions).cases[id];
            c.rec.regime in s.rules && MadeWhole(s.rules[c.rec.regime], c)
  {
    EveryRunIsSound(s, actions);
    EveryRunIsRemedied(s, actions, id);
    SuspenseIsTheCredit(s, Run(s, EMPTY_WORLD, actions).cases[id]);
  }

  ghost predicate MadeWhole(r: Rules, c: Case) {
    && (IsRefundState(c.rec.state) || (r.refund != NoRefund && IsPursuit(c.rec.state)) ==> RefundedThisCycle(c.events))
    && (IsCredited(r, c.rec.state) && c.rec.disputedAmount > 0.0 ==>
          var suspense := SuspenseBalance(PostingsOf(c.ledger));
          && suspense == CurrentCredit(c) > 0.0
          && c.rec.disputedAmount - r.Cap() <= suspense <= c.rec.disputedAmount)
  }

  /** The customer has been credited and the credit is not yet settled. */
  predicate IsCredited(r: Rules, s: State) {
    || IsRefundState(s)
    || (r.refund != NoRefund && s in {ChargebackFiled, ChargebackAcknowledged, EvidenceSubmitted})
    || (r.refund == ProvisionalCredit && s == ChargebackLost)
  }

  lemma SuspenseIsTheCredit(s: Setup, c: Case)
    requires LedgerInv(s, c) && Remedied(s, c)
    ensures MadeWhole(s.rules[c.rec.regime], c)
  {
    var r, ps := s.rules[c.rec.regime], PostingsOf(c.ledger);
    if IsCredited(r, c.rec.state) && c.rec.disputedAmount > 0.0 {
      SuspenseFollowsState(s, c);
      PairedSuspense(ps, c.rec.disputedAmount, r.Cap());
      assert IsCreditOf(ps[|ps| - 1], c.rec.disputedAmount, r.Cap());
    }
  }
}
