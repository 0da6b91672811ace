/** Fraud holds over the whole life of a dispute. */
module ScoreRuns {
  import opened Prelude
  import opened Regimes
  import opened Lifecycle
  import opened Ledger
  import opened Risk
  import opened BankingCore
  import opened Cases
  import opened Logs
  import opened LedgerRuns

  /** The newest assessment made before an event. */
  function LatestBefore(risk: seq<RiskRecord>, event: nat): Option<RiskRecord> {
    if risk == [] then None
    else if risk[|risk| - 1].event < event then Some(risk[|risk| - 1])
    else LatestBefore(risk[..|risk| - 1], event)
  }

  function TimesReceived(events: seq<EventRecord>): nat {
    if events == [] then 0
    else TimesReceived(events[..|events| - 1])
         + if events[|events| - 1].kind == Lifecycled(ReceiveQuestionnaire) then 1 else 0
  }

  /** A credit was caused by a refund event that was not on hold, or whose hold an analyst overrode. */
  ghost predicate Justified(events: seq<EventRecord>, risk: seq<RiskRecord>, event: nat) {
    && 1 <= event <= |events|
    && events[event - 1].kind == Lifecycled(IssueRefund)
    && LatestBefore(risk, event).Some?
    && (LatestBefore(risk, event).value.assessment.tier == High ==>
          events[event - 1].payload.Facts? && !Blank(events[event - 1].payload.riskOverride))
  }

  ghost predicate ScoreInv(c: Case) {
    && c.rec.version == |c.events|
    && |c.risk| == 1 + TimesReceived(c.events)
    && (forall i | 0 <= i < |c.risk| :: 1 <= c.risk[i].event <= c.rec.version)
    && (forall i | 0 <= i < |c.risk| :: c.risk[i].assessment.tier == TierOf(c.risk[i].assessment.score))
    && (forall e | e in c.ledger && e.posting.kind.IsCredit() :: Justified(c.events, c.risk, e.event))
  }

  lemma OpeningEstablishesScore(s: Setup, input: OpenInput, env: Env)
    requires Open(s, input, env).Ok?
    ensures ScoreInv(Open(s, input, env).value)
  {
    var c := Open(s, input, env).value;
    assert c.events[..0] == [];
  }

  lemma AttemptKeepsScore(s: Setup, c: Case, core: CoreState, job: Job, env: Env)
    requires LogInv(s, c) && ScoreInv(c)
    ensures ScoreInv(Attempt(s, c, core, job, env).after)
  {
    var o := Attempt(s, c, core, job, env);
    if o.after != c {
      AttemptAppends(s, c, core, job, env);
      match job
      case Dispatch(req) => CommitKeepsScore(s, c, core, req, env);
      case Move(_) => MoveKeepsScore(c, o.after);
    }
  }

  lemma CommitKeepsScore(s: Setup, c: Case, core: CoreState, req: Request, env: Env)
    requires LogInv(s, c) && ScoreInv(c) && CommitEvent(s, c, c, core, req, env).result.Pass?
    requires Extends(c, CommitEvent(s, c, c, core, req, env).after)
    ensures ScoreInv(CommitEvent(s, c, c, core, req, env).after)
  {
    EventScores(s, c, core, req, env);
    var input := LedgerEffect(s, c, core, req, env);
    EventKeepsScore(s, c, CommitEvent(s, c, c, core, req, env).after, req, env, input);
  }

  lemma MoveKeepsScore(c: Case, c': Case)
    requires ScoreInv(c) && Extends(c, c') && c'.ledger == c.ledger && c'.risk == c.risk
    requires c'.events[|c.events|].kind == Reassigned
    ensures ScoreInv(c')
  {
    OldCreditsStayJustified(c, c');
  }

  /** What an accepted event does to the assessments: one more exactly when a questionnaire was received. */
  ghost predicate Scores(c: Case, c': Case, e: Event, now: int) {
    if e == ReceiveQuestionnaire then
      exists x :: c'.risk == c.risk + [RiskRecord(c'.rec.version, Assess(x), now)]
    else c'.risk == c.risk
  }

  lemma EventKeepsScore(s: Setup, c: Case, c': Case, req: Request, env: Env, input: PostingInput)
    requires LogInv(s, c) && ScoreInv(c) && Extends(c, c') && c.rec.regime in s.rules
    requires Advance(s.rules[c.rec.regime], c.rec.Lifecycle(), req.event) == Ok(c'.rec.Lifecycle())
    requires c'.events[|c.events|].kind == Lifecycled(req.event) && c'.events[|c.events|].payload == req.payload
    requires req.event == IssueRefund ==> HoldCheck(c.risk, req.payload).Pass?
    requires input.entered == c'.rec.state
    requires Scores(c, c', req.event, env.now) && LedgerGrows(s.rules[c.rec.regime], c, c', input)
    ensures ScoreInv(c')
  {
    assert c'.risk[..|c.risk|] == c.risk;
    OldCreditsStayJustified(c, c');
    if |c'.ledger| > |c.ledger| {
      NewCreditIsJustified(s, c, c', req, input, c'.ledger[|c.ledger|]);
    }
  }

  lemma EventScores(s: Setup, c: Case, core: CoreState, req: Request, env: Env)
    requires CommitEvent(s, c, c, core, req, env).result.Pass?
    ensures var c' := CommitEvent(s, c, c, core, req, env).after;
            && Scores(c, c', req.event, env.now)
            && (req.event == IssueRefund ==> HoldCheck(c.risk, req.payload).Pass?)
            && c'.events[|c'.events| - 1].payload == req.payload
            && c'.events[|c'.events| - 1].kind == Lifecycled(req.event)
            && c.rec.regime in s.rules
            && Advance(s.rules[c.rec.regime], c.rec.Lifecycle(), req.event) == Ok(c'.rec.Lifecycle())
  {
  }

  lemma OldCreditsStayJustified(c: Case, c': Case)
    requires ScoreInv(c)
    requires |c'.events| == |c.events| + 1 && c'.events[..|c.events|] == c.events
    requires c'.risk == c.risk
          || (|c'.risk| == |c.risk| + 1 && c'.risk[..|c.risk|] == c.risk && c'.risk[|c.risk|].event == |c'.events|)
    ensures forall e | e in c.ledger && e.posting.kind.IsCredit() :: Justified(c'.events, c'.risk, e.event)
  {
    forall e | e in c.ledger && e.posting.kind.IsCredit() ensures Justified(c'.events, c'.risk, e.event) {
      assert Justified(c.events, c.risk, e.event);
      assert c'.events[e.event - 1] == c.events[e.event - 1];
    }
  }

  lemma OnlyRefundsCredit(r: Rules, d: Dispute, e: Event, input: PostingInput, p: Posting)
    requires Advance(r, d, e).Ok? && input.entered == Advance(r, d, e).value.state
    requires Postings(r, input) == [p] && p.kind.IsCredit()
    ensures e == IssueRefund
  {
  }

  lemma NewCreditIsJustified(s: Setup, c: Case, c': Case, req: Request, input: PostingInput, entry: LedgerEntry)
    requires LogInv(s, c) && ScoreInv(c) && c.rec.regime in s.rules
    requires Advance(s.rules[c.rec.regime], c.rec.Lifecycle(), req.event).Ok?
    requires input.entered == Advance(s.rules[c.rec.regime], c.rec.Lifecycle(), req.event).value.state
    requires Postings(s.rules[c.rec.regime], input) == [entry.posting]
    requires |c'.events| == |c.events| + 1 == entry.event && c'.events[|c.events|].kind == Lifecycled(req.event)
    requires c'.events[|c.events|].payload == req.payload
    requires req.event == IssueRefund ==> c'.risk == c.risk && HoldCheck(c.risk, req.payload).Pass?
    ensures entry.posting.kind.IsCredit() ==> Justified(c'.events, c'.risk, entry.event)
  {
    if entry.posting.kind.IsCredit() {
      OnlyRefundsCredit(s.rules[c.rec.regime], c.rec.Lifecycle(), req.event, input, entry.posting);
      assert LatestBefore(c.risk, entry.event) == Some(c.risk[|c.risk| - 1]);
    }
  }

  // ---------------------------------------------------------------------------------------------------
  // What is assessed

  /** The dispute and its account as they are, before any answers. */
  function Unanswered(disputed: real, h: History): RiskInput {
    RiskInput(h.disputes, h.lost, h.transactionAgeDays, h.highRiskMerchant, disputed, h.accountAgeDays, 0, false)
  }

  /** A new dispute is assessed on what is known of it. */
  lemma AnOpeningIsAssessed(s: Setup, input: OpenInput, env: Env)
    requires Open(s, input, env).Ok?
    ensures Open(s, input, env).value.risk == [RiskRecord(1, Assess(Unanswered(input.amount, env.history)), env.now)]
  {
  }

  /** Received answers are assessed again: one contradiction adds 15 to what would be scored without them, more add 25. */
  lemma AnswersAreAssessed(s: Setup, c: Case, core: CoreState, payload: Payload, env: Env)
    requires Attempt(s, c, core, Dispatch(Request(ReceiveQuestionnaire, payload)), env).result.Pass?
    ensures payload.Facts?
    ensures var c' := Attempt(s, c, core, Dispatch(Request(ReceiveQuestionnaire, payload)), env).after;
            && |c'.risk| == |c.risk| + 1 && c'.risk[..|c.risk|] == c.risk
            && c'.risk[|c.risk|].event == c'.rec.version && c'.risk[|c.risk|].at == env.now
            && c'.risk[|c.risk|].assessment.score
               == Assess(Unanswered(c.rec.disputedAmount, env.history)).score
                  + (if payload.answers.contradictions >= 2 then 25
                     else if payload.answers.contradictions == 1 then 15 else 0)
  {
    var req := Request(ReceiveQuestionnaire, payload);
    CommittedEvent(s, c, core, req, env);
    var mid := Midway(s, c, req, env);
    var x := Unanswered(c.rec.disputedAmount, env.history)
             .(questionnaireKnown := true, inconsistencies := payload.answers.contradictions);
    assert RiskOf(mid.rec, mid.questionnaire, env.history) == x;
    AnswersAdd(x);
    ContradictionsNeedAnswers(x);
  }

  lemma ContradictionsNeedAnswers(x: RiskInput)
    ensures Assess(x.(questionnaireKnown := false)).score
         == Assess(x.(questionnaireKnown := false, inconsistencies := 0)).score
  {
    assert Signals(x.(questionnaireKnown := false)) == Signals(x.(questionnaireKnown := false, inconsistencies := 0));
  }
}
