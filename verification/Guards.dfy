/** Who may do what, and when it goes through: every refusal leaves the books as they were. */
module Guards {
  import opened Prelude
  import opened Regimes
  import opened Lifecycle
  import opened BankingCore
  import opened Cases
  import opened Logs
  import opened LedgerRuns
  import opened ScoreRuns
  import opened Runs
  import opened Transfers

  // ---------------------------------------------------------------------------------------------------
  // Nothing happens unauthorised

  /** However late the record is, an attempt that is not authorised is refused and touches neither books nor core. */
  lemma NothingUnauthorised(s: Setup, seen: Case, c: Case, core: CoreState, job: Job, env: Env)
    requires !env.authorised
    ensures Execute(s, seen, c, core, job, env) == Outcome(c, core, Fail(Forbidden))
    ensures Attempt(s, c, core, job, env) == Outcome(c, core, Fail(Forbidden))
  {
  }

  /** A dispute is opened for the authorised, under a regime there is, if all that comes with it goes through. */
  lemma AnOpeningGoesThroughIff(s: Setup, input: OpenInput, env: Env)
    ensures Open(s, input, env).Ok? <==> env.authorised && input.regime in s.rules && env.restSucceeds
    ensures !env.authorised ==> Open(s, input, env) == Err(Forbidden)
    ensures Open(s, input, env).Ok? ==>
              var c := Open(s, input, env).value;
              && c.events == [EventRecord(1, Opened, None, Initiated, NO_FACTS, env.who.id, env.now)]
              && c.ledger == [] && c.questionnaire == None && c.rec.appeals == 0
  {
  }

  /** The actions of a run that the authorizer let through. */
  function Authorised(actions: seq<Action>): seq<Action> {
    if actions == [] then []
    else
      var a := actions[|actions| - 1];
      Authorised(actions[..|actions| - 1]) + if a.env.authorised then [a] else []
  }

  /** A run is what its authorised actions make of it. */
  lemma {:induction false} OnlyAuthorisedActionsMatter(s: Setup, w: World, actions: seq<Action>)
    ensures Run(s, w, actions) == Run(s, w, Authorised(actions))
  {
    if actions != [] {
      var before, a := actions[..|actions| - 1], actions[|actions| - 1];
      OnlyAuthorisedActionsMatter(s, w, before);
      if a.env.authorised {
        assert (Authorised(before) + [a])[..|Authorised(before)|] == Authorised(before);
      } else {
        UnauthorisedChangesNothing(s, Run(s, w, before), a);
        assert Authorised(before) + [] == Authorised(before);
      }
    }
  }

  lemma UnauthorisedChangesNothing(s: Setup, w: World, a: Action)
    requires !a.env.authorised
    ensures Act(s, w, a) == w
  {
    match a
    case Begin(input, env) => AnOpeningGoesThroughIff(s, input, env);
    case On(id, job, env) =>
      if id in w.cases {
        NothingUnauthorised(s, w.cases[id], w.cases[id], w.core, job, env);
      }
  }

  // ---------------------------------------------------------------------------------------------------
  // When an event goes through

  /** A refund is held back from a score of 45 on, unless the payload gives a reason that is not all blank. */
  ghost predicate Held(risk: seq<RiskRecord>, p: Payload)
    requires p.Facts?
  {
    risk != [] && risk[|risk| - 1].assessment.score >= 45 && forall ch | ch in p.riskOverride :: ch in " \t\n\r"
  }

  /** An unanswered questionnaire takes one set of acceptable answers. */
  predicate CanBeAnswered(q: Option<Questionnaire>, answers: Answers) {
    answers.valid && q.Some? && q.value.received.None?
  }

  /** Everything that is asked of an event before any money moves. */
  ghost predicate Proceeds(s: Setup, c: Case, req: Request, env: Env) {
    && env.authorised && c.rec.regime in s.rules
    && Accepts(s.rules[c.rec.regime], c.rec.Lifecycle(), req.event)
    && AcceptableSettlement(req.payload)
    && AcceptableLiability(s.rules[c.rec.regime], c.rec.disputedAmount, req.payload)
    && (req.event == IssueRefund ==> !Held(c.risk, req.payload))
    && (req.event == ReceiveQuestionnaire ==> CanBeAnswered(c.questionnaire, req.payload.answers))
  }

  /** The event is decided and recorded, and the facts are in order. */
  ghost predicate Recorded(s: Setup, c: Case, req: Request, env: Env) {
    && Decide(s, c, req, env).Ok? && c.rec.regime in s.rules
    && Record(s.rules[c.rec.regime], c, c, Decide(s, c, req, env).value, req, env).Ok?
    && var mid := Midway(s, c, req, env); Input(s.rules[c.rec.regime], mid, mid.rec.state, req.payload).Ok?
  }

  lemma DecidedIff(s: Setup, c: Case, req: Request, env: Env)
    requires ScoreInv(c) && req.payload.Facts?
    ensures Decide(s, c, req, env).Ok?
       <==> && env.authorised && c.rec.regime in s.rules
            && Accepts(s.rules[c.rec.regime], c.rec.Lifecycle(), req.event)
            && (req.event == IssueRefund ==> !Held(c.risk, req.payload))
    ensures Decide(s, c, req, env).Ok? ==>
              Advance(s.rules[c.rec.regime], c.rec.Lifecycle(), req.event) == Decide(s, c, req, env)
  {
    EachEventLeadsToOneState(s.rules, c.rec.Lifecycle(), req.event);
    HeldIffTheCheckFails(c, req.payload);
  }

  lemma HeldIffTheCheckFails(c: Case, p: Payload)
    requires ScoreInv(c) && p.Facts?
    ensures Held(c.risk, p) <==> HoldCheck(c.risk, p).Fail?
  {
    assert Blank(p.riskOverride) <==> forall ch | ch in p.riskOverride :: ch in " \t\n\r";
  }

  lemma RecordedIff(r: Rules, c: Case, next: Dispute, req: Request, env: Env)
    requires WellLinked(c.events) && c.rec.version == |c.events| && req.payload.Facts?
    ensures Record(r, c, c, next, req, env).Ok?
       <==> (req.event == ReceiveQuestionnaire ==> CanBeAnswered(c.questionnaire, req.payload.answers))
    ensures Record(r, c, c, next, req, env).Ok? ==>
              var mid := Record(r, c, c, next, req, env).value;
              mid.rec == c.rec.(state := mid.rec.state, appeals := mid.rec.appeals, version := c.rec.version + 1,
                                updatedAt := mid.rec.updatedAt)
              && mid.rec.state == next.state && mid.rec.appeals == next.appeals && mid.ledger == c.ledger
  {
    assert !NumberTaken(c.events, c.rec.version + 1);
  }

  lemma RecordedIffItProceeds(s: Setup, c: Case, req: Request, env: Env)
    requires LogInv(s, c) && ScoreInv(c)
    ensures Recorded(s, c, req, env) <==> Proceeds(s, c, req, env)
    ensures Recorded(s, c, req, env) ==>
              CausedInstruction(s.rules[c.rec.regime], Midway(s, c, req, env), req.payload)
                == InstructionOf(s.rules[c.rec.regime], c, req)
  {
    if req.payload.Facts? {
      DecidedIff(s, c, req, env);
      if Decide(s, c, req, env).Ok? {
        var r, next := s.rules[c.rec.regime], Decide(s, c, req, env).value;
        RecordedIff(r, c, next, req, env);
        if Record(r, c, c, next, req, env).Ok? {
          CausedIsWhatIsAsked(r, c, Record(r, c, c, next, req, env).value, req);
        }
      }
    }
  }

  /** The core is sent an instruction exactly when the event proceeds and asks for one, and then that one. */
  lemma TheCoreIsSent(s: Setup, c: Case, req: Request, env: Env)
    requires LogInv(s, c) && ScoreInv(c)
    ensures Sent(s, c, Dispatch(req), env)
         == if Proceeds(s, c, req, env) then InstructionOf(s.rules[c.rec.regime], c, req) else None
  {
    RecordedIffItProceeds(s, c, req, env);
  }

  /** The core lets an instruction through: a new one within its limits, or one whose number it has approved before. */
  ghost predicate Approves(rrn: Numbering, core: CoreState, cfg: CoreConfig, ins: Instruction) {
    match cfg
    case BookOnly => true
    case Unroutable => false
    case Connected(settings) =>
      && settings.answers
      && ((exists m :: m in core.moved && rrn(m.reference) == rrn(ins.reference))
          || (if ins.credit then settings.declineAbove.None? || ins.amount <= settings.declineAbove.value
              else ins.account !in settings.insufficientFunds))
  }

  lemma ApprovesIffItAnswersSo(rrn: Numbering, core: CoreState, cfg: CoreConfig, ins: Instruction)
    requires Sound(rrn, core)
    ensures Approves(rrn, core, cfg, ins)
       <==> Instruct(rrn, core, cfg, ins).1.Ok? && Instruct(rrn, core, cfg, ins).1.value.approved
  {
    var key := rrn(ins.reference);
    if key in core.seen {
      var i :| 0 <= i < |core.moved| && rrn(core.moved[i].reference) == key;
      assert core.moved[i] in core.moved;
    } else {
      forall m | m in core.moved ensures rrn(m.reference) != key {
        var i :| 0 <= i < |core.moved| && core.moved[i] == m;
      }
    }
  }

  /**
   * When an event commits, on any dispute a run can reach: it proceeds, the core approves what it is asked, and what
   * follows the money goes through. Otherwise the dispute is as it was.
   */
  lemma AnEventCommitsIff(s: Setup, c: Case, core: CoreState, req: Request, env: Env)
    requires CaseInv(s, c) && Sound(s.rrn, core)
    ensures Attempt(s, c, core, Dispatch(req), env).result.Pass?
       <==> && Proceeds(s, c, req, env) && env.restSucceeds
            && var ins := InstructionOf(s.rules[c.rec.regime], c, req);
               ins.Some? ==> Approves(s.rrn, core, env.core, ins.value)
    ensures Attempt(s, c, core, Dispatch(req), env).result.Fail? ==> Attempt(s, c, core, Dispatch(req), env).after == c
  {
    RecordedIffItProceeds(s, c, req, env);
    if Recorded(s, c, req, env) {
      var r, mid := s.rules[c.rec.regime], Midway(s, c, req, env);
      PostedIffApproved(s, r, mid, core, req.payload, env);
    }
  }

  /** Which refusal is the core's: a silence or a missing core reads as unavailable, a refused movement as a decline. */
  lemma ADeclineReadsAsOne(s: Setup, c: Case, core: CoreState, req: Request, env: Env)
    requires CaseInv(s, c) && Sound(s.rrn, core) && Proceeds(s, c, req, env)
    requires InstructionOf(s.rules[c.rec.regime], c, req).Some?
    requires !Approves(s.rrn, core, env.core, InstructionOf(s.rules[c.rec.regime], c, req).value)
    ensures Attempt(s, c, core, Dispatch(req), env).result == Fail(WhyNot(env.core))
    ensures Attempt(s, c, core, Dispatch(req), env).core.moved == core.moved
  {
    RecordedIffItProceeds(s, c, req, env);
    PostingSaysWhyNot(s, s.rules[c.rec.regime], Midway(s, c, req, env), core, req.payload, env);
  }

  function WhyNot(cfg: CoreConfig): Error {
    if cfg.Unroutable? || (cfg.Connected? && !cfg.settings.answers) then Unavailable else CoreDeclined
  }

  lemma PostingSaysWhyNot(s: Setup, r: Rules, mid: Case, core: CoreState, p: Payload, env: Env)
    requires Sound(s.rrn, core) && Input(r, mid, mid.rec.state, p).Ok? && CausedInstruction(r, mid, p).Some?
    requires !Approves(s.rrn, core, env.core, CausedInstruction(r, mid, p).value)
    ensures PostLedger(s, r, mid, core, p, env).1 == Err(WhyNot(env.core))
    ensures PostLedger(s, r, mid, core, p, env).0.moved == core.moved
  {
    var ps := PostingOf(r, mid, p);
    assert |ps| <= 1;
    OneMovementIsBooked(s, core, mid.rec, mid.rec.version, ps, env);
    ApprovesIffItAnswersSo(s.rrn, core, env.core, CausedInstruction(r, mid, p).value);
  }

  lemma PostedIffApproved(s: Setup, r: Rules, mid: Case, core: CoreState, p: Payload, env: Env)
    requires Sound(s.rrn, core) && Input(r, mid, mid.rec.state, p).Ok?
    requires forall e | e in mid.ledger :: e.reference.event < mid.rec.version
    ensures PostLedger(s, r, mid, core, p, env).1.Ok?
       <==> var ins := CausedInstruction(r, mid, p); ins.Some? ==> Approves(s.rrn, core, env.core, ins.value)
  {
    var ps := PostingOf(r, mid, p);
    assert |ps| <= 1;
    if |ps| == 1 {
      OneMovementIsBooked(s, core, mid.rec, mid.rec.version, ps, env);
      ApprovesIffItAnswersSo(s.rrn, core, env.core, InstructionFor(mid.rec, mid.rec.version, ps[0]));
      var booked := Book(s, core, mid.rec, mid.rec.version, ps[0], env).1;
      if booked.Ok? {
        OneAppended(mid.ledger, booked.value);
      }
    }
  }

  /** A questionnaire is what was last sent, with the answers last received. */
  lemma AQuestionnaireIsAskedAndAnswered(s: Setup, c: Case, core: CoreState, req: Request, env: Env)
    requires Attempt(s, c, core, Dispatch(req), env).result.Pass?
    ensures var q := Attempt(s, c, core, Dispatch(req), env).after.questionnaire;
            match req.event
            case SendQuestionnaire => q == Some(Questionnaire(env.now, None))
            case ReceiveQuestionnaire =>
              c.questionnaire.Some? && q == Some(Questionnaire(c.questionnaire.value.sentAt, Some(req.payload.answers)))
            case _ => q == c.questionnaire
  {
    CommittedEvent(s, c, core, req, env);
  }

  /** A refund is put on hold from a score of 45 on, and only then, whatever else there is to say about it. */
  lemma ARefundIsHeldFrom45On(s: Setup, c: Case, core: CoreState, payload: Payload, env: Env)
    requires CaseInv(s, c) && payload.Facts? && env.authorised
    requires Accepts(s.rules[c.rec.regime], c.rec.Lifecycle(), IssueRefund)
    ensures Attempt(s, c, core, Dispatch(Request(IssueRefund, payload)), env).result == Fail(RiskHold)
       <==> Held(c.risk, payload)
  {
    var req := Request(IssueRefund, payload);
    DecidedIff(s, c, req, env);
    HeldIffTheCheckFails(c, payload);
    if Held(c.risk, payload) {
      EachEventLeadsToOneState(s.rules, c.rec.Lifecycle(), IssueRefund);
      assert Decide(s, c, req, env) == Err(RiskHold);
    } else {
      NothingLaterHolds(s, c, core, req, env);
    }
  }

  lemma NothingLaterHolds(s: Setup, c: Case, core: CoreState, req: Request, env: Env)
    requires Decide(s, c, req, env).Ok?
    ensures Attempt(s, c, core, Dispatch(req), env).result != Fail(RiskHold)
  {
    if c.rec.regime in s.rules && Record(s.rules[c.rec.regime], c, c, Decide(s, c, req, env).value, req, env).Ok? {
      PostingDoesNotHold(s, s.rules[c.rec.regime], Midway(s, c, req, env), core, req.payload, env);
    }
  }

  lemma PostingDoesNotHold(s: Setup, r: Rules, mid: Case, core: CoreState, p: Payload, env: Env)
    ensures PostLedger(s, r, mid, core, p, env).1 != Err(RiskHold)
  {
    if Input(r, mid, mid.rec.state, p).Ok? {
      var ps := PostingOf(r, mid, p);
      assert |ps| <= 1;
      if |ps| == 1 {
        OneMovementIsBooked(s, core, mid.rec, mid.rec.version, ps, env);
      }
    }
  }

  // ---------------------------------------------------------------------------------------------------
  // Moves

  /** A move goes through exactly for the authorised to a team of the tenant's, and then changes only whose it is. */
  lemma AMoveMovesOnly(s: Setup, c: Case, core: CoreState, team: string, env: Env)
    requires LogInv(s, c)
    ensures var o := Attempt(s, c, core, Move(team), env);
            && (o.result.Pass? <==> env.authorised && team in env.teams)
            && o.core == core
            && (o.result.Fail? || team == c.rec.team ==> o.after == c)
            && (o.result.Pass? && team != c.rec.team ==>
                  o.after == c.(rec := c.rec.(team := team, version := c.rec.version + 1, updatedAt := env.now),
                                events := c.events + [EventRecord(c.rec.version + 1, Reassigned, Some(c.rec.state),
                                                                  c.rec.state, NO_FACTS, env.who.id, env.now)]))
  {
    assert !NumberTaken(c.events, c.rec.version + 1);
  }
}
