/**
 * One dispute as the store holds it, and what each use case does to it (application/service.go, routing.go).
 * These functions are the specification the service's methods are proved against, and the steps of every run.
 */
module Cases {
  import opened Prelude
  import opened Regimes
  import opened Lifecycle
  import opened Calendars
  import opened Deadlines
  import opened Ledger
  import opened Risk
  import opened BankingCore

  // ---------------------------------------------------------------------------------------------------
  // Rows

  datatype Reason = Unauthorised | NotReceived | Duplicate | AmountDiffers

  datatype DisputeRecord = DisputeRecord(
    id: Id, tenant: nat, team: string, regime: string, reason: Reason, state: State, appeals: nat, version: nat,
    account: nat, disputedAmount: real, currency: string, openedAt: int, updatedAt: int)
  {
    function Lifecycle(): Dispute { Dispute(regime, state, appeals) }
  }

  /** A log entry is the opening, a lifecycle event, or a move between teams, which changes no state. */
  datatype LogKind = Opened | Lifecycled(event: Event) | Reassigned

  datatype EventRecord = EventRecord(
    number: nat, kind: LogKind, from: Option<State>, target: State, payload: Payload, actor: string, at: int)

  datatype LedgerEntry = LedgerEntry(
    event: nat, posting: Posting, reference: Reference, postedAt: int, core: Option<Receipt>)

  datatype RiskRecord = RiskRecord(event: nat, assessment: Assessment, at: int)

  /** A questionnaire sent and perhaps answered. */
  datatype Questionnaire = Questionnaire(sentAt: int, received: Option<Answers>)

  /** Answers as the checks on them see them: whether they are acceptable and how often they contradict each other. */
  datatype Answers = Answers(valid: bool, contradictions: nat)

  /** Everything the store keeps about one dispute. */
  datatype Case = Case(
    rec: DisputeRecord, events: seq<EventRecord>, deadlines: seq<Deadline>, ledger: seq<LedgerEntry>,
    questionnaire: Option<Questionnaire>, risk: seq<RiskRecord>)

  // ---------------------------------------------------------------------------------------------------
  // Requests and what surrounds them

  datatype LiabilityText = Unparseable | Parsed(amount: real)

  /** An event's payload: not an object, an object whose facts do not decode, or the facts an analyst supplied. */
  datatype Payload =
    | NotAnObject
    | IllTyped
    | Facts(liability: Option<LiabilityText>, settlement: string, answers: Answers, riskOverride: string)

  /** The payload of an event that carries none. */
  const NO_FACTS := Facts(None, "", Answers(true, 0), "")

  datatype Request = Request(event: Event, payload: Payload)

  /** What the account's history and the transaction say, gathered from rows this model does not hold. */
  datatype History = History(disputes: int, lost: int, transactionAgeDays: int, highRiskMerchant: bool, accountAgeDays: int)

  /** Whoever makes a request. */
  datatype Principal = Analyst(id: string) | TenantKey(id: string)

  /**
   * The circumstances of one attempt: the clock, the caller and the authorizer's answer, the tenant's calendar, teams
   * and core, and whether everything after the posting (notices, scoring, the view) goes through.
   */
  datatype Env = Env(
    now: int, who: Principal, authorised: bool, calendar: Calendar, teams: set<string>, core: CoreConfig,
    history: History, restSucceeds: bool)

  /** The regimes a deployment knows and how its references are numbered. */
  datatype Setup = Setup(rules: RulesTable, rrn: Numbering)

  /** What an attempt leaves behind: on a refusal the case is untouched, but the core may have moved money. */
  datatype Outcome = Outcome(after: Case, core: CoreState, result: Check<Error>)

  // ---------------------------------------------------------------------------------------------------
  // Opening a dispute

  datatype OpenInput = OpenInput(
    id: Id, tenant: nat, team: string, regime: string, reason: Reason, account: nat, amount: real, currency: string)

  function RiskOf(rec: DisputeRecord, q: Option<Questionnaire>, h: History): RiskInput {
    var known := q.Some? && q.value.received.Some?;
    RiskInput(h.disputes, h.lost, h.transactionAgeDays, h.highRiskMerchant, rec.disputedAmount, h.accountAgeDays,
              if known then q.value.received.value.contradictions else 0, known)
  }

  /** The clocks of a new dispute once its acknowledgement has gone out. */
  function Acknowledged(ds: seq<Deadline>, now: int): seq<Deadline> {
    StampMatching(ds, AcknowledgeClock, 0, true, now)
  }

  function Open(s: Setup, input: OpenInput, env: Env): Result<Case, Error> {
    if !env.authorised then Err(Forbidden)
    else
      var r :- RulesFor(s.rules, input.regime);
      if !env.restSucceeds then Err(Internal)
      else Ok(NewCase(r, input, env))
  }

  function NewCase(r: Rules, input: OpenInput, env: Env): Case {
    var rec := DisputeRecord(input.id, input.tenant, input.team, input.regime, input.reason, Initiated, 0, 1,
                             input.account, input.amount, input.currency, env.now, env.now);
    Case(rec,
         [EventRecord(1, Opened, None, Initiated, NO_FACTS, env.who.id, env.now)],
         Acknowledged(OpeningDeadlines(r.clocks, env.now, env.calendar), env.now),
         [],
         None,
         [RiskRecord(1, Assess(RiskOf(rec, None, env.history)), env.now)])
  }

  // ---------------------------------------------------------------------------------------------------
  // Applying an event

  predicate IsSpace(c: char) { c in {' ', '\t', '\n', '\r'} }

  /** The override with leading and trailing space removed is empty exactly when it is all space. */
  predicate Blank(s: string) { forall c | c in s :: IsSpace(c) }

  /** Refuses a credit on a HIGH-risk dispute unless the payload carries a justification. */
  function HoldCheck(risk: seq<RiskRecord>, p: Payload): Check<Error> {
    if risk == [] then Pass
    else if !p.Facts? then Fail(MalformedRequest)
    else CreditAllowed(risk[|risk| - 1].assessment, if Blank(p.riskOverride) then "" else p.riskOverride)
  }

  /** What is decided before anything is written, from the record as it was read. */
  function Decide(s: Setup, seen: Case, req: Request, env: Env): Result<Dispute, Error> {
    if !env.authorised then Err(Forbidden)
    else
      var next :- Apply(s.rules, seen.rec.Lifecycle(), req.event);
      if req.event == IssueRefund then
        :- HoldCheck(seen.risk, req.payload);
        Ok(next)
      else Ok(next)
  }

  function Questioned(q: Option<Questionnaire>, req: Request, now: int): Result<Option<Questionnaire>, Error> {
    match req.event
    case SendQuestionnaire => Ok(Some(Questionnaire(now, None)))
    case ReceiveQuestionnaire =>
      if !req.payload.Facts? then Err(MalformedRequest)
      else if q.None? then Err(NotFound)
      else if !req.payload.answers.valid then Err(InvalidAnswers)
      else if q.value.received.Some? then Err(NotFound)
      else Ok(Some(q.value.(received := Some(req.payload.answers))))
    case _ => Ok(q)
  }

  /** The clocks after entering a state, with the resolution clock an appeal restarts. */
  function Clocked(r: Rules, ds: seq<Deadline>, before: nat, next: Dispute, env: Env): seq<Deadline> {
    SettleAll(ds, next.state, env.now)
    + if next.appeals > before then AppealDeadlines(r.clocks, next.appeals, env.now, env.calendar) else []
  }

  predicate NumberTaken(events: seq<EventRecord>, number: nat) {
    exists e | e in events :: e.number == number
  }

  /** Everything written before money is touched: the record, the log, the questionnaire and the clocks. */
  function Record(r: Rules, seen: Case, c: Case, next: Dispute, req: Request, env: Env): Result<Case, Error> {
    var number := seen.rec.version + 1;
    if req.payload == NotAnObject then Err(MalformedRequest)
    else if NumberTaken(c.events, number) then Err(Conflict)
    else
      var q :- Questioned(c.questionnaire, req, env.now);
      Ok(c.(rec := c.rec.(state := next.state, appeals := next.appeals, version := number, updatedAt := env.now),
            events := c.events
                      + [EventRecord(number, Lifecycled(req.event), Some(seen.rec.state), next.state, req.payload,
                                     env.who.id, env.now)],
            questionnaire := q,
            deadlines := Clocked(r, c.deadlines, seen.rec.appeals, next, env)))
  }

  function PostingsOf(ledger: seq<LedgerEntry>): (ps: seq<Posting>)
    ensures |ps| == |ledger|
    ensures forall i | 0 <= i < |ps| :: ps[i] == ledger[i].posting
  {
    seq(|ledger|, i requires 0 <= i < |ledger| => ledger[i].posting)
  }

  /** The analyst's amounts, validated against the regime before anything is posted. */
  function Input(r: Rules, c: Case, entered: State, p: Payload): Result<PostingInput, Error> {
    if !p.Facts? then Err(MalformedRequest)
    else
      var liability :- Liability(r, c.rec.disputedAmount, p.liability);
      var settlement :- ParseSettlement(r, p.settlement);
      Ok(PostingInput(entered, c.rec.disputedAmount, c.rec.currency, liability,
                      SuspenseBalance(PostingsOf(c.ledger)), settlement))
  }

  function Liability(r: Rules, disputed: real, text: Option<LiabilityText>): Result<real, Error> {
    match text
    case None => Ok(0.0)
    case Some(Unparseable) => Err(InvalidLiability)
    case Some(Parsed(l)) =>
      var _ :- CreditAmount(r, disputed, l);
      Ok(l)
  }

  function InstructionFor(rec: DisputeRecord, number: nat, p: Posting): Instruction {
    Instruction(Reference(rec.id, number, p.kind), rec.account, p.credit == Customer, p.amount)
  }

  function EntryFor(rec: DisputeRecord, number: nat, p: Posting, now: int, receipt: Option<Receipt>): LedgerEntry {
    LedgerEntry(number, p, Reference(rec.id, number, p.kind), now, receipt)
  }

  /** One movement: on the customer's account it first goes to the core, and a decline or a silence refuses it. */
  function Book(s: Setup, core: CoreState, rec: DisputeRecord, number: nat, p: Posting, env: Env)
    : (CoreState, Result<LedgerEntry, Error>)
  {
    if p.TouchesCustomer() then
      var (core', answer) := Instruct(s.rrn, core, env.core, InstructionFor(rec, number, p));
      (core',
       if answer.Err? then Err(answer.error)
       else if !answer.value.approved then Err(CoreDeclined)
       else Ok(EntryFor(rec, number, p, env.now, Some(answer.value))))
    else (core, Ok(EntryFor(rec, number, p, env.now, None)))
  }

  function BookAll(s: Setup, core: CoreState, rec: DisputeRecord, number: nat, ps: seq<Posting>, env: Env)
    : (CoreState, Result<seq<LedgerEntry>, Error>)
  {
    if ps == [] then (core, Ok([]))
    else
      var (core1, front) := BookAll(s, core, rec, number, ps[..|ps| - 1], env);
      if front.Err? then (core1, front)
      else
        var (core2, last) := Book(s, core1, rec, number, ps[|ps| - 1], env);
        (core2, if last.Err? then Err(last.error) else Ok(front.value + [last.value]))
  }

  predicate ReferenceTaken(ledger: seq<LedgerEntry>, reference: Reference) {
    exists e | e in ledger :: e.reference == reference
  }

  /** Entries go in one at a time; the first whose reference is already there stops the append. */
  function Appended(have: seq<LedgerEntry>, entries: seq<LedgerEntry>): (seq<LedgerEntry>, bool) {
    if entries == [] then (have, true)
    else
      var (rows, ok) := Appended(have, entries[..|entries| - 1]);
      var e := entries[|entries| - 1];
      if !ok || ReferenceTaken(rows, e.reference) then (rows, false) else (rows + [e], true)
  }

  /** What is appended is a beginning of the entries, all of them exactly when no reference is taken or repeated. */
  lemma {:induction false} AppendedUpToATakenReference(have: seq<LedgerEntry>, entries: seq<LedgerEntry>) returns (k: nat)
    ensures k <= |entries| && Appended(have, entries).0 == have + entries[..k]
    ensures forall i | 0 <= i < k :: !ReferenceTaken(have + entries[..i], entries[i].reference)
    ensures Appended(have, entries).1 <==> k == |entries|
    ensures k < |entries| ==> ReferenceTaken(have + entries[..k], entries[k].reference)
  {
    if entries == [] {
      k := 0;
    } else {
      var front := entries[..|entries| - 1];
      k := AppendedUpToATakenReference(have, front);
      assert forall i | 0 <= i <= |front| :: front[..i] == entries[..i];
      if Appended(have, entries).1 {
        k := |entries|;
        assert entries[..k] == entries == front + [entries[|front|]];
      }
    }
  }

  lemma OneAppended(have: seq<LedgerEntry>, e: LedgerEntry)
    ensures Appended(have, [e]) == if ReferenceTaken(have, e.reference) then (have, false) else (have + [e], true)
  {
    assert [e][..0] == [];
    assert Appended(have, [e][..0]) == (have, true);
  }

  /** The ledger movements of the new state; only what the core approved reaches the ledger. */
  function PostLedger(s: Setup, r: Rules, c: Case, core: CoreState, p: Payload, env: Env)
    : (CoreState, Result<seq<LedgerEntry>, Error>)
  {
    var input := Input(r, c, c.rec.state, p);
    if input.Err? then (core, Err(input.error))
    else
      var (core', booked) := BookAll(s, core, c.rec, c.rec.version, Postings(r, input.value), env);
      if booked.Ok? && !Appended(c.ledger, booked.value).1 then (core', Err(Conflict)) else (core', booked)
  }

  /** The new assessment an answered questionnaire causes. */
  function Rescored(c: Case, e: Event, env: Env): seq<RiskRecord> {
    if e == ReceiveQuestionnaire then
      c.risk + [RiskRecord(c.rec.version, Assess(RiskOf(c.rec, c.questionnaire, env.history)), env.now)]
    else c.risk
  }

  /**
   * ApplyEvent inside its transaction. The record was read as seen; by the time the version is compared the store
   * may hold a later c. Nothing reaches the core before the comparison.
   */
  function CommitEvent(s: Setup, seen: Case, c: Case, core: CoreState, req: Request, env: Env): Outcome {
    var decided := Decide(s, seen, req, env);
    if decided.Err? then Outcome(c, core, Fail(decided.error))
    else if seen.rec.version != c.rec.version then Outcome(c, core, Fail(Conflict))
    else CommitFresh(s, seen, c, core, decided.value, req, env)
  }

  function CommitFresh(s: Setup, seen: Case, c: Case, core: CoreState, next: Dispute, req: Request, env: Env): Outcome {
    if seen.rec.regime !in s.rules then Outcome(c, core, Fail(UnknownRegime))
    else
      var r := s.rules[seen.rec.regime];
      var recorded := Record(r, seen, c, next, req, env);
      if recorded.Err? then Outcome(c, core, Fail(recorded.error))
      else
        var (core', settled) := Settled(s, r, recorded.value, core, req, env);
        if settled.Err? then Outcome(c, core', Fail(settled.error)) else Outcome(settled.value, core', Pass)
  }

  /** What follows the recording: the money, and then everything that can no longer involve the core. */
  function Settled(s: Setup, r: Rules, mid: Case, core: CoreState, req: Request, env: Env): (CoreState, Result<Case, Error>) {
    var (core', posted) := PostLedger(s, r, mid, core, req.payload, env);
    (core',
     if posted.Err? then Err(posted.error)
     else if !env.restSucceeds then Err(Internal)
     else Ok(mid.(ledger := mid.ledger + posted.value, risk := Rescored(mid, req.event, env))))
  }

  // ---------------------------------------------------------------------------------------------------
  // Moving a dispute between teams

  /** Reassign inside its transaction: the move is logged before it is made, and both check the version. */
  function CommitMove(seen: Case, c: Case, core: CoreState, team: string, env: Env): Outcome {
    if !env.authorised then Outcome(c, core, Fail(Forbidden))
    else if team !in env.teams then Outcome(c, core, Fail(UnknownTeam))
    else if team == seen.rec.team then Outcome(c, core, Pass)
    else if NumberTaken(c.events, seen.rec.version + 1) then Outcome(c, core, Fail(Conflict))
    else if seen.rec.version != c.rec.version then Outcome(c, core, Fail(Conflict))
    else
      Outcome(
        c.(rec := c.rec.(team := team, version := seen.rec.version + 1, updatedAt := env.now),
           events := c.events
                     + [EventRecord(seen.rec.version + 1, Reassigned, Some(seen.rec.state), seen.rec.state, NO_FACTS,
                                    env.who.id, env.now)]),
        core, Pass)
  }

  // ---------------------------------------------------------------------------------------------------
  // Attempts

  datatype Job = Dispatch(req: Request) | Move(team: string)

  function Execute(s: Setup, seen: Case, c: Case, core: CoreState, job: Job, env: Env): Outcome {
    match job
    case Dispatch(req) => CommitEvent(s, seen, c, core, req, env)
    case Move(team) => CommitMove(seen, c, core, team, env)
  }

  /** One attempt on a dispute nobody else is changing. */
  function Attempt(s: Setup, c: Case, core: CoreState, job: Job, env: Env): Outcome {
    Execute(s, c, c, core, job, env)
  }
}
