/** Why each row of a dispute is as it is: the log explains every ledger entry and every clock. */
module Causes {
  import opened Prelude
  import opened Regimes
  import opened Lifecycle
  import opened Deadlines
  import opened Ledger
  import opened BankingCore
  import opened Cases
  import opened Logs
  import opened LedgerRuns
  import opened ClockRuns

  // ---------------------------------------------------------------------------------------------------
  // Ledger entries

  /** The liability an analyst stated, none if nothing was. */
  function Stated(p: Payload): real {
    if p.Facts? && p.liability.Some? && p.liability.value.Parsed? then p.liability.value.amount else 0.0
  }

  ghost predicate Moves(p: Posting, debit: Account, credit: Account) { p.debit == debit && p.credit == credit }

  /** A refund of the row's own kind, for what was disputed less the stated liability. */
  ghost predicate Refunds(r: Rules, disputed: real, e: EventRecord, p: Posting, path: RefundPath) {
    && e.kind == Lifecycled(IssueRefund) && r.refund == path
    && Moves(p, Suspense, Customer) && p.amount == disputed - Stated(e.payload)
  }

  /** A text asks for a settlement by its name; a row's default is asked for by saying nothing. */
  predicate AsksFor(r: Rules, text: string, how: SuspenseSettlement) {
    match how
    case Recovered => text == "RECOVERED" || (text == "" && r.closeSettlement == Recovered)
    case WrittenOff => text == "WRITTEN_OFF" || (text == "" && r.closeSettlement == WrittenOff)
  }

  /** A closing whose payload, or the row's default, settles suspense this way. */
  ghost predicate ClosesWith(r: Rules, e: EventRecord, how: SuspenseSettlement) {
    e.kind == Lifecycled(Close) && e.payload.Facts? && AsksFor(r, e.payload.settlement, how)
  }

  /** The event that can have caused a posting of a kind, and the accounts such a posting moves between. */
  ghost predicate Explains(r: Rules, disputed: real, e: EventRecord, p: Posting) {
    match p.kind
    case ProvisionalCreditPosting => Refunds(r, disputed, e, p, ProvisionalCredit)
    case FastRefundPosting => Refunds(r, disputed, e, p, FastRefund)
    case NqaRefundPosting => Refunds(r, disputed, e, p, NoQuestionsAsked)
    case ProvisionalCreditReversal => Moves(p, Customer, Suspense) && e.kind == Lifecycled(ReverseProvisionalCredit)
    case RecoveryPosting =>
      Moves(p, Recovery, Suspense) && (e.kind == Lifecycled(WinChargeback) || ClosesWith(r, e, Recovered))
    case WriteOff =>
      && Moves(p, Loss, Suspense)
      && ((e.kind == Lifecycled(LoseChargeback) && !r.HasProvisionalCredit()) || ClosesWith(r, e, WrittenOff))
  }

  /** Each entry was posted when its event happened, in the dispute's currency, and the event explains it. */
  ghost predicate LedgerExplained(r: Rules, c: Case) {
    forall e | e in c.ledger ::
      && 1 <= e.event <= |c.events| && Explains(r, c.rec.disputedAmount, c.events[e.event - 1], e.posting)
      && e.postedAt == c.events[e.event - 1].at && e.posting.currency == c.rec.currency
  }

  // ---------------------------------------------------------------------------------------------------
  // Clocks

  predicate IsCreditState(s: State) {
    s in {ProvisionalCreditIssued, FastRefundIssued, SepaNqaRefundIssued, FinalCreditIssued}
  }

  predicate Settles(e: EventRecord) { e.kind.Lifecycled? && (IsCreditState(e.target) || e.target == Closed) }

  /** The first event that credited the customer or closed the dispute. */
  function FirstSettlement(events: seq<EventRecord>): Option<EventRecord> {
    if events == [] then None
    else
      var before, e := FirstSettlement(events[..|events| - 1]), events[|events| - 1];
      if before.Some? then before
      else if Settles(e) then Some(e)
      else None
  }

  /** When the dispute was closed, each time. */
  function Closings(events: seq<EventRecord>): seq<int> {
    if events == [] then []
    else
      var e := events[|events| - 1];
      Closings(events[..|events| - 1]) + if e.kind == Lifecycled(Close) then [e.at] else []
  }

  /** A refund clock stopped at the first settlement: met by a credit, void if the dispute closed without one. */
  ghost predicate RefundClockExplained(d: Deadline, events: seq<EventRecord>) {
    match FirstSettlement(events)
    case None => d.Open()
    case Some(e) =>
      if e.target == Closed then d.metAt == None && d.voidedAt == Some(e.at)
      else d.metAt == Some(e.at) && d.voidedAt == None
  }

  /** The resolution clock of a cycle was met when that cycle was closed. */
  ghost predicate ResolutionClockExplained(d: Deadline, closings: seq<int>) {
    d.voidedAt == None && d.metAt == if d.cycle < |closings| then Some(closings[d.cycle]) else None
  }

  ghost predicate ClockExplained(d: Deadline, events: seq<EventRecord>) {
    && (d.kind == RefundClock ==> RefundClockExplained(d, events))
    && (d.kind == ResolutionClock ==> ResolutionClockExplained(d, Closings(events)))
  }

  ghost predicate ClocksExplained(c: Case) {
    && |Closings(c.events)| == c.rec.appeals + (if c.rec.state == Closed then 1 else 0)
    && forall d | d in c.deadlines :: ClockExplained(d, c.events)
  }

  ghost predicate CauseInv(s: Setup, c: Case) {
    c.rec.regime in s.rules && LedgerExplained(s.rules[c.rec.regime], c) && ClocksExplained(c)
  }

  // ---------------------------------------------------------------------------------------------------
  // Preservation

  lemma OpeningEstablishesCauses(s: Setup, input: OpenInput, env: Env)
    requires Open(s, input, env).Ok?
    ensures CauseInv(s, Open(s, input, env).value)
  {
    var c := Open(s, input, env).value;
    assert c.events[..|c.events| - 1] == [];
    assert Closings([]) + [] == [] && FirstSettlement([]) == None;
  }

  lemma AttemptKeepsCauses(s: Setup, c: Case, core: CoreState, job: Job, env: Env)
    requires LogInv(s, c) && LedgerInv(s, c) && ClockInv(s, c) && CauseInv(s, c)
    ensures CauseInv(s, Attempt(s, c, core, job, env).after)
  {
    var o := Attempt(s, c, core, job, env);
    if o.after != c {
      AttemptAppends(s, c, core, job, env);
      match job
      case Dispatch(req) => CommitKeepsCauses(s, c, core, req, env);
      case Move(_) => MoveKeepsCauses(s, c, o.after);
    }
  }

  lemma MoveKeepsCauses(s: Setup, c: Case, c': Case)
    requires CauseInv(s, c) && Extends(c, c') && c'.events[|c.events|].kind == Reassigned
    requires c'.ledger == c.ledger && c'.deadlines == c.deadlines && c'.rec.Lifecycle() == c.rec.Lifecycle()
    ensures CauseInv(s, c')
  {
    assert FirstSettlement(c'.events) == FirstSettlement(c.events) && Closings(c'.events) == Closings(c.events);
    forall e | e in c.ledger ensures c'.events[e.event - 1] == c.events[e.event - 1] {
      assert c'.events[..|c.events|] == c.events;
    }
  }

  lemma CommitKeepsCauses(s: Setup, c: Case, core: CoreState, req: Request, env: Env)
    requires LogInv(s, c) && LedgerInv(s, c) && ClockInv(s, c) && CauseInv(s, c)
    requires CommitEvent(s, c, c, core, req, env).result.Pass?
    requires Extends(c, CommitEvent(s, c, c, core, req, env).after)
    ensures CauseInv(s, CommitEvent(s, c, c, core, req, env).after)
  {
    var c' := CommitEvent(s, c, c, core, req, env).after;
    EntryIsTheEvent(s, c, core, req, env);
    var input := LedgerEffect(s, c, core, req, env);
    LedgerStaysExplained(s.rules[c.rec.regime], c, c', req, input);
    var next := ClockEffect(s, c, core, req, env);
    ClocksStayExplained(s.rules[c.rec.regime], c, c', req.event, env);
  }

  /** The entry an accepted event leaves in the log. */
  lemma EntryIsTheEvent(s: Setup, c: Case, core: CoreState, req: Request, env: Env)
    requires CommitEvent(s, c, c, core, req, env).result.Pass?
    ensures var c' := CommitEvent(s, c, c, core, req, env).after;
            && c'.events == c.events + [EventRecord(c.rec.version + 1, Lifecycled(req.event), Some(c.rec.state), c'.rec.state,
                                                    req.payload, env.who.id, env.now)]
            && c'.rec.updatedAt == env.now
            && c.rec.regime in s.rules
            && Advance(s.rules[c.rec.regime], c.rec.Lifecycle(), req.event) == Ok(c'.rec.Lifecycle())
  {
    CommittedEvent(s, c, core, req, env);
  }

  lemma LedgerStaysExplained(r: Rules, c: Case, c': Case, req: Request, input: PostingInput)
    requires LedgerExplained(r, c)
    requires c'.rec.disputedAmount == c.rec.disputedAmount && c'.rec.currency == c.rec.currency
    requires |c'.events| > |c.events| && c'.events[|c.events|].at == c'.rec.updatedAt
    requires |c'.events| == |c.events| + 1 == c'.rec.version && c'.events[..|c.events|] == c.events
    requires c'.events[|c.events|].kind == Lifecycled(req.event) && c'.events[|c.events|].payload == req.payload
    requires Advance(r, c.rec.Lifecycle(), req.event) == Ok(c'.rec.Lifecycle())
    requires Input(r, c, c'.rec.state, req.payload) == Ok(input) && LedgerGrows(r, c, c', input)
    ensures LedgerExplained(r, c')
  {
    forall e | e in c.ledger ensures c'.events[e.event - 1] == c.events[e.event - 1] {
      assert c'.events[..|c.events|][e.event - 1] == c.events[e.event - 1];
    }
    if c'.ledger != c.ledger {
      PostingIsExplained(r, c, c'.rec.state, c'.events[|c.events|], req, input);
    }
  }

  lemma PostingIsExplained(r: Rules, c: Case, entered: State, e: EventRecord, req: Request, input: PostingInput)
    requires e.kind == Lifecycled(req.event) && e.payload == req.payload
    requires Advance(r, c.rec.Lifecycle(), req.event).Ok?
    requires Advance(r, c.rec.Lifecycle(), req.event).value.state == entered
    requires Input(r, c, entered, req.payload) == Ok(input) && |Postings(r, input)| == 1
    ensures Explains(r, c.rec.disputedAmount, e, Postings(r, input)[0])
    ensures Postings(r, input)[0].currency == c.rec.currency
  {
    assert input.liability == Stated(req.payload);
    if Postings(r, input)[0].kind.IsCredit() {
      RefundIsExplained(r, c.rec.Lifecycle(), req.event, input);
    }
  }

  lemma RefundIsExplained(r: Rules, d: Dispute, e: Event, input: PostingInput)
    requires Advance(r, d, e).Ok? && Advance(r, d, e).value.state == input.entered
    requires |Postings(r, input)| == 1 && Postings(r, input)[0].kind.IsCredit()
    ensures e == IssueRefund
    ensures var p := Postings(r, input)[0];
            && p.debit == Suspense && p.credit == Customer && p.amount == input.disputed - input.liability
            && (p.kind == ProvisionalCreditPosting ==> r.refund == ProvisionalCredit)
            && (p.kind == FastRefundPosting ==> r.refund == FastRefund)
            && (p.kind == NqaRefundPosting ==> r.refund == NoQuestionsAsked)
  {
  }

  lemma ClocksStayExplained(r: Rules, c: Case, c': Case, e: Event, env: Env)
    requires ClocksExplained(c) && forall d | d in c.deadlines :: Stands(d, c.rec.state, c.rec.appeals)
    requires c'.events != [] && c'.events[..|c'.events| - 1] == c.events
    requires var entry := c'.events[|c'.events| - 1];
             entry.kind == Lifecycled(e) && entry.at == env.now && entry.target == c'.rec.state
    requires Advance(r, c.rec.Lifecycle(), e) == Ok(c'.rec.Lifecycle())
    requires c'.deadlines == Clocked(r, c.deadlines, c.rec.appeals, c'.rec.Lifecycle(), env)
    ensures ClocksExplained(c')
  {
    OnlyCloseCloses(r, c.rec.Lifecycle(), e);
    forall d' | d' in c'.deadlines ensures ClockExplained(d', c'.events) {
      var i :| 0 <= i < |c'.deadlines| && c'.deadlines[i] == d';
      if i < |c.deadlines| {
        assert c.deadlines[i] in c.deadlines;
        SettlementExplains(c.deadlines[i], c, c', e, env);
      }
    }
  }

  lemma OnlyCloseCloses(r: Rules, d: Dispute, e: Event)
    requires Advance(r, d, e).Ok?
    ensures var d' := Advance(r, d, e).value;
            && (d'.state == Closed <==> e == Close) && (d.state == Closed <==> e == Appeal)
            && d'.appeals == d.appeals + if e == Appeal then 1 else 0
  {
  }

  lemma SettlementExplains(d: Deadline, c: Case, c': Case, e: Event, env: Env)
    requires |Closings(c.events)| == c.rec.appeals + (if c.rec.state == Closed then 1 else 0)
    requires ClockExplained(d, c.events) && Stands(d, c.rec.state, c.rec.appeals)
    requires c'.events != [] && c'.events[..|c'.events| - 1] == c.events
    requires var entry := c'.events[|c'.events| - 1];
             entry.kind == Lifecycled(e) && entry.at == env.now && entry.target == c'.rec.state
    requires c'.rec.state == Closed <==> e == Close
    requires e == Close ==> c.rec.state != Closed
    ensures ClockExplained(SettleOne(d, c'.rec.state, env.now), c'.events)
  {
  }

  // ---------------------------------------------------------------------------------------------------
  // What the invariant says

  /** The event can have put a loss on the bank's books. */
  ghost predicate MayLose(r: Rules, e: EventRecord) {
    (e.kind == Lifecycled(LoseChargeback) && !r.HasProvisionalCredit()) || ClosesWith(r, e, WrittenOff)
  }

  /** The bank bears a loss only after a chargeback lost without provisional credit, or a closing that writes off. */
  lemma ALossHasACause(s: Setup, c: Case)
    requires CauseInv(s, c) && Net(Loss, PostingsOf(c.ledger)) != 0.0
    ensures exists e :: e in c.events && MayLose(s.rules[c.rec.regime], e)
  {
    var ps, r := PostingsOf(c.ledger), s.rules[c.rec.regime];
    var i := TouchedSomewhere(Loss, ps);
    var entry := c.ledger[i];
    assert entry in c.ledger && Explains(r, c.rec.disputedAmount, c.events[entry.event - 1], entry.posting);
    assert c.events[entry.event - 1] in c.events;
  }

  lemma {:induction false} TouchedSomewhere(a: Account, ps: seq<Posting>) returns (i: nat)
    requires Net(a, ps) != 0.0
    ensures i < |ps| && (ps[i].debit == a || ps[i].credit == a)
  {
    i := |ps| - 1;
    if ps[i].debit != a && ps[i].credit != a {
      i := TouchedSomewhere(a, ps[..i]);
    }
  }

  /**
   * How a dispute's refund clock ended: met at its first credit, void if it closed without one and void ever after,
   * open till either.
   */
  lemma ARefundClockEndsOnce(s: Setup, c: Case, d: Deadline)
    requires CauseInv(s, c) && d in c.deadlines && d.kind == RefundClock
    ensures d.metAt.Some? <==> exists i :: CreditsFirst(c.events, i)
    ensures d.voidedAt.Some? <==> exists i :: ClosesFirst(c.events, i)
    ensures forall i | CreditsFirst(c.events, i) :: d.metAt == Some(c.events[i].at)
    ensures forall i | ClosesFirst(c.events, i) :: d.voidedAt == Some(c.events[i].at)
  {
    assert RefundClockExplained(d, c.events);
    FirstIsFirst(c.events);
    forall i | CreditsFirst(c.events, i) || ClosesFirst(c.events, i)
      ensures FirstSettlement(c.events) == Some(c.events[i])
    {
      TheFirstIsUnique(c.events, i);
    }
  }

  /** The entry that credited the customer with nothing before it having credited or closed. */
  ghost predicate CreditsFirst(events: seq<EventRecord>, i: int) {
    && 0 <= i < |events| && Settles(events[i]) && IsCreditState(events[i].target)
    && forall j | 0 <= j < i :: !Settles(events[j])
  }

  /** The entry that closed the dispute with nothing before it having credited or closed. */
  ghost predicate ClosesFirst(events: seq<EventRecord>, i: int) {
    && 0 <= i < |events| && Settles(events[i]) && events[i].target == Closed
    && forall j | 0 <= j < i :: !Settles(events[j])
  }

  ghost predicate SettlesFirst(events: seq<EventRecord>, i: int) {
    CreditsFirst(events, i) || ClosesFirst(events, i)
  }

  lemma {:induction false} FirstIsFirst(events: seq<EventRecord>)
    ensures FirstSettlement(events).None? ==> forall i | 0 <= i < |events| :: !Settles(events[i])
    ensures FirstSettlement(events).Some? ==>
              exists i :: SettlesFirst(events, i) && events[i] == FirstSettlement(events).value
  {
    if events != [] {
      var front := events[..|events| - 1];
      FirstIsFirst(front);
      assert forall i | 0 <= i < |front| :: events[i] == front[i];
      if FirstSettlement(front).Some? {
        var i :| SettlesFirst(front, i) && front[i] == FirstSettlement(front).value;
        assert SettlesFirst(events, i);
      } else if FirstSettlement(events).Some? {
        assert SettlesFirst(events, |front|);
      }
    }
  }

  lemma TheFirstIsUnique(events: seq<EventRecord>, i: int)
    requires SettlesFirst(events, i)
    ensures FirstSettlement(events) == Some(events[i])
  {
    FirstIsFirst(events);
    var j :| SettlesFirst(events, j) && events[j] == FirstSettlement(events).value;
    assert i == j;
  }
}
