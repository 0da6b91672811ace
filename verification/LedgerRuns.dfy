/** What the ledger of a dispute looks like in every state it can reach. */
module LedgerRuns {
  import opened Prelude
  import opened Regimes
  import opened Lifecycle
  import opened Ledger
  import opened BankingCore
  import opened Cases
  import opened Logs

  /** No credit has been advanced in the current cycle yet. */
  predicate BeforeCredit(s: State) { s in {Initiated, Investigating, QuestionnaireSent, QuestionnaireReceived} }

  /** A credit of the current cycle, if there was one, is still in suspense. */
  predicate Holding(r: Rules, s: State) {
    || s in {ProvisionalCreditIssued, FastRefundIssued, SepaNqaRefundIssued}
    || s in {ChargebackFiled, ChargebackAcknowledged, EvidenceSubmitted}
    || (s == ChargebackLost && r.HasProvisionalCredit())
  }

  /** The number of the appeal that began the current cycle; zero in the first. */
  function CycleStart(events: seq<EventRecord>): nat {
    if events == [] then 0
    else if events[|events| - 1].kind == Lifecycled(Appeal) then events[|events| - 1].number
    else CycleStart(events[..|events| - 1])
  }

  /** What has been credited to the customer by events after a given one. */
  function CreditedSince(ledger: seq<LedgerEntry>, since: nat): real {
    if ledger == [] then 0.0
    else
      var e := ledger[|ledger| - 1];
      CreditedSince(ledger[..|ledger| - 1], since)
      + if e.event > since && e.posting.kind.IsCredit() then e.posting.amount else 0.0
  }

  function CurrentCredit(c: Case): real { CreditedSince(c.ledger, CycleStart(c.events)) }

  /** The first n entries were caused by events up to and including the one given. */
  ghost predicate CausedBy(ledger: seq<LedgerEntry>, n: int, event: nat) {
    n <= |ledger| && forall i | 0 <= i < n :: ledger[i].event <= event
  }

  /** How many entries there may be, and which of them belong to the current cycle. */
  ghost predicate Phase(r: Rules, state: State, appeals: nat, ledger: seq<LedgerEntry>, since: nat) {
    var n := |ledger|;
    if BeforeCredit(state) then n % 2 == 0 && n <= 2 * appeals && CausedBy(ledger, n, since)
    else if Holding(r, state) then
      && n <= 2 * appeals + 1
      && (n % 2 == 0 ==> CausedBy(ledger, n, since))
      && (n % 2 == 1 ==> CausedBy(ledger, n - 1, since) && ledger[n - 1].event > since)
    else n % 2 == 0 && n <= 2 * appeals + 2
  }

  ghost predicate Named(c: Case) {
    && (forall i | 0 <= i < |c.ledger| ::
          c.ledger[i].reference == Reference(c.rec.id, c.ledger[i].event, c.ledger[i].posting.kind))
    && (forall i | 0 <= i < |c.ledger| :: 1 < c.ledger[i].event <= c.rec.version)
    && (forall i, j | 0 <= i < j < |c.ledger| :: c.ledger[i].event < c.ledger[j].event)
  }

  ghost predicate LedgerInv(s: Setup, c: Case) {
    && c.rec.regime in s.rules
    && Named(c)
    && Paired(PostingsOf(c.ledger), c.rec.disputedAmount, s.rules[c.rec.regime].Cap())
    && Phase(s.rules[c.rec.regime], c.rec.state, c.rec.appeals, c.ledger, CycleStart(c.events))
  }

  // ---------------------------------------------------------------------------------------------------
  // What one event may add

  /** The posting an accepted event causes, if any, together with the input it was derived from. */
  function PostingOf(r: Rules, mid: Case, p: Payload): seq<Posting>
    requires Input(r, mid, mid.rec.state, p).Ok?
  {
    Postings(r, Input(r, mid, mid.rec.state, p).value)
  }

  /** An accepted event adds at most one entry, named after itself. */
  lemma AtMostOneEntry(s: Setup, r: Rules, mid: Case, core: CoreState, p: Payload, env: Env)
    requires PostLedger(s, r, mid, core, p, env).1.Ok?
    ensures var entries := PostLedger(s, r, mid, core, p, env).1.value;
            && Input(r, mid, mid.rec.state, p).Ok?
            && |entries| == |PostingOf(r, mid, p)| <= 1
            && (|entries| == 1 ==>
                  var e := entries[0];
                  && e == EntryFor(mid.rec, mid.rec.version, PostingOf(r, mid, p)[0], env.now, e.core)
                  && (e.posting.TouchesCustomer() ==> e.core.Some? && e.core.value.approved))
  {
    var ps := PostingOf(r, mid, p);
    assert |ps| <= 1;
    if |ps| == 1 {
      assert ps[..0] == [];
      assert BookAll(s, core, mid.rec, mid.rec.version, ps[..0], env) == (core, Ok([]));
      var booked := Book(s, core, mid.rec, mid.rec.version, ps[0], env).1;
      assert booked.Ok? && PostLedger(s, r, mid, core, p, env).1.value == [booked.value];
    }
  }

  /** The case between the record being advanced and the money being moved. */
  function Midway(s: Setup, c: Case, req: Request, env: Env): Case
    requires c.rec.regime in s.rules
    requires Decide(s, c, req, env).Ok? && Record(s.rules[c.rec.regime], c, c, Decide(s, c, req, env).value, req, env).Ok?
  {
    Record(s.rules[c.rec.regime], c, c, Decide(s, c, req, env).value, req, env).value
  }

  lemma CommittedEvent(s: Setup, c: Case, core: CoreState, req: Request, env: Env)
    requires CommitEvent(s, c, c, core, req, env).result.Pass?
    ensures c.rec.regime in s.rules
    ensures Decide(s, c, req, env).Ok? && Advance(s.rules[c.rec.regime], c.rec.Lifecycle(), req.event).Ok?
    ensures Decide(s, c, req, env).value == Advance(s.rules[c.rec.regime], c.rec.Lifecycle(), req.event).value
    ensures Record(s.rules[c.rec.regime], c, c, Decide(s, c, req, env).value, req, env).Ok?
    ensures var c' := CommitEvent(s, c, c, core, req, env).after;
            var mid := Midway(s, c, req, env);
            var posted := PostLedger(s, s.rules[c.rec.regime], mid, core, req.payload, env);
            && posted.1.Ok?
            && c' == mid.(ledger := mid.ledger + posted.1.value, risk := Rescored(mid, req.event, env))
            && CommitEvent(s, c, c, core, req, env).core == posted.0
            && mid.ledger == c.ledger && mid.rec.Lifecycle() == Decide(s, c, req, env).value
  {
  }

  // ---------------------------------------------------------------------------------------------------
  // Preservation

  lemma OpeningEstablishesLedger(s: Setup, input: OpenInput, env: Env)
    requires Open(s, input, env).Ok?
    ensures LedgerInv(s, Open(s, input, env).value)
  {
  }

  lemma AttemptKeepsLedger(s: Setup, c: Case, core: CoreState, job: Job, env: Env)
    requires LogInv(s, c) && LedgerInv(s, c) && WellFormedTable(s.rules)
    ensures LedgerInv(s, Attempt(s, c, core, job, env).after)
  {
    var o := Attempt(s, c, core, job, env);
    if o.after != c {
      AttemptKeepsLog(s, c, core, job, env);
      AttemptAppends(s, c, core, job, env);
      if job.Dispatch? {
        var input := LedgerEffect(s, c, core, job.req, env);
        EventKeepsLedger(s, c, o.after, job.req.event, input);
      } else {
        MoveKeepsLedger(s, c, o.after);
      }
    }
  }

  lemma MoveKeepsLedger(s: Setup, c: Case, c': Case)
    requires LedgerInv(s, c) && Extends(c, c') && c'.rec.Lifecycle() == c.rec.Lifecycle() && c'.ledger == c.ledger
    requires c'.events[|c'.events| - 1].kind == Reassigned
    ensures LedgerInv(s, c')
  {
  }

  lemma EventKeepsLedger(s: Setup, c: Case, c': Case, e: Event, input: PostingInput)
    requires LogInv(s, c) && LogInv(s, c') && LedgerInv(s, c) && Extends(c, c')
    requires WellFormedTable(s.rules)
    requires Advance(s.rules[c.rec.regime], c.rec.Lifecycle(), e) == Ok(c'.rec.Lifecycle())
    requires c'.events[|c'.events| - 1].kind == Lifecycled(e)
    requires input.entered == c'.rec.state && input.disputed == c.rec.disputedAmount
    requires input.outstanding == SuspenseBalance(PostingsOf(c.ledger))
    requires input.liability == 0.0 || 0.0 <= input.liability <= s.rules[c.rec.regime].Cap()
    requires LedgerGrows(s.rules[c.rec.regime], c, c', input)
    ensures LedgerInv(s, c')
  {
    CycleMovesOn(c, c', e);
    EntriesKeepLedger(s.rules[c.rec.regime], c, c', e, input);
  }

  /** The ledger gains at most the one posting its input causes, and only with the core's approval. */
  ghost predicate LedgerGrows(r: Rules, c: Case, c': Case, input: PostingInput) {
    var ps := Postings(r, input);
    || (ps == [] && c'.ledger == c.ledger)
    || (|ps| == 1 && exists receipt ::
          && c'.ledger == c.ledger + [EntryFor(c'.rec, c'.rec.version, ps[0], c'.rec.updatedAt, receipt)]
          && (ps[0].TouchesCustomer() ==> receipt.Some? && receipt.value.approved))
  }

  /** What an accepted event does to the ledger: at most the one posting its input causes. */
  lemma LedgerEffect(s: Setup, c: Case, core: CoreState, req: Request, env: Env) returns (input: PostingInput)
    requires CommitEvent(s, c, c, core, req, env).result.Pass?
    ensures c.rec.regime in s.rules
    ensures var r, c' := s.rules[c.rec.regime], CommitEvent(s, c, c, core, req, env).after;
            && Input(r, c, c'.rec.state, req.payload) == Ok(input)
            && (input.liability == 0.0 || 0.0 <= input.liability <= r.Cap())
            && (c.rec.disputedAmount > 0.0 ==> input.liability < c.rec.disputedAmount)
            && LedgerGrows(r, c, c', input)
  {
    CommittedEvent(s, c, core, req, env);
    var r, mid := s.rules[c.rec.regime], Midway(s, c, req, env);
    AtMostOneEntry(s, r, mid, core, req.payload, env);
    input := Input(r, mid, mid.rec.state, req.payload).value;
    LiabilityIsCapped(r, c.rec.disputedAmount, req.payload.liability);
    var entries := PostLedger(s, r, mid, core, req.payload, env).1.value;
    if entries != [] {
      var entry := EntryFor(mid.rec, mid.rec.version, Postings(r, input)[0], env.now, entries[0].core);
      assert entries == [entry];
    }
  }

  /** What an accepted event does to a case, as far as the ledger is concerned. */
  ghost predicate Advances(r: Rules, c: Case, c': Case, e: Event) {
    && Advance(r, c.rec.Lifecycle(), e) == Ok(c'.rec.Lifecycle())
    && c'.rec.id == c.rec.id && c'.rec.disputedAmount == c.rec.disputedAmount
    && c'.rec.version == c.rec.version + 1
    && CycleStart(c.events) <= c.rec.version
    && CycleStart(c'.events) == if e == Appeal then c'.rec.version else CycleStart(c.events)
  }

  lemma CycleMovesOn(c: Case, c': Case, e: Event)
    requires WellLinked(c.events) && WellLinked(c'.events)
    requires c.rec.version == |c.events| && c'.rec.version == |c'.events| == |c.events| + 1
    requires c'.events[..|c.events|] == c.events && c'.events[|c.events|].kind == Lifecycled(e)
    ensures CycleStart(c.events) <= c.rec.version
    ensures CycleStart(c'.events) == if e == Appeal then c'.rec.version else CycleStart(c.events)
  {
    CycleStartIsPast(c.events);
  }

  /** The same fact without the way the entries came about. */
  lemma EntriesKeepLedger(r: Rules, c: Case, c': Case, e: Event, input: PostingInput)
    requires Advances(r, c, c', e) && r.liabilityCapMinor >= 0 && c.rec.version >= 1
    requires Named(c) && Paired(PostingsOf(c.ledger), c.rec.disputedAmount, r.Cap())
    requires Phase(r, c.rec.state, c.rec.appeals, c.ledger, CycleStart(c.events))
    requires input.entered == c'.rec.state && input.disputed == c.rec.disputedAmount
    requires input.outstanding == SuspenseBalance(PostingsOf(c.ledger))
    requires input.liability == 0.0 || 0.0 <= input.liability <= r.Cap()
    requires LedgerGrows(r, c, c', input)
    ensures Named(c') && Paired(PostingsOf(c'.ledger), c'.rec.disputedAmount, r.Cap())
    ensures Phase(r, c'.rec.state, c'.rec.appeals, c'.ledger, CycleStart(c'.events))
  {
    var since := CycleStart(c.events);
    if Postings(r, input) == [] {
      SuspendedIsPositive(c, r);
      NothingPosted(r, c.rec.Lifecycle(), c'.rec.Lifecycle(), e, c.ledger, c.rec.version, since, input);
    } else {
      EntryKeepsLedger(r, c, c', e, input, c'.ledger[|c.ledger|]);
    }
  }

  lemma EntryKeepsLedger(r: Rules, c: Case, c': Case, e: Event, input: PostingInput, entry: LedgerEntry)
    requires Advances(r, c, c', e) && r.liabilityCapMinor >= 0 && c.rec.version >= 1
    requires Named(c) && Paired(PostingsOf(c.ledger), c.rec.disputedAmount, r.Cap())
    requires Phase(r, c.rec.state, c.rec.appeals, c.ledger, CycleStart(c.events))
    requires input.entered == c'.rec.state && input.disputed == c.rec.disputedAmount
    requires input.outstanding == SuspenseBalance(PostingsOf(c.ledger))
    requires input.liability == 0.0 || 0.0 <= input.liability <= r.Cap()
    requires Postings(r, input) == [entry.posting] && c'.ledger == c.ledger + [entry]
    requires entry.event == c'.rec.version && entry.reference == Reference(c.rec.id, entry.event, entry.posting.kind)
    ensures Named(c') && Paired(PostingsOf(c'.ledger), c'.rec.disputedAmount, r.Cap())
    ensures Phase(r, c'.rec.state, c'.rec.appeals, c'.ledger, CycleStart(c'.events))
  {
    PairedSuspense(PostingsOf(c.ledger), c.rec.disputedAmount, r.Cap());
    OnePosted(r, c.rec.Lifecycle(), c'.rec.Lifecycle(), e, c.ledger, entry, CycleStart(c.events), input);
    EntryKeepsPairs(c, c', r, input, entry);
    NamedExtends(c, c', entry);
  }

  lemma SuspendedIsPositive(c: Case, r: Rules)
    requires Paired(PostingsOf(c.ledger), c.rec.disputedAmount, r.Cap())
    ensures |c.ledger| % 2 == 1 ==> SuspenseBalance(PostingsOf(c.ledger)) > 0.0
  {
    PairedSuspense(PostingsOf(c.ledger), c.rec.disputedAmount, r.Cap());
    assert |c.ledger| % 2 == 1 ==> IsCreditOf(PostingsOf(c.ledger)[|c.ledger| - 1], c.rec.disputedAmount, r.Cap());
  }

  lemma EntryKeepsPairs(c: Case, c': Case, r: Rules, input: PostingInput, entry: LedgerEntry)
    requires Paired(PostingsOf(c.ledger), c.rec.disputedAmount, r.Cap())
    requires c'.ledger == c.ledger + [entry] && Postings(r, input) == [entry.posting]
    requires |c.ledger| % 2 == 0 <==> entry.posting.kind.IsCredit()
    requires input.disputed == c.rec.disputedAmount && input.outstanding == SuspenseBalance(PostingsOf(c.ledger))
    requires input.liability == 0.0 || 0.0 <= input.liability <= r.Cap()
    requires r.Cap() >= 0.0
    ensures Paired(PostingsOf(c'.ledger), c.rec.disputedAmount, r.Cap())
  {
    var ps := PostingsOf(c.ledger);
    assert PostingsOf(c'.ledger) == ps + [entry.posting];
    PairedSuspense(ps, c.rec.disputedAmount, r.Cap());
    PairedExtends(ps, entry.posting, r, input);
  }

  lemma NamedExtends(c: Case, c': Case, entry: LedgerEntry)
    requires Named(c) && c'.ledger == c.ledger + [entry]
    requires c'.rec.id == c.rec.id && c'.rec.version == c.rec.version + 1 == entry.event && c.rec.version >= 1
    requires entry.reference == Reference(c.rec.id, entry.event, entry.posting.kind)
    ensures Named(c')
  {
  }

  lemma {:induction false} CycleStartIsPast(events: seq<EventRecord>)
    requires forall i | 0 <= i < |events| :: events[i].number == i + 1
    ensures CycleStart(events) <= |events|
  {
    if events != [] {
      CycleStartIsPast(events[..|events| - 1]);
    }
  }

  lemma LiabilityIsCapped(r: Rules, disputed: real, text: Option<LiabilityText>)
    requires Liability(r, disputed, text).Ok?
    ensures var l := Liability(r, disputed, text).value;
            l == 0.0 || (0.0 <= l <= r.Cap() && (disputed > 0.0 ==> l < disputed))
  {
  }

  /** A refund is only ever entered before a credit, so never while one is in suspense. */
  lemma NothingPosted(
    r: Rules, d: Dispute, d': Dispute, e: Event, ledger: seq<LedgerEntry>, version: nat, since: nat, input: PostingInput)
    requires Advance(r, d, e) == Ok(d')
    requires Phase(r, d.state, d.appeals, ledger, since) && CausedBy(ledger, |ledger|, version) && since <= version
    requires input.entered == d'.state && (|ledger| % 2 == 1 ==> input.outstanding > 0.0)
    requires Postings(r, input) == []
    ensures Phase(r, d'.state, d'.appeals, ledger, if e == Appeal then version + 1 else since)
  {
  }

  lemma OnePosted(
    r: Rules, d: Dispute, d': Dispute, e: Event, ledger: seq<LedgerEntry>, entry: LedgerEntry, since: nat, input: PostingInput)
    requires Advance(r, d, e) == Ok(d')
    requires Phase(r, d.state, d.appeals, ledger, since) && since < entry.event
    requires input.entered == d'.state && (|ledger| % 2 == 0 ==> input.outstanding == 0.0)
    requires Postings(r, input) != []
    ensures e != Appeal
    ensures Phase(r, d'.state, d'.appeals, ledger + [entry], since)
    ensures |ledger| % 2 == 0 <==> Postings(r, input)[0].kind.IsCredit()
  {
    var ledger' := ledger + [entry];
    assert forall i | 0 <= i < |ledger| :: ledger'[i] == ledger[i];
  }

  lemma PairedExtends(ps: seq<Posting>, p: Posting, r: Rules, input: PostingInput)
    requires Paired(ps, input.disputed, r.Cap())
    requires Postings(r, input) == [p]
    requires |ps| % 2 == 0 <==> p.kind.IsCredit()
    requires input.outstanding == if |ps| % 2 == 1 then ps[|ps| - 1].amount else 0.0
    requires input.liability == 0.0 || 0.0 <= input.liability <= r.Cap()
    requires r.Cap() >= 0.0
    ensures Paired(ps + [p], input.disputed, r.Cap())
  {
    var qs := ps + [p];
    forall i | 0 <= i < |qs| && i % 2 == 1 ensures IsClearingOf(qs[i], qs[i - 1]) {
      if i < |ps| {
        assert qs[i] == ps[i] && qs[i - 1] == ps[i - 1];
      }
    }
  }

  // ---------------------------------------------------------------------------------------------------
  // What the invariant says

  lemma {:induction false} NothingCreditedSince(ledger: seq<LedgerEntry>, since: nat)
    requires CausedBy(ledger, |ledger|, since)
    ensures CreditedSince(ledger, since) == 0.0
  {
    if ledger != [] {
      NothingCreditedSince(ledger[..|ledger| - 1], since);
    }
  }

  /** The suspense balance is a function of the state: the current cycle's credit while it is held, else nothing. */
  lemma SuspenseFollowsState(s: Setup, c: Case)
    requires LedgerInv(s, c)
    ensures SuspenseBalance(PostingsOf(c.ledger))
         == if Holding(s.rules[c.rec.regime], c.rec.state) then CurrentCredit(c) else 0.0
    ensures c.rec.state == Closed ==> SuspenseBalance(PostingsOf(c.ledger)) == 0.0
  {
    var r := s.rules[c.rec.regime];
    var ps, since, n := PostingsOf(c.ledger), CycleStart(c.events), |c.ledger|;
    PairedSuspense(ps, c.rec.disputedAmount, r.Cap());
    if Holding(r, c.rec.state) {
      if n % 2 == 0 {
        NothingCreditedSince(c.ledger, since);
      } else {
        NothingCreditedSince(c.ledger[..n - 1], since);
        assert IsCreditOf(ps[n - 1], c.rec.disputedAmount, r.Cap());
      }
    }
  }

  /**
   * Conservation: the customer's net credit is what is in suspense, recovered or lost; nothing is negative; and it
   * is at most one disputed amount for each cycle the dispute has had.
   */
  lemma CustomerIsNeverOverpaid(s: Setup, c: Case)
    requires LedgerInv(s, c) && c.rec.disputedAmount >= 0.0
    ensures Conserved(PostingsOf(c.ledger), (c.rec.appeals + 1) as real * c.rec.disputedAmount)
  {
    OneCreditACycle(s, c);
    CyclesBoundTheCustomer(c, s.rules[c.rec.regime].Cap());
  }

  lemma CyclesBoundTheCustomer(c: Case, cap: real)
    requires Paired(PostingsOf(c.ledger), c.rec.disputedAmount, cap) && c.rec.disputedAmount >= 0.0
    requires Pairs(PostingsOf(c.ledger)) <= c.rec.appeals + 1
    ensures Conserved(PostingsOf(c.ledger), (c.rec.appeals + 1) as real * c.rec.disputedAmount)
  {
    ConservedWithin(PostingsOf(c.ledger), c.rec.disputedAmount, cap, c.rec.appeals + 1);
  }

  lemma OneCreditACycle(s: Setup, c: Case)
    requires LedgerInv(s, c)
    ensures Pairs(PostingsOf(c.ledger)) <= c.rec.appeals + 1
    ensures c.rec.state == Closed ==> |c.ledger| % 2 == 0
  {
  }
}
