/** What each event does with money, in terms of the request and the rows it found: balances, instructions, refusals. */
module Transfers {
  import opened Prelude
  import opened Regimes
  import opened Lifecycle
  import opened Ledger
  import opened BankingCore
  import opened Cases
  import opened LedgerRuns
  import opened Runs
  import opened Causes

  /** An amount taken from one account and put on another. */
  datatype Transfer = Nothing | Transfer(debit: Account, credit: Account, amount: real)

  function Settlement(text: string, default: SuspenseSettlement): Account {
    if text == "RECOVERED" || (text == "" && default == Recovered) then Recovery else Loss
  }

  /** Event by event: a refund advances the claim less the liability stated, and these clear what was advanced. */
  function TransferOf(r: Rules, req: Request, disputed: real, outstanding: real): Transfer
    requires req.payload.Facts?
  {
    match req.event
    case IssueRefund => Transfer(Suspense, Customer, disputed - Stated(req.payload))
    case WinChargeback => Transfer(Recovery, Suspense, outstanding)
    case LoseChargeback => if r.refund == ProvisionalCredit then Nothing else Transfer(Loss, Suspense, outstanding)
    case ReverseProvisionalCredit => Transfer(Customer, Suspense, outstanding)
    case Close => Transfer(Settlement(req.payload.settlement, r.closeSettlement), Suspense, outstanding)
    case _ => Nothing
  }

  /** How much a transfer adds to an account, if there is anything to transfer. */
  function Adds(t: Transfer, a: Account): real {
    if t.Nothing? || t.amount <= 0.0 then 0.0
    else (if t.debit == a then t.amount else 0.0) - if t.credit == a then t.amount else 0.0
  }

  /** Each account's balance has changed by the transfer. */
  ghost predicate Makes(t: Transfer, before: seq<Posting>, after: seq<Posting>) {
    forall a: Account :: Net(a, after) == Net(a, before) + Adds(t, a)
  }

  ghost predicate AcceptableLiability(r: Rules, disputed: real, p: Payload) {
    p.Facts? && (p.liability.Some? ==>
      && p.liability.value.Parsed?
      && 0.0 <= p.liability.value.amount <= r.liabilityCapMinor as real / 100.0
      && (disputed > 0.0 ==> p.liability.value.amount < disputed))
  }

  ghost predicate AcceptableSettlement(p: Payload) {
    p.Facts? && p.settlement in {"", "RECOVERED", "WRITTEN_OFF"}
  }

  /** Whatever the event, an amount or a settlement out of bounds is refused before anything is posted. */
  lemma UnacceptableFactsAreRefused(s: Setup, c: Case, core: CoreState, req: Request, env: Env)
    requires c.rec.regime in s.rules
    requires !AcceptableLiability(s.rules[c.rec.regime], c.rec.disputedAmount, req.payload)
          || !AcceptableSettlement(req.payload)
    ensures var o := Attempt(s, c, core, Dispatch(req), env); o.result.Fail? && o.after == c && o.core == core
  {
  }

  lemma PostingsAreTheTransfer(r: Rules, d: Dispute, req: Request, input: PostingInput)
    requires Advance(r, d, req.event).Ok? && input.entered == Advance(r, d, req.event).value.state
    requires req.payload.Facts? && input.liability == Stated(req.payload)
    requires ParseSettlement(r, req.payload.settlement) == Ok(input.settlement)
    ensures var ps, t := Postings(r, input), TransferOf(r, req, input.disputed, input.outstanding);
            if t.Nothing? || t.amount <= 0.0 then ps == []
            else |ps| == 1 && Moves(ps[0], t.debit, t.credit) && ps[0].amount == t.amount
  {
  }

  /**
   * A committed event moves exactly what its kind, its payload and the balance it found say: each account's balance
   * changes by the transfer and no other is touched.
   */
  lemma AnEventMakesItsTransfer(s: Setup, c: Case, core: CoreState, req: Request, env: Env)
    requires Attempt(s, c, core, Dispatch(req), env).result.Pass?
    ensures c.rec.regime in s.rules && AcceptableSettlement(req.payload)
    ensures AcceptableLiability(s.rules[c.rec.regime], c.rec.disputedAmount, req.payload)
    ensures var before, after := PostingsOf(c.ledger), PostingsOf(Attempt(s, c, core, Dispatch(req), env).after.ledger);
            Makes(TransferOf(s.rules[c.rec.regime], req, c.rec.disputedAmount, Net(Suspense, before)), before, after)
  {
    EntryIsTheEvent(s, c, core, req, env);
    var input := LedgerEffect(s, c, core, req, env);
    TransferIsPosted(s.rules[c.rec.regime], c, CommitEvent(s, c, c, core, req, env).after, req, input);
  }

  lemma TransferIsPosted(r: Rules, c: Case, c': Case, req: Request, input: PostingInput)
    requires Advance(r, c.rec.Lifecycle(), req.event) == Ok(c'.rec.Lifecycle())
    requires Input(r, c, c'.rec.state, req.payload) == Ok(input) && LedgerGrows(r, c, c', input)
    ensures AcceptableSettlement(req.payload) && AcceptableLiability(r, c.rec.disputedAmount, req.payload)
    ensures Makes(TransferOf(r, req, c.rec.disputedAmount, Net(Suspense, PostingsOf(c.ledger))),
                  PostingsOf(c.ledger), PostingsOf(c'.ledger))
  {
    PostingsAreTheTransfer(r, c.rec.Lifecycle(), req, input);
    if c'.ledger != c.ledger {
      var p := Postings(r, input)[0];
      assert PostingsOf(c'.ledger) == PostingsOf(c.ledger) + [p];
      forall a: Account {
        NetAppend(a, PostingsOf(c.ledger), p);
      }
    }
  }

  /** Suspense is cleared onto one of the two, and neither the other nor the customer is touched. */
  ghost predicate Clears(before: seq<Posting>, after: seq<Posting>, recovers: bool) {
    var a := Net(Suspense, before);
    && Net(Suspense, after) == 0.0 && Net(Customer, after) == Net(Customer, before)
    && Net(Recovery, after) == Net(Recovery, before) + (if recovers then a else 0.0)
    && Net(Loss, after) == Net(Loss, before) + (if recovers then 0.0 else a)
  }

  /** So a closing with something in suspense clears it as its text asks, or as its row does if it asks for nothing. */
  lemma AClosingSettlesAsAsked(s: Setup, c: Case, core: CoreState, payload: Payload, env: Env)
    requires Attempt(s, c, core, Dispatch(Request(Close, payload)), env).result.Pass?
    requires Net(Suspense, PostingsOf(c.ledger)) > 0.0
    ensures c.rec.regime in s.rules && payload.Facts? && payload.settlement in {"", "RECOVERED", "WRITTEN_OFF"}
    ensures var after := PostingsOf(Attempt(s, c, core, Dispatch(Request(Close, payload)), env).after.ledger);
            Clears(PostingsOf(c.ledger), after,
                   payload.settlement == "RECOVERED"
                   || (payload.settlement == "" && s.rules[c.rec.regime].closeSettlement == Recovered))
  {
    AnEventMakesItsTransfer(s, c, core, Request(Close, payload), env);
    ClosingClears(PostingsOf(c.ledger),
                  PostingsOf(Attempt(s, c, core, Dispatch(Request(Close, payload)), env).after.ledger),
                  s.rules[c.rec.regime], c.rec.disputedAmount, payload);
  }

  lemma ClosingClears(before: seq<Posting>, after: seq<Posting>, r: Rules, disputed: real, payload: Payload)
    requires payload.Facts? && Net(Suspense, before) > 0.0
    requires Makes(TransferOf(r, Request(Close, payload), disputed, Net(Suspense, before)), before, after)
    ensures Clears(before, after,
                   payload.settlement == "RECOVERED" || (payload.settlement == "" && r.closeSettlement == Recovered))
  {
  }

  /** What is in suspense when a dispute closes is cleared as asked. */
  ghost predicate ClearedIfClosed(r: Rules, state: State, before: seq<Posting>, after: seq<Posting>, p: Payload) {
    state == Closed && Net(Suspense, before) > 0.0 ==>
      && p.Facts?
      && Clears(before, after, p.settlement == "RECOVERED" || (p.settlement == "" && r.closeSettlement == Recovered))
  }

  /** The same of the posting step alone, once the record says CLOSED. */
  lemma PostingTheCloseClears(s: Setup, r: Rules, c: Case, core: CoreState, p: Payload, env: Env)
    requires PostLedger(s, r, c, core, p, env).1.Ok?
    ensures ClearedIfClosed(r, c.rec.state, PostingsOf(c.ledger),
                            PostingsOf(c.ledger + PostLedger(s, r, c, core, p, env).1.value), p)
  {
    var ps := PostingsOf(c.ledger);
    if c.rec.state == Closed && Net(Suspense, ps) > 0.0 {
      AtMostOneEntry(s, r, c, core, p, env);
      var entries := PostLedger(s, r, c, core, p, env).1.value;
      SettlementClears(r, ps, Input(r, c, Closed, p).value, p.settlement);
      assert PostingsOf(c.ledger + entries) == ps + PostingOf(r, c, p);
    }
  }

  lemma SettlementClears(r: Rules, ps: seq<Posting>, input: PostingInput, text: string)
    requires input.entered == Closed && input.outstanding == Net(Suspense, ps) > 0.0
    requires ParseSettlement(r, text) == Ok(input.settlement)
    ensures |Postings(r, input)| == 1
    ensures Clears(ps, ps + Postings(r, input), text == "RECOVERED" || (text == "" && r.closeSettlement == Recovered))
  {
    forall a: Account {
      NetAppend(a, ps, Postings(r, input)[0]);
    }
    assert Postings(r, input) == [Postings(r, input)[0]];
  }

  // ---------------------------------------------------------------------------------------------------
  // What the core is told

  /** What an event asks of the core: a refund credits the disputing account, a reversal debits it, nothing else does. */
  function InstructionOf(r: Rules, c: Case, req: Request): Option<Instruction>
    requires req.payload.Facts?
  {
    var t := TransferOf(r, req, c.rec.disputedAmount, SuspenseBalance(PostingsOf(c.ledger)));
    if req.event !in {IssueRefund, ReverseProvisionalCredit} || t.amount <= 0.0 then None
    else
      var kind := if req.event == IssueRefund then RefundKind(r.refund) else ProvisionalCreditReversal;
      Some(Instruction(Reference(c.rec.id, c.rec.version + 1, kind), c.rec.account, req.event == IssueRefund, t.amount))
  }

  function RefundKind(path: RefundPath): PostingKind {
    if path == ProvisionalCredit then ProvisionalCreditPosting
    else if path == FastRefund then FastRefundPosting
    else NqaRefundPosting
  }

  lemma CausedIsWhatIsAsked(r: Rules, c: Case, mid: Case, req: Request)
    requires Advance(r, c.rec.Lifecycle(), req.event) == Ok(mid.rec.Lifecycle()) && mid.ledger == c.ledger
    requires mid.rec.id == c.rec.id && mid.rec.account == c.rec.account && mid.rec.version == c.rec.version + 1
    requires mid.rec.disputedAmount == c.rec.disputedAmount
    ensures Input(r, mid, mid.rec.state, req.payload).Ok?
       <==> AcceptableSettlement(req.payload) && AcceptableLiability(r, c.rec.disputedAmount, req.payload)
    ensures Input(r, mid, mid.rec.state, req.payload).Ok? ==>
              CausedInstruction(r, mid, req.payload) == InstructionOf(r, c, req)
  {
    if Input(r, mid, mid.rec.state, req.payload).Ok? {
      PostingsAreTheTransfer(r, c.rec.Lifecycle(), req, Input(r, mid, mid.rec.state, req.payload).value);
    }
  }

  // ---------------------------------------------------------------------------------------------------
  // The shipped rows

  function Days(r: Rules): seq<(int, DayUnit)> {
    seq(|r.clocks|, i requires 0 <= i < |r.clocks| => (r.clocks[i].count, r.clocks[i].unit))
  }

  /** What the shipped regimes come to: the liability a customer may bear, the refund, the appeal, and the clocks. */
  lemma WhatTheShippedRowsSay()
    ensures RULES.Keys == {"EU_SEPA_DIRECT_DEBIT", "EU_PSD2_CARD", "US_REG_E", "US_REG_Z"}
    ensures RULES["EU_SEPA_DIRECT_DEBIT"].refund == NoQuestionsAsked && RULES["EU_PSD2_CARD"].refund == FastRefund
    ensures RULES["US_REG_E"].refund == ProvisionalCredit && RULES["US_REG_Z"].refund == NoRefund
    ensures EU_PSD2_CARD.Cap() == US_REG_E.Cap() == 50.0 && EU_SEPA_DIRECT_DEBIT.Cap() == US_REG_Z.Cap() == 0.0
    ensures forall r | r in RULES.Values :: r.maxAppeals == 1 && (r.hasAdjudication <==> r != EU_SEPA_DIRECT_DEBIT)
    ensures forall s :: Possible(EU_SEPA_DIRECT_DEBIT, s) && IsRefundState(s) <==> s == SepaNqaRefundIssued
    ensures forall s :: Possible(EU_PSD2_CARD, s) && IsRefundState(s) <==> s == FastRefundIssued
    ensures forall s :: Possible(US_REG_E, s) && IsRefundState(s) <==> s == ProvisionalCreditIssued
    ensures forall s :: !(Possible(US_REG_Z, s) && IsRefundState(s))
    ensures forall r | r in RULES.Values ::
              && (r.closeSettlement == Recovered <==> r == EU_SEPA_DIRECT_DEBIT)
              && (r.currency == "EUR" <==> r in [EU_SEPA_DIRECT_DEBIT, EU_PSD2_CARD])
              && |r.clocks| == 2 && r.clocks[1].kind == ResolutionClock
              && r.clocks[0].kind == if r.refund == NoRefund then AcknowledgeClock else RefundClock
    ensures Days(EU_SEPA_DIRECT_DEBIT) == [(10, BusinessDays), (15, BusinessDays)]
    ensures Days(EU_PSD2_CARD) == [(1, BusinessDays), (15, BusinessDays)]
    ensures Days(US_REG_E) == [(10, BusinessDays), (45, CalendarDays)]
    ensures Days(US_REG_Z) == [(30, CalendarDays), (90, CalendarDays)]
  {
  }
}
