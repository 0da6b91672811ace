/** The regime-parameterised dispute automaton (domain/state.go). */
module Lifecycle {
  import opened Prelude
  import opened Regimes

  datatype State =
    | Initiated
    | Investigating
    | QuestionnaireSent
    | QuestionnaireReceived
    | ProvisionalCreditIssued
    | FastRefundIssued
    | SepaNqaRefundIssued
    | ChargebackFiled
    | ChargebackAcknowledged
    | EvidenceSubmitted
    | ChargebackWon
    | ChargebackLost
    | FinalCreditIssued
    | ProvisionalCreditReversed
    | Closed

  datatype Event =
    | OpenInvestigation
    | SendQuestionnaire
    | ReceiveQuestionnaire
    | IssueRefund
    | FileChargeback
    | AcknowledgeChargeback
    | SubmitEvidence
    | WinChargeback
    | LoseChargeback
    | IssueFinalCredit
    | ReverseProvisionalCredit
    | Close
    | Appeal

  const ALL_EVENTS: seq<Event> := [
    OpenInvestigation, SendQuestionnaire, ReceiveQuestionnaire, IssueRefund, FileChargeback, AcknowledgeChargeback,
    SubmitEvidence, WinChargeback, LoseChargeback, IssueFinalCredit, ReverseProvisionalCredit, Close, Appeal]

  datatype Dispute = Dispute(regime: string, state: State, appeals: nat)

  function New(table: RulesTable, regime: string): Result<Dispute, Error> {
    var _ :- RulesFor(table, regime);
    Ok(Dispute(regime, Initiated, 0))
  }

  /** The state a refund leads to; only asked of rows that have a refund step. */
  function RefundState(r: Rules): State
    requires r.HasRefundStep()
  {
    match r.refund
    case ProvisionalCredit => ProvisionalCreditIssued
    case FastRefund => FastRefundIssued
    case NoQuestionsAsked => SepaNqaRefundIssued
  }

  /** The transition table; it gates on the row's properties, never on the regime's name. */
  function Next(r: Rules, from: State, e: Event): Option<State> {
    match from
    case Initiated =>
      if e == OpenInvestigation then Some(Investigating)
      else if e == IssueRefund && r.refund == NoQuestionsAsked then Some(SepaNqaRefundIssued)
      else None
    case Investigating =>
      if e == SendQuestionnaire then Some(QuestionnaireSent)
      else RefundFileOrClose(r, e)
    case QuestionnaireSent =>
      if e == ReceiveQuestionnaire then Some(QuestionnaireReceived)
      else if e == Close then Some(Closed)
      else None
    case QuestionnaireReceived => RefundFileOrClose(r, e)
    case ProvisionalCreditIssued | FastRefundIssued | SepaNqaRefundIssued =>
      if e == FileChargeback && r.hasAdjudication then Some(ChargebackFiled)
      else if e == Close then Some(Closed)
      else None
    case ChargebackFiled =>
      if e == AcknowledgeChargeback then Some(ChargebackAcknowledged) else None
    case ChargebackAcknowledged =>
      if e == SubmitEvidence && r.merchantMayContest then Some(EvidenceSubmitted)
      else Adjudicate(e)
    case EvidenceSubmitted => Adjudicate(e)
    case ChargebackWon =>
      if e == IssueFinalCredit && r.HasProvisionalCredit() then Some(FinalCreditIssued)
      else if e == Close && !r.HasProvisionalCredit() then Some(Closed)
      else None
    case ChargebackLost =>
      if e == ReverseProvisionalCredit && r.HasProvisionalCredit() then Some(ProvisionalCreditReversed)
      else if e == Close && !r.HasProvisionalCredit() then Some(Closed)
      else None
    case FinalCreditIssued | ProvisionalCreditReversed =>
      if e == Close then Some(Closed) else None
    case Closed => None // only an appeal leaves this state, which Advance decides on
  }

  /** What an investigation can turn into, with or without a questionnaire. */
  function RefundFileOrClose(r: Rules, e: Event): Option<State> {
    if e == IssueRefund && r.HasRefundStep() then Some(RefundState(r))
    else if e == FileChargeback && r.hasAdjudication && !r.HasRefundStep() then Some(ChargebackFiled)
    else if e == Close then Some(Closed)
    else None
  }

  function Adjudicate(e: Event): Option<State> {
    if e == WinChargeback then Some(ChargebackWon)
    else if e == LoseChargeback then Some(ChargebackLost)
    else None
  }

  /** Apply under a known row: an appeal reopens a closed dispute, anything else follows the table. */
  function Advance(r: Rules, d: Dispute, e: Event): Result<Dispute, Error> {
    if e == Appeal then
      if d.state != Closed then Err(InvalidTransition)
      else if d.appeals >= r.maxAppeals then Err(AppealsExhausted)
      else Ok(Dispute(d.regime, Investigating, d.appeals + 1))
    else
      match Next(r, d.state, e)
      case None => Err(InvalidTransition)
      case Some(to) => Ok(Dispute(d.regime, to, d.appeals))
  }

  function Apply(table: RulesTable, d: Dispute, e: Event): Result<Dispute, Error> {
    var r :- RulesFor(table, d.regime);
    Advance(r, d, e)
  }

  /** The states in which the customer has been refunded and the merchant not yet pursued. */
  predicate IsRefundState(s: State) { s in {ProvisionalCreditIssued, FastRefundIssued, SepaNqaRefundIssued} }

  /** Event by event, when it is accepted: a chargeback is filed after the refund, under rows that have one. */
  predicate Accepts(r: Rules, d: Dispute, e: Event) {
    match e
    case OpenInvestigation => d.state == Initiated
    case SendQuestionnaire => d.state == Investigating
    case ReceiveQuestionnaire => d.state == QuestionnaireSent
    case IssueRefund =>
      || (d.state == Initiated && r.refund == NoQuestionsAsked)
      || (d.state in {Investigating, QuestionnaireReceived} && r.refund != NoRefund)
    case FileChargeback =>
      r.hasAdjudication && (IsRefundState(d.state)
                            || (d.state in {Investigating, QuestionnaireReceived} && r.refund == NoRefund))
    case AcknowledgeChargeback => d.state == ChargebackFiled
    case SubmitEvidence => d.state == ChargebackAcknowledged && r.merchantMayContest
    case WinChargeback | LoseChargeback => d.state in {ChargebackAcknowledged, EvidenceSubmitted}
    case IssueFinalCredit => d.state == ChargebackWon && r.refund == ProvisionalCredit
    case ReverseProvisionalCredit => d.state == ChargebackLost && r.refund == ProvisionalCredit
    case Close =>
      || d.state in {Investigating, QuestionnaireSent, QuestionnaireReceived, FinalCreditIssued,
                     ProvisionalCreditReversed}
      || IsRefundState(d.state)
      || (d.state in {ChargebackWon, ChargebackLost} && r.refund != ProvisionalCredit)
    case Appeal => d.state == Closed && d.appeals < r.maxAppeals
  }

  /** Where an event leads depends on the row alone, not on the state it is accepted in. */
  function LeadsTo(r: Rules, e: Event): State {
    match e
    case OpenInvestigation | Appeal => Investigating
    case SendQuestionnaire => QuestionnaireSent
    case ReceiveQuestionnaire => QuestionnaireReceived
    case IssueRefund =>
      if r.refund == ProvisionalCredit then ProvisionalCreditIssued
      else if r.refund == FastRefund then FastRefundIssued
      else SepaNqaRefundIssued
    case FileChargeback => ChargebackFiled
    case AcknowledgeChargeback => ChargebackAcknowledged
    case SubmitEvidence => EvidenceSubmitted
    case WinChargeback => ChargebackWon
    case LoseChargeback => ChargebackLost
    case IssueFinalCredit => FinalCreditIssued
    case ReverseProvisionalCredit => ProvisionalCreditReversed
    case Close => Closed
  }

  /** What Apply answers, event by event. */
  lemma EachEventLeadsToOneState(table: RulesTable, d: Dispute, e: Event)
    ensures Apply(table, d, e).Ok? <==> d.regime in table && Accepts(table[d.regime], d, e)
    ensures Apply(table, d, e).Ok? ==>
              Apply(table, d, e).value
                == Dispute(d.regime, LeadsTo(table[d.regime], e), d.appeals + if e == Appeal then 1 else 0)
    ensures Apply(table, d, e).Err? ==>
              Apply(table, d, e).error
                == if d.regime !in table then UnknownRegime
                   else if e == Appeal && d.state == Closed then AppealsExhausted
                   else InvalidTransition
  {
  }

  /** The events Apply would accept, in the order of the vocabulary. */
  method Allowed(table: RulesTable, d: Dispute) returns (out: seq<Event>)
    ensures forall e :: e in out <==> Apply(table, d, e).Ok?
    ensures forall e :: e in out <==> d.regime in table && Accepts(table[d.regime], d, e)
    ensures forall i, j :: 0 <= i < j < |out| ==> out[i] != out[j]
    ensures out == [] <==> d.regime !in table || (d.state == Closed && d.appeals >= table[d.regime].maxAppeals)
  {
    out := [];
    for k := 0 to |ALL_EVENTS|
      invariant forall e :: e in out <==> e in ALL_EVENTS[..k] && Apply(table, d, e).Ok?
      invariant forall i, j :: 0 <= i < j < |out| ==> out[i] != out[j]
    {
      AllEventsAreDistinct(k);
      if Apply(table, d, ALL_EVENTS[k]).Ok? {
        out := out + [ALL_EVENTS[k]];
      }
    }
    assert ALL_EVENTS[..|ALL_EVENTS|] == ALL_EVENTS;
    forall e: Event ensures e in ALL_EVENTS { EveryEventIsListed(e); }
    forall e ensures Apply(table, d, e).Ok? <==> d.regime in table && Accepts(table[d.regime], d, e) {
      EachEventLeadsToOneState(table, d, e);
    }
    NothingAllowedIffExhausted(table, d);
    assert out != [] ==> out[0] in out;
  }

  /** Nothing can happen any more to a dispute that is closed for good, and to no other. */
  lemma NothingAllowedIffExhausted(table: RulesTable, d: Dispute)
    ensures (forall e :: Apply(table, d, e).Err?)
       <==> d.regime !in table || (d.state == Closed && d.appeals >= table[d.regime].maxAppeals)
  {
    if d.regime in table && d.state != Closed {
      assert Apply(table, d, WayOut(table[d.regime], d.state)).Ok?;
    } else if d.regime in table && d.appeals < table[d.regime].maxAppeals {
      assert Apply(table, d, Appeal).Ok?;
    }
  }

  lemma AllEventsAreDistinct(k: nat)
    requires k < |ALL_EVENTS|
    ensures ALL_EVENTS[k] !in ALL_EVENTS[..k]
  {
  }

  lemma EveryEventIsListed(e: Event)
    ensures e in ALL_EVENTS
  {
    var i := match e
      case OpenInvestigation => 0
      case SendQuestionnaire => 1
      case ReceiveQuestionnaire => 2
      case IssueRefund => 3
      case FileChargeback => 4
      case AcknowledgeChargeback => 5
      case SubmitEvidence => 6
      case WinChargeback => 7
      case LoseChargeback => 8
      case IssueFinalCredit => 9
      case ReverseProvisionalCredit => 10
      case Close => 11
      case Appeal => 12;
    assert ALL_EVENTS[i] == e;
  }

  // ---------------------------------------------------------------------------------------------------
  // Every run ends, and every state can be left.

  /** Folds Advance over events; the first refusal is the result. */
  function Follow(r: Rules, d: Dispute, events: seq<Event>): Result<Dispute, Error>
    decreases |events|
  {
    if events == [] then Ok(d)
    else
      var mid :- Advance(r, d, events[0]);
      Follow(r, mid, events[1..])
  }

  /** How many events a dispute in this state can still accept before an appeal is needed. */
  function Rank(s: State): nat {
    match s
    case Initiated => 10
    case Investigating => 9
    case QuestionnaireSent => 8
    case QuestionnaireReceived => 7
    case ProvisionalCreditIssued | FastRefundIssued | SepaNqaRefundIssued => 6
    case ChargebackFiled => 5
    case ChargebackAcknowledged => 4
    case EvidenceSubmitted => 3
    case ChargebackWon | ChargebackLost => 2
    case FinalCreditIssued | ProvisionalCreditReversed => 1
    case Closed => 0
  }

  /** Every accepted event lowers the measure: appeals left, then the rank of the state. */
  lemma AnEventUsesUpSome(r: Rules, d: Dispute, e: Event)
    requires d.appeals <= r.maxAppeals && Advance(r, d, e).Ok?
    ensures var d' := Advance(r, d, e).value;
            && d.appeals <= d'.appeals <= r.maxAppeals
            && 10 * (r.maxAppeals - d'.appeals) + Rank(d'.state) < 10 * (r.maxAppeals - d.appeals) + Rank(d.state)
  {
  }

  lemma {:induction false} RunsAreBounded(r: Rules, d: Dispute, events: seq<Event>)
    requires d.appeals <= r.maxAppeals
    requires Follow(r, d, events).Ok?
    ensures |events| <= 10 * (r.maxAppeals - d.appeals) + Rank(d.state)
    ensures d.appeals <= Follow(r, d, events).value.appeals <= r.maxAppeals
    decreases |events|
  {
    if events != [] {
      AnEventUsesUpSome(r, d, events[0]);
      RunsAreBounded(r, Advance(r, d, events[0]).value, events[1..]);
    }
  }

  /** No dispute accepts more than ten lifecycle events per permitted cycle, whatever the row. */
  lemma EveryDisputeEnds(table: RulesTable, regime: string, events: seq<Event>)
    requires New(table, regime).Ok?
    requires Follow(table[regime], New(table, regime).value, events).Ok?
    ensures |events| <= 10 * (table[regime].maxAppeals + 1)
  {
    RunsAreBounded(table[regime], New(table, regime).value, events);
  }

  /** The bound is attained: a Regulation E dispute can use all twenty events. */
  lemma TheBoundIsAttained(r: Rules) returns (events: seq<Event>)
    requires r == US_REG_E
    ensures |events| == 10 * (r.maxAppeals + 1)
    ensures Follow(r, Dispute("US_REG_E", Initiated, 0), events) == Ok(Dispute("US_REG_E", Closed, 1))
  {
    var cycle := FollowCycle(r, "US_REG_E");
    FollowTwoCycles(r, "US_REG_E", cycle);
    events := TwoCycles(cycle);
  }

  /** An investigation, an appeal, and the investigation again. */
  function TwoCycles(cycle: seq<Event>): (r: seq<Event>)
    ensures |r| == 2 * |cycle| + 2
  {
    [OpenInvestigation] + (cycle + ([Appeal] + cycle))
  }

  lemma FollowTwoCycles(r: Rules, regime: string, cycle: seq<Event>)
    requires r.maxAppeals > 0
    requires forall k | 0 <= k <= 1 :: Follow(r, Dispute(regime, Investigating, k), cycle) == Ok(Dispute(regime, Closed, k))
    ensures Follow(r, Dispute(regime, Initiated, 0), TwoCycles(cycle)) == Ok(Dispute(regime, Closed, 1))
  {
    var second := [Appeal] + cycle;
    assert second[1..] == cycle;
    FollowConcat(r, Dispute(regime, Investigating, 0), cycle, second);
    assert TwoCycles(cycle)[1..] == cycle + second;
  }

  /** The longest way from an investigation to CLOSED. */
  lemma FollowCycle(r: Rules, regime: string) returns (cycle: seq<Event>)
    requires r.HasProvisionalCredit() && r.hasAdjudication && r.merchantMayContest
    ensures |cycle| == 9
    ensures forall k | 0 <= k <= 1 :: Follow(r, Dispute(regime, Investigating, k), cycle) == Ok(Dispute(regime, Closed, k))
  {
    var credited := [FileChargeback, AcknowledgeChargeback, SubmitEvidence];
    var lost := [LoseChargeback, ReverseProvisionalCredit, Close];
    var asked := [SendQuestionnaire, ReceiveQuestionnaire, IssueRefund];
    cycle := asked + (credited + lost);
    forall k | 0 <= k <= 1
      ensures Follow(r, Dispute(regime, Investigating, k), cycle) == Ok(Dispute(regime, Closed, k))
    {
      FollowThree(r, Dispute(regime, Investigating, k), asked);
      FollowThree(r, Dispute(regime, ProvisionalCreditIssued, k), credited);
      FollowThree(r, Dispute(regime, EvidenceSubmitted, k), lost);
      JoinThree(r, Dispute(regime, Investigating, k), asked, Dispute(regime, ProvisionalCreditIssued, k), credited,
                Dispute(regime, EvidenceSubmitted, k), lost);
    }
  }

  lemma JoinThree(r: Rules, d: Dispute, a: seq<Event>, d1: Dispute, b: seq<Event>, d2: Dispute, c: seq<Event>)
    requires Follow(r, d, a) == Ok(d1) && Follow(r, d1, b) == Ok(d2)
    ensures Follow(r, d, a + (b + c)) == Follow(r, d2, c)
  {
    FollowConcat(r, d1, b, c);
    FollowConcat(r, d, a, b + c);
  }

  lemma FollowThree(r: Rules, d: Dispute, events: seq<Event>)
    requires |events| == 3
    requires Advance(r, d, events[0]).Ok?
    requires Advance(r, Advance(r, d, events[0]).value, events[1]).Ok?
    ensures Follow(r, d, events) == Advance(r, Advance(r, Advance(r, d, events[0]).value, events[1]).value, events[2])
  {
    var d1 := Advance(r, d, events[0]).value;
    var d2 := Advance(r, d1, events[1]).value;
    assert Follow(r, d2, events[2..]) == Advance(r, d2, events[2]);
    assert events[1..][1..] == events[2..];
    assert Follow(r, d1, events[1..]) == Follow(r, d2, events[2..]);
  }

  lemma {:induction false} FollowConcat(r: Rules, d: Dispute, first: seq<Event>, second: seq<Event>)
    requires Follow(r, d, first).Ok?
    ensures Follow(r, d, first + second) == Follow(r, Follow(r, d, first).value, second)
    decreases |first|
  {
    if first == [] {
      assert first + second == second;
    } else {
      assert (first + second)[1..] == first[1..] + second;
      FollowConcat(r, Advance(r, d, first[0]).value, first[1..], second);
    }
  }

  /** An event that is always accepted outside CLOSED and leads towards it. */
  function WayOut(r: Rules, s: State): Event
    requires s != Closed
  {
    match s
    case Initiated => OpenInvestigation
    case ChargebackFiled => AcknowledgeChargeback
    case ChargebackAcknowledged | EvidenceSubmitted => WinChargeback
    case ChargebackWon => if r.HasProvisionalCredit() then IssueFinalCredit else Close
    case ChargebackLost => if r.HasProvisionalCredit() then ReverseProvisionalCredit else Close
    case _ => Close
  }

  function Distance(r: Rules, s: State): nat {
    match s
    case Closed => 0
    case ChargebackFiled => if r.HasProvisionalCredit() then 4 else 3
    case ChargebackAcknowledged | EvidenceSubmitted => if r.HasProvisionalCredit() then 3 else 2
    case Initiated => 2
    case ChargebackWon | ChargebackLost => if r.HasProvisionalCredit() then 2 else 1
    case _ => 1
  }

  /** From any state, under any row, at most four accepted events lead to CLOSED without an appeal. */
  lemma {:induction false} FourEventsCloseAnyDispute(r: Rules, d: Dispute) returns (events: seq<Event>)
    ensures |events| == Distance(r, d.state) <= 4
    ensures Appeal !in events
    ensures Follow(r, d, events) == Ok(d.(state := Closed))
    decreases Distance(r, d.state)
  {
    if d.state == Closed {
      events := [];
    } else {
      var e := WayOut(r, d.state);
      var rest := FourEventsCloseAnyDispute(r, Advance(r, d, e).value);
      events := [e] + rest;
      assert events[1..] == rest;
    }
  }

  // ---------------------------------------------------------------------------------------------------
  // Which states a row makes possible

  /** Refunds, chargebacks, evidence and the end of a provisional credit are for rows that have them. */
  predicate Possible(r: Rules, s: State) {
    match s
    case ProvisionalCreditIssued => r.refund == ProvisionalCredit
    case FastRefundIssued => r.refund == FastRefund
    case SepaNqaRefundIssued => r.refund == NoQuestionsAsked
    case ChargebackFiled | ChargebackAcknowledged | ChargebackWon | ChargebackLost => r.hasAdjudication
    case EvidenceSubmitted => r.hasAdjudication && r.merchantMayContest
    case FinalCreditIssued | ProvisionalCreditReversed => r.hasAdjudication && r.refund == ProvisionalCredit
    case _ => true
  }

  /** Some accepted events lead a new dispute there. */
  ghost predicate Reached(r: Rules, regime: string, s: State) {
    exists events :: LeadThere(r, regime, s, events)
  }

  ghost predicate LeadThere(r: Rules, regime: string, s: State, events: seq<Event>) {
    var end := Follow(r, Dispute(regime, Initiated, 0), events);
    end.Ok? && end.value.state == s
  }

  lemma {:induction false} OnlyPossibleStates(r: Rules, d: Dispute, events: seq<Event>)
    requires Possible(r, d.state) && Follow(r, d, events).Ok?
    ensures Possible(r, Follow(r, d, events).value.state)
    decreases |events|
  {
    if events != [] {
      var mid := Advance(r, d, events[0]).value;
      assert Possible(r, mid.state);
      OnlyPossibleStates(r, mid, events[1..]);
    }
  }

  /** The last step of a way to a state, and the state it starts from. */
  function LastStep(r: Rules, s: State): (State, Event)
    requires s != Initiated
  {
    match s
    case Investigating => (Initiated, OpenInvestigation)
    case QuestionnaireSent => (Investigating, SendQuestionnaire)
    case QuestionnaireReceived => (QuestionnaireSent, ReceiveQuestionnaire)
    case ProvisionalCreditIssued | FastRefundIssued | SepaNqaRefundIssued => (Investigating, IssueRefund)
    case ChargebackFiled => (if r.HasRefundStep() then RefundState(r) else Investigating, FileChargeback)
    case ChargebackAcknowledged => (ChargebackFiled, AcknowledgeChargeback)
    case EvidenceSubmitted => (ChargebackAcknowledged, SubmitEvidence)
    case ChargebackWon => (ChargebackAcknowledged, WinChargeback)
    case ChargebackLost => (ChargebackAcknowledged, LoseChargeback)
    case FinalCreditIssued => (ChargebackWon, IssueFinalCredit)
    case ProvisionalCreditReversed => (ChargebackLost, ReverseProvisionalCredit)
    case Closed => (Investigating, Close)
  }

  lemma {:induction false} AWayThere(r: Rules, regime: string, s: State) returns (events: seq<Event>)
    requires Possible(r, s)
    ensures Follow(r, Dispute(regime, Initiated, 0), events) == Ok(Dispute(regime, s, 0))
    decreases 10 - Rank(s)
  {
    if s == Initiated {
      events := [];
    } else {
      var (before, e) := LastStep(r, s);
      var front := AWayThere(r, regime, before);
      events := front + [e];
      FollowConcat(r, Dispute(regime, Initiated, 0), front, [e]);
      assert [e][1..] == [];
      assert Follow(r, Dispute(regime, s, 0), []) == Ok(Dispute(regime, s, 0));
    }
  }

  /** The states disputes under a row can reach are exactly those it makes possible. */
  lemma ReachedIffPossible(r: Rules, regime: string, s: State)
    ensures Reached(r, regime, s) <==> Possible(r, s)
  {
    if Possible(r, s) {
      var events := AWayThere(r, regime, s);
      assert LeadThere(r, regime, s, events);
    }
    forall events | LeadThere(r, regime, s, events) ensures Possible(r, s) {
      OnlyPossibleStates(r, Dispute(regime, Initiated, 0), events);
    }
  }
}
