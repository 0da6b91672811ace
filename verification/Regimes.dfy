/** The regulatory regimes: one row of Rules each (domain/regime.go). */
module Regimes {
  import opened Prelude

  /** How a regime makes the customer whole while the dispute runs. */
  datatype RefundPath = NoRefund | ProvisionalCredit | FastRefund | NoQuestionsAsked

  datatype DeadlineKind = RefundClock | AcknowledgeClock | ResolutionClock

  datatype DayUnit = BusinessDays | CalendarDays

  /** One regulatory deadline as a regime states it. */
  datatype Clock = Clock(kind: DeadlineKind, count: int, unit: DayUnit)

  /** How an outstanding suspense balance is cleared when nothing else clears it. */
  datatype SuspenseSettlement = Recovered | WrittenOff

  datatype Rules = Rules(
    refund: RefundPath,
    clocks: seq<Clock>,
    hasAdjudication: bool,
    merchantMayContest: bool,
    liabilityCapMinor: int,
    currency: string,
    maxAppeals: nat,
    closeSettlement: SuspenseSettlement)
  {
    predicate HasProvisionalCredit() { refund == ProvisionalCredit }

    predicate HasRefundStep() { refund != NoRefund }

    /** The cap on the customer's liability, in currency units. */
    function Cap(): real { liabilityCapMinor as real / 100.0 }

    ghost predicate OneResolutionClock() {
      exists i :: OnlyResolutionClock(i)
    }

    ghost predicate OnlyResolutionClock(i: int) {
      && 0 <= i < |clocks|
      && forall j | 0 <= j < |clocks| :: clocks[j].kind == ResolutionClock <==> j == i
    }
  }

  /** The rows by regime name; a new regime is a new row. */
  type RulesTable = map<string, Rules>

  const EU_SEPA_DIRECT_DEBIT := Rules(
    NoQuestionsAsked, [Clock(RefundClock, 10, BusinessDays), Clock(ResolutionClock, 15, BusinessDays)],
    false, false, 0, "EUR", 1, Recovered)

  const EU_PSD2_CARD := Rules(
    FastRefund, [Clock(RefundClock, 1, BusinessDays), Clock(ResolutionClock, 15, BusinessDays)],
    true, true, 5000, "EUR", 1, WrittenOff)

  const US_REG_E := Rules(
    ProvisionalCredit, [Clock(RefundClock, 10, BusinessDays), Clock(ResolutionClock, 45, CalendarDays)],
    true, true, 5000, "USD", 1, WrittenOff)

  const US_REG_Z := Rules(
    NoRefund, [Clock(AcknowledgeClock, 30, CalendarDays), Clock(ResolutionClock, 90, CalendarDays)],
    true, true, 0, "USD", 1, WrittenOff)

  /** The table the engine ships with. */
  const RULES: RulesTable := map[
    "EU_SEPA_DIRECT_DEBIT" := EU_SEPA_DIRECT_DEBIT,
    "EU_PSD2_CARD" := EU_PSD2_CARD,
    "US_REG_E" := US_REG_E,
    "US_REG_Z" := US_REG_Z]

  function RulesFor(table: RulesTable, regime: string): Result<Rules, Error> {
    if regime in table then Ok(table[regime]) else Err(UnknownRegime)
  }

  /** What the theorems ask of a row: exactly one resolution clock and a cap that is not negative. */
  ghost predicate WellFormedTable(table: RulesTable) {
    forall regime :: regime in table ==> table[regime].OneResolutionClock() && table[regime].liabilityCapMinor >= 0
  }

  lemma SecondOfTwo(r: Rules)
    requires |r.clocks| == 2 && r.clocks[0].kind != ResolutionClock && r.clocks[1].kind == ResolutionClock
    ensures r.OneResolutionClock()
  {
    assert r.OnlyResolutionClock(1);
  }

  /** The four shipped rows meet the hypothesis the theorems make about a row. */
  lemma ShippedRulesAreWellFormed()
    ensures WellFormedTable(RULES)
  {
    SecondOfTwo(EU_SEPA_DIRECT_DEBIT);
    SecondOfTwo(EU_PSD2_CARD);
    SecondOfTwo(US_REG_E);
    SecondOfTwo(US_REG_Z);
  }
}
