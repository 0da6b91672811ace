/** Fraud scoring of a dispute with fixed rules (domain/risk.go). */
module Risk {
  import opened Prelude

  datatype RiskTier = Low | Medium | High

  /** One contribution to the score: the most it can add and what it did add. */
  datatype Signal = Signal(weight: nat, points: nat)

  datatype RiskInput = RiskInput(
    disputesLast12Months: int,
    lostChargebacks: int,
    transactionAgeDays: int,
    highRiskMerchant: bool,
    amount: real,
    accountAgeDays: int,
    inconsistencies: int,
    questionnaireKnown: bool)

  datatype Assessment = Assessment(score: nat, tier: RiskTier, signals: seq<Signal>)

  function Signals(x: RiskInput): seq<Signal> {
    [
      Signal(25, if x.disputesLast12Months >= 3 then 25
                 else if x.disputesLast12Months == 2 then 18
                 else if x.disputesLast12Months == 1 then 10 else 0),
      Signal(25, if !x.questionnaireKnown then 0
                 else if x.inconsistencies >= 2 then 25
                 else if x.inconsistencies == 1 then 15 else 0),
      Signal(25, if x.lostChargebacks >= 2 then 25 else if x.lostChargebacks == 1 then 15 else 0),
      Signal(10, if x.transactionAgeDays > 60 then 10 else if x.transactionAgeDays > 30 then 5 else 0),
      Signal(10, if x.highRiskMerchant then 10 else 0),
      Signal(10, if x.amount >= 1000.0 then 10 else if x.amount >= 500.0 then 5 else 0),
      Signal(5, if x.accountAgeDays < 90 then 5 else if x.accountAgeDays < 365 then 2 else 0)
    ]
  }

  function SumPoints(signals: seq<Signal>): nat {
    if signals == [] then 0 else SumPoints(signals[..|signals| - 1]) + signals[|signals| - 1].points
  }

  function TierOf(score: nat): RiskTier {
    if score >= 45 then High else if score >= 20 then Medium else Low
  }

  function Assess(x: RiskInput): Assessment {
    var signals := Signals(x);
    Assessment(SumPoints(signals), TierOf(SumPoints(signals)), signals)
  }

  /** The accumulating loop of Assess. */
  method Score(x: RiskInput) returns (a: Assessment)
    ensures a == Assess(x)
    ensures (a.tier == High <==> a.score >= 45) && (a.tier == Low <==> a.score < 20)
  {
    var signals := Signals(x);
    var score := 0;
    for i := 0 to |signals|
      invariant score == SumPoints(signals[..i])
    {
      score := score + signals[i].points;
      assert signals[..i + 1][..i] == signals[..i];
    }
    assert signals[..|signals|] == signals;
    a := Assessment(score, if score >= 45 then High else if score >= 20 then Medium else Low, signals);
  }

  /** A HIGH assessment holds a credit back until an analyst has justified it. */
  function CreditAllowed(latest: Assessment, override: string): Check<Error> {
    if latest.tier != High || override != "" then Pass else Fail(RiskHold)
  }

  // ---------------------------------------------------------------------------------------------------

  ghost predicate PointwiseAtMost(a: seq<Signal>, b: seq<Signal>) {
    |a| == |b| && forall i | 0 <= i < |a| :: a[i].points <= b[i].points
  }

  lemma {:induction false} SumPointsIsMonotone(a: seq<Signal>, b: seq<Signal>)
    requires PointwiseAtMost(a, b)
    ensures SumPoints(a) <= SumPoints(b)
  {
    if a != [] {
      SumPointsIsMonotone(a[..|a| - 1], b[..|b| - 1]);
    }
  }

  /** At least as suspicious in every input; a younger account is more suspicious. */
  ghost predicate NoRiskierThan(x: RiskInput, y: RiskInput) {
    && x.disputesLast12Months <= y.disputesLast12Months
    && x.lostChargebacks <= y.lostChargebacks
    && x.transactionAgeDays <= y.transactionAgeDays
    && (x.highRiskMerchant ==> y.highRiskMerchant)
    && x.amount <= y.amount
    && x.accountAgeDays >= y.accountAgeDays
    && (x.questionnaireKnown ==> y.questionnaireKnown && x.inconsistencies <= y.inconsistencies)
  }

  predicate TierAtMost(a: RiskTier, b: RiskTier) { a == Low || b == High || a == b }

  /** The score is monotone in every input, and so is the tier: more suspicion never lifts a hold. */
  lemma ScoreIsMonotone(x: RiskInput, y: RiskInput)
    requires NoRiskierThan(x, y)
    ensures Assess(x).score <= Assess(y).score
    ensures TierAtMost(Assess(x).tier, Assess(y).tier)
  {
    SumPointsIsMonotone(Signals(x), Signals(y));
  }

  lemma ScoreIsBounded(x: RiskInput)
    ensures Assess(x).score <= 110
    ensures Assess(x).score == 110 <==>
      x.disputesLast12Months >= 3 && x.questionnaireKnown && x.inconsistencies >= 2 && x.lostChargebacks >= 2
      && x.transactionAgeDays > 60 && x.highRiskMerchant && x.amount >= 1000.0 && x.accountAgeDays < 90
  {
    var s := Signals(x);
    PointsAddUp(s);
  }

  lemma {:induction false} OneSignalDiffers(a: seq<Signal>, b: seq<Signal>, k: nat)
    requires k < |a| == |b| && forall i | 0 <= i < |a| && i != k :: a[i].points == b[i].points
    ensures SumPoints(a) - SumPoints(b) == a[k].points - b[k].points
  {
    var last := |a| - 1;
    if k < last {
      OneSignalDiffers(a[..last], b[..last], k);
    } else {
      SumPointsIsMonotone(a[..last], b[..last]);
      SumPointsIsMonotone(b[..last], a[..last]);
    }
  }

  // By how much each input changes the score from what it would be without it

  lemma DisputesAdd(x: RiskInput)
    ensures Assess(x).score - Assess(x.(disputesLast12Months := 0)).score
         == [0, 10, 18, 25][Within(x.disputesLast12Months, 0, 3)]
  {
    var a, b := Signals(x), Signals(x.(disputesLast12Months := 0));
    assert forall i | 0 <= i < 7 && i != 0 :: a[i] == b[i];
    OneSignalDiffers(a, b, 0);
  }

  lemma AnswersAdd(x: RiskInput)
    ensures Assess(x).score - Assess(x.(questionnaireKnown := false)).score
         == if x.questionnaireKnown then [0, 15, 25][Within(x.inconsistencies, 0, 2)] else 0
  {
    var a, b := Signals(x), Signals(x.(questionnaireKnown := false));
    assert forall i | 0 <= i < 7 && i != 1 :: a[i] == b[i];
    OneSignalDiffers(a, b, 1);
  }

  lemma LossesAdd(x: RiskInput)
    ensures Assess(x).score - Assess(x.(lostChargebacks := 0)).score
         == [0, 15, 25][Within(x.lostChargebacks, 0, 2)]
  {
    var a, b := Signals(x), Signals(x.(lostChargebacks := 0));
    assert forall i | 0 <= i < 7 && i != 2 :: a[i] == b[i];
    OneSignalDiffers(a, b, 2);
  }

  lemma TransactionAgeAdds(x: RiskInput)
    ensures Assess(x).score - Assess(x.(transactionAgeDays := 0)).score
         == if x.transactionAgeDays <= 30 then 0 else if x.transactionAgeDays <= 60 then 5 else 10
  {
    var a, b := Signals(x), Signals(x.(transactionAgeDays := 0));
    assert forall i | 0 <= i < 7 && i != 3 :: a[i] == b[i];
    OneSignalDiffers(a, b, 3);
  }

  lemma MerchantAdds(x: RiskInput)
    ensures Assess(x).score - Assess(x.(highRiskMerchant := false)).score
         == if x.highRiskMerchant then 10 else 0
  {
    var a, b := Signals(x), Signals(x.(highRiskMerchant := false));
    assert forall i | 0 <= i < 7 && i != 4 :: a[i] == b[i];
    OneSignalDiffers(a, b, 4);
  }

  lemma AmountAdds(x: RiskInput)
    ensures Assess(x).score - Assess(x.(amount := 0.0)).score
         == if x.amount < 500.0 then 0 else if x.amount < 1000.0 then 5 else 10
  {
    var a, b := Signals(x), Signals(x.(amount := 0.0));
    assert forall i | 0 <= i < 7 && i != 5 :: a[i] == b[i];
    OneSignalDiffers(a, b, 5);
  }

  lemma AccountAgeAdds(x: RiskInput)
    ensures Assess(x).score - Assess(x.(accountAgeDays := 365)).score
         == if x.accountAgeDays < 90 then 5 else if x.accountAgeDays < 365 then 2 else 0
  {
    var a, b := Signals(x), Signals(x.(accountAgeDays := 365));
    assert forall i | 0 <= i < 7 && i != 6 :: a[i] == b[i];
    OneSignalDiffers(a, b, 6);
  }

  /** And without any of them there is no suspicion. */
  lemma NothingAddsNothing(inconsistencies: int)
    ensures Assess(RiskInput(0, 0, 0, false, 0.0, 365, inconsistencies, false)).score == 0
  {
    PointsAddUp(Signals(RiskInput(0, 0, 0, false, 0.0, 365, inconsistencies, false)));
  }

  /** A number moved into a range. */
  function Within(n: int, low: int, high: int): (r: int)
    requires low <= high
    ensures low <= r <= high
  {
    if n < low then low else if n > high then high else n
  }

  lemma PointsAddUp(s: seq<Signal>)
    requires |s| == 7
    ensures SumPoints(s) == s[0].points + s[1].points + s[2].points + s[3].points + s[4].points + s[5].points + s[6].points
  {
    assert SumPoints(s[..1]) == s[0].points;
    forall i | 1 <= i < 7 ensures SumPoints(s[..i + 1]) == SumPoints(s[..i]) + s[i].points {
      assert s[..i + 1][..i] == s[..i];
    }
    assert s[..7] == s;
  }
}
