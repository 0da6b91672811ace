/** Regulatory clocks on a dispute: how they start, what settles them, how they read (domain/deadline.go). */
module Deadlines {
  import opened Prelude
  import opened Regimes
  import opened Lifecycle
  import opened Calendars

  /** A clock of one cycle: the opening's is cycle 0, the n-th appeal's is cycle n. */
  datatype Deadline = Deadline(
    kind: DeadlineKind, cycle: nat, startedAt: int, dueAt: int, metAt: Option<int>, voidedAt: Option<int>)
  {
    predicate Open() { metAt.None? && voidedAt.None? }

    function Status(now: int): DeadlineStatus {
      if metAt.Some? && metAt.value <= dueAt then Met
      else if metAt.Some? then Late
      else if voidedAt.Some? then Void
      else if now > dueAt then Breached
      else Running
    }

    function Stamp(met: bool, now: int): Deadline {
      if met then this.(metAt := Some(now)) else this.(voidedAt := Some(now))
    }
  }

  datatype DeadlineStatus = Running | Met | Late | Breached | Void

  datatype Settlement = Untouched | Meets | Voids

  /** What entering a state does to an open clock of a kind. */
  function Settle(kind: DeadlineKind, entered: State): Settlement {
    match kind
    case RefundClock =>
      if entered in {ProvisionalCreditIssued, FastRefundIssued, SepaNqaRefundIssued, FinalCreditIssued} then Meets
      else if entered == Closed then Voids
      else Untouched
    case AcknowledgeClock => if entered == Closed then Voids else Untouched
    case ResolutionClock => if entered == Closed then Meets else Untouched
  }

  function Start(c: Clock, cycle: nat, at: int, cal: Calendar): Deadline {
    Deadline(c.kind, cycle, at, Due(cal, at, c), None, None)
  }

  /** The clocks a regime starts when a dispute opens, one for each of the row's. */
  function OpeningDeadlines(clocks: seq<Clock>, at: int, cal: Calendar): (ds: seq<Deadline>)
    ensures |ds| == |clocks|
    ensures forall i | 0 <= i < |ds| :: ds[i] == Start(clocks[i], 0, at, cal)
  {
    if clocks == [] then []
    else
      var last := |clocks| - 1;
      OpeningDeadlines(clocks[..last], at, cal) + [Start(clocks[last], 0, at, cal)]
  }

  /** The clocks an appeal restarts: the resolution clock only. */
  function AppealDeadlines(clocks: seq<Clock>, appeal: nat, at: int, cal: Calendar): (ds: seq<Deadline>)
    ensures forall d | d in ds :: d.kind == ResolutionClock && d.cycle == appeal && d.startedAt == at && d.Open()
  {
    if clocks == [] then []
    else
      var last := |clocks| - 1;
      AppealDeadlines(clocks[..last], appeal, at, cal)
      + if clocks[last].kind == ResolutionClock then [Start(clocks[last], appeal, at, cal)] else []
  }

  method StartOpening(clocks: seq<Clock>, at: int, cal: Calendar) returns (out: seq<Deadline>)
    ensures out == OpeningDeadlines(clocks, at, cal)
  {
    out := [];
    for i := 0 to |clocks|
      invariant out == OpeningDeadlines(clocks[..i], at, cal)
    {
      var due := FindDue(cal, at, clocks[i]);
      out := out + [Deadline(clocks[i].kind, 0, at, due, None, None)];
      assert clocks[..i + 1][..i] == clocks[..i];
    }
    assert clocks[..|clocks|] == clocks;
  }

  method StartAppeal(clocks: seq<Clock>, appeal: nat, at: int, cal: Calendar) returns (out: seq<Deadline>)
    ensures out == AppealDeadlines(clocks, appeal, at, cal)
  {
    out := [];
    for i := 0 to |clocks|
      invariant out == AppealDeadlines(clocks[..i], appeal, at, cal)
    {
      if clocks[i].kind == ResolutionClock {
        var due := FindDue(cal, at, clocks[i]);
        out := out + [Deadline(clocks[i].kind, appeal, at, due, None, None)];
      }
      assert clocks[..i + 1][..i] == clocks[..i];
    }
    assert clocks[..|clocks|] == clocks;
  }

  lemma {:induction false} NoResolutionClockNoAppealDeadline(clocks: seq<Clock>, appeal: nat, at: int, cal: Calendar)
    requires forall i | 0 <= i < |clocks| :: clocks[i].kind != ResolutionClock
    ensures AppealDeadlines(clocks, appeal, at, cal) == []
  {
    if clocks != [] {
      NoResolutionClockNoAppealDeadline(clocks[..|clocks| - 1], appeal, at, cal);
    }
  }

  /** A row with one resolution clock restarts exactly that clock. */
  lemma {:induction false} AnAppealRestartsOneClock(clocks: seq<Clock>, only: nat, appeal: nat, at: int, cal: Calendar)
    requires only < |clocks|
    requires forall i | 0 <= i < |clocks| :: clocks[i].kind == ResolutionClock <==> i == only
    ensures AppealDeadlines(clocks, appeal, at, cal) == [Start(clocks[only], appeal, at, cal)]
  {
    var last := |clocks| - 1;
    if only == last {
      NoResolutionClockNoAppealDeadline(clocks[..last], appeal, at, cal);
    } else {
      AnAppealRestartsOneClock(clocks[..last], only, appeal, at, cal);
    }
  }

  // ---------------------------------------------------------------------------------------------------
  // Settling

  /** What one clock becomes when a dispute enters a state. */
  function SettleOne(d: Deadline, entered: State, now: int): Deadline {
    if !d.Open() then d
    else
      match Settle(d.kind, entered)
      case Untouched => d
      case Meets => d.Stamp(true, now)
      case Voids => d.Stamp(false, now)
  }

  function SettleAll(ds: seq<Deadline>, entered: State, now: int): (r: seq<Deadline>)
    ensures |r| == |ds|
  {
    seq(|ds|, i requires 0 <= i < |ds| => SettleOne(ds[i], entered, now))
  }

  /** The store's settlement: stamps every open clock of a kind and cycle. */
  function StampMatching(ds: seq<Deadline>, kind: DeadlineKind, cycle: nat, met: bool, now: int): (r: seq<Deadline>)
    ensures |r| == |ds|
  {
    seq(|ds|, i requires 0 <= i < |ds| =>
      if ds[i].kind == kind && ds[i].cycle == cycle && ds[i].Open() then ds[i].Stamp(met, now) else ds[i])
  }

  /** The loop over the open clocks so far: the first n are settled, any other perhaps along with one of them. */
  ghost predicate PartlySettled(open: seq<Deadline>, ds: seq<Deadline>, n: nat, entered: State, now: int) {
    && n <= |open| == |ds|
    && (forall j | 0 <= j < |open| :: ds[j] == open[j] || ds[j] == SettleOne(open[j], entered, now))
    && (forall j | 0 <= j < n :: ds[j] == SettleOne(open[j], entered, now))
  }

  /** What one turn of that loop writes. */
  function SettleTurn(d: Deadline, ds: seq<Deadline>, entered: State, now: int): seq<Deadline> {
    if !d.Open() || Settle(d.kind, entered) == Untouched then ds
    else StampMatching(ds, d.kind, d.cycle, Settle(d.kind, entered) == Meets, now)
  }

  lemma OneTurnSettlesOneMore(open: seq<Deadline>, ds: seq<Deadline>, n: nat, entered: State, now: int)
    requires n < |open| && PartlySettled(open, ds, n, entered, now)
    ensures PartlySettled(open, SettleTurn(open[n], ds, entered, now), n + 1, entered, now)
  {
  }

  /** A settled clock never changes again, and no settlement moves a due time. */
  lemma SettlingIsFinal(d: Deadline, entered: State, now: int)
    ensures var d' := SettleOne(d, entered, now);
            && d'.(metAt := d.metAt, voidedAt := d.voidedAt) == d
            && (!d.Open() ==> d' == d)
            && (d.Open() && !d'.Open() ==> d'.metAt.Some? != d'.voidedAt.Some?)
  {
  }

  /** Closing settles every clock, by meeting the resolution clock; a credit meets the refund clock; nothing else settles. */
  lemma WhatSettlesAClock(d: Deadline, entered: State, now: int)
    requires d.Open()
    ensures var d' := SettleOne(d, entered, now);
            && (d'.metAt == Some(now) <==>
                  || (d.kind == ResolutionClock && entered == Closed)
                  || (d.kind == RefundClock && (IsRefundState(entered) || entered == FinalCreditIssued)))
            && (d'.voidedAt == Some(now) <==> d.kind != ResolutionClock && entered == Closed)
            && (d' == d || !d'.Open())
  {
  }

  /** An open clock runs through its due time and is breached after it; a settled one reads the same for ever. */
  lemma HowAClockReads(d: Deadline, now: int, later: int)
    requires now <= later
    ensures d.Open() ==> d.Status(now) == (if d.dueAt < now then Breached else Running)
    ensures !d.Open() ==> d.Status(later) == d.Status(now)
    ensures forall at | d.metAt == Some(at) :: d.Status(now) == if at <= d.dueAt then Met else Late
    ensures d.metAt == None && d.voidedAt.Some? ==> d.Status(now) == Void
  {
  }

  // ---------------------------------------------------------------------------------------------------
  // The clock that runs out first

  ghost predicate EarliestOpen(ds: seq<Deadline>, i: int) {
    && 0 <= i < |ds| && ds[i].Open()
    && (forall j | 0 <= j < |ds| && ds[j].Open() :: ds[i].dueAt <= ds[j].dueAt)
    && (forall j | 0 <= j < i && ds[j].Open() :: ds[i].dueAt < ds[j].dueAt)
  }

  /** The loop of NextDeadlines for one dispute: the first of the open clocks with the least due time. */
  method NextDeadline(ds: seq<Deadline>) returns (next: Option<Deadline>)
    ensures next.None? <==> forall d | d in ds :: !d.Open()
    ensures next.Some? ==> exists i :: EarliestOpen(ds, i) && ds[i] == next.value
  {
    next := None;
    ghost var at := -1;
    for k := 0 to |ds|
      invariant next.None? ==> forall j | 0 <= j < k :: !ds[j].Open()
      invariant next.Some? ==> 0 <= at < k && EarliestOpen(ds[..k], at) && ds[at] == next.value
    {
      if ds[k].Open() && (next.None? || ds[k].dueAt < next.value.dueAt) {
        next := Some(ds[k]);
        at := k;
      }
    }
    assert ds[..|ds|] == ds;
    if next.Some? {
      assert EarliestOpen(ds, at);
    }
  }

  predicate IsOverdue(ds: seq<Deadline>, now: int) {
    exists d | d in ds :: d.Open() && now > d.dueAt
  }

  /** The filter of an overdue list. */
  method Overdue(ds: seq<Deadline>, now: int) returns (overdue: bool)
    ensures overdue <==> IsOverdue(ds, now)
  {
    for k := 0 to |ds|
      invariant forall j | 0 <= j < k :: !(ds[j].Open() && now > ds[j].dueAt)
    {
      if ds[k].Open() && now > ds[k].dueAt {
        return true;
      }
    }
    return false;
  }

  /** The filter selects a dispute exactly when the clock shown as its next one reads BREACHED. */
  lemma OverdueMeansNextIsBreached(ds: seq<Deadline>, i: int, now: int)
    requires EarliestOpen(ds, i)
    ensures ds[i].Status(now) == Breached <==> IsOverdue(ds, now)
  {
    if IsOverdue(ds, now) {
      var d :| d in ds && d.Open() && now > d.dueAt;
      var j :| 0 <= j < |ds| && ds[j] == d;
      assert ds[i].dueAt <= ds[j].dueAt;
    } else {
      assert ds[i] in ds;
    }
  }
}
